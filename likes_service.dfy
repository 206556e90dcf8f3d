/** `LikesService.like`: records that a member likes a template, at most
    once per (template, member) pair. */
module Likes {
  import opened Common

  /** A `likes` row: member `memberId` likes template `templateId`. */
  datatype Likes = Likes(templateId: int, memberId: int)

  /** The likes table after a `like` whose template and member both
      exist: the pair is added as one new row unless it is already there.
      Every earlier row stays where it was, the pair is present afterwards,
      nothing else is added, and a table without duplicate rows keeps
      having none. */
  function AfterLike(likes: seq<Likes>, templateId: int, memberId: int): (r: seq<Likes>)
    ensures Likes(templateId, memberId) in r
    ensures likes <= r
    ensures forall l :: l in r <==> l in likes || l == Likes(templateId, memberId)
    ensures |r| == if Likes(templateId, memberId) in likes then |likes| else |likes| + 1
    ensures Distinct(likes) ==> Distinct(r)
  {
    var row := Likes(templateId, memberId);
    if row in likes then likes else likes + [row]
  }

  /** Liking twice leaves the table as liking once. */
  lemma LikeTwiceIsLikeOnce(likes: seq<Likes>, templateId: int, memberId: int)
    ensures AfterLike(AfterLike(likes, templateId, memberId), templateId, memberId)
            == AfterLike(likes, templateId, memberId)
  {
  }

  /** The service over its three repositories: the ids of the stored
      templates and members, which `like` only reads, and the likes table. */
  class LikesService {
    const templateIds: set<int>
    const memberIds: set<int>
    var likes: seq<Likes>

    /** No (template, member) pair is stored twice, and every row refers
        to a stored template and a stored member. */
    ghost predicate Valid()
      reads this
    {
      && Distinct(likes)
      && forall l :: l in likes ==> l.templateId in templateIds && l.memberId in memberIds
    }

    constructor (templateIds: set<int>, memberIds: set<int>)
      ensures Valid()
      ensures this.templateIds == templateIds && this.memberIds == memberIds && likes == []
    {
      this.templateIds := templateIds;
      this.memberIds := memberIds;
      likes := [];
    }

    /** `like(memberDto, templateId)`. The template is fetched first, then
        the member; a missing one fails the call before anything is
        written. An existing pair returns without change; otherwise one
        row is saved. */
    method Like(memberId: int, templateId: int) returns (r: Outcome)
      requires Valid()
      modifies this`likes
      ensures Valid()
      ensures templateId !in templateIds ==> r == Fail(TemplateNotFound(templateId)) && likes == old(likes)
      ensures templateId in templateIds && memberId !in memberIds ==>
                r == Fail(MemberNotFound(memberId)) && likes == old(likes)
      ensures templateId in templateIds && memberId in memberIds ==>
                r == Pass && likes == AfterLike(old(likes), templateId, memberId)
    {
      if templateId !in templateIds {
        return Fail(TemplateNotFound(templateId));
      }
      if memberId !in memberIds {
        return Fail(MemberNotFound(memberId));
      }
      if Likes(templateId, memberId) in likes {
        return Pass;
      }
      likes := likes + [Likes(templateId, memberId)];
      r := Pass;
    }
  }

  /** Two `like` calls for the same pair leave exactly one row; a call for
      a template that does not exist fails even when the member is missing
      too, and writes nothing. */
  method LikeScenario() returns (rows: nat, missingBoth: Outcome)
    ensures rows == 1
    ensures missingBoth == Fail(TemplateNotFound(7))
  {
    var service := new LikesService({1}, {2});
    var first := service.Like(2, 1);
    var second := service.Like(2, 1);
    missingBoth := service.Like(3, 7);
    rows := |service.likes|;
  }
}
