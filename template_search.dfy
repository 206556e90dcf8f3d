/** The template search filter: four optional filters (owner, category,
    tag ids, keyword), each turned into one clause when present, and the
    clauses joined with AND. */
module TemplateSearch {
  import opened Common
  import opened Domain
  import opened JavaStrings

  /** The tables the search reads. */
  datatype Db = Db(templates: seq<Template>, sourceCodes: seq<SourceCode>, templateTags: seq<TemplateTag>)

  /** The request parameters; each may be null. `tagIds` is a list and may
      repeat an id. */
  datatype Filter = Filter(
    memberId: Option<int>,
    keyword: Option<string>,
    categoryId: Option<int>,
    tagIds: Option<seq<int>>)

  /** One clause of the conjunction. */
  datatype Clause =
    | MemberIs(memberId: int)
    | CategoryIs(categoryId: int)
    | HasAllTags(tagIds: seq<int>)
    | MentionsKeyword(word: string)

  /** The distinct ids of the tags linked to template `templateId`. */
  function LinkedTagIds(db: Db, templateId: int): set<int> {
    set l | l in db.templateTags && l.templateId == templateId :: l.tagId as int
  }

  /** The keyword clause as a query: the word is a substring of the title,
      of the description (a NULL description never matches), or of the
      content or filename of a source file of the template. */
  predicate ContainsWord(db: Db, t: Template, w: string) {
    || Contains(t.title, w)
    || (t.description.Some? && Contains(t.description.value, w))
    || exists sc :: sc in db.sourceCodes && sc.templateId == t.id && (Contains(sc.content, w) || Contains(sc.filename, w))
  }

  /** Whether one clause selects template `t`. The tag clause is the
      subquery as written: among the template's links whose tag id is in
      `tagIds`, the number of distinct tag ids equals the size of the list. */
  predicate Holds(db: Db, c: Clause, t: Template) {
    match c
    case MemberIs(id) => t.memberId == id
    case CategoryIs(id) => t.categoryId == id
    case HasAllTags(ids) => |LinkedTagIds(db, t.id) * Elements(ids)| == |ids|
    case MentionsKeyword(w) => ContainsWord(db, t, w)
  }

  /** `criteriaBuilder.and(...)`: every clause holds (none: always true). */
  predicate AllHold(db: Db, clauses: seq<Clause>, t: Template) {
    forall i :: 0 <= i < |clauses| ==> Holds(db, clauses[i], t)
  }

  /** The word occurs in the title, the description or a source file. */
  ghost predicate Mentions(db: Db, t: Template, w: string) {
    || Occurs(w, t.title)
    || (t.description.Some? && Occurs(w, t.description.value))
    || exists sc :: sc in db.sourceCodes && sc.templateId == t.id && (Occurs(w, sc.content) || Occurs(w, sc.filename))
  }

  /** The keyword filter is active: non-null and not blank. */
  predicate KeywordActive(f: Filter) {
    f.keyword.Some? && !IsBlank(f.keyword.value)
  }

  /** The tag filter is active: non-null and non-empty. */
  predicate TagsActive(f: Filter) {
    f.tagIds.Some? && f.tagIds.value != []
  }

  /** No filter is active. */
  predicate Unfiltered(f: Filter) {
    f.memberId.None? && f.categoryId.None? && !TagsActive(f) && !KeywordActive(f)
  }

  /** What the search is meant to select, filter by filter: the owner and
      the category are the given ones, the template is linked to every
      requested tag (and the request names no tag twice), and the trimmed
      keyword occurs in it. An inactive filter asks nothing. */
  ghost predicate Matches(db: Db, f: Filter, t: Template) {
    && (f.memberId.Some? ==> t.memberId == f.memberId.value)
    && (f.categoryId.Some? ==> t.categoryId == f.categoryId.value)
    && (TagsActive(f) ==>
          Distinct(f.tagIds.value) && forall id :: id in f.tagIds.value ==> id in LinkedTagIds(db, t.id))
    && (KeywordActive(f) ==> Mentions(db, t, Trim(f.keyword.value)))
  }

  /** The tag clause as written means "linked to every requested tag", and
      holds of no template at all when the list repeats an id. */
  lemma TagClauseMeaning(db: Db, ids: seq<int>, t: Template)
    ensures Holds(db, HasAllTags(ids), t) <==>
              Distinct(ids) && forall id :: id in ids ==> id in LinkedTagIds(db, t.id)
  {
    var linked := LinkedTagIds(db, t.id);
    var wanted := Elements(ids);
    ElementsCardinality(ids);
    SubsetCardinality(linked * wanted, wanted);
    if Distinct(ids) && forall id :: id in ids ==> id in linked {
      assert linked * wanted == wanted;
    }
    if |linked * wanted| == |ids| {
      assert |wanted| == |ids|;
      forall id | id in ids ensures id in linked {
        if id !in linked {
          assert id in wanted;
          SubsetCardinality(linked * wanted, wanted - {id});
          assert false;
        }
      }
    }
  }

  /** With a repeated id the tag clause selects nothing. */
  lemma RepeatedTagIdSelectsNothing(db: Db, ids: seq<int>, i: nat, j: nat, t: Template)
    requires i < j < |ids| && ids[i] == ids[j]
    ensures !Holds(db, HasAllTags(ids), t)
  {
    TagClauseMeaning(db, ids, t);
  }

  /** The keyword clause is substring search in the four places. */
  lemma KeywordClauseMeaning(db: Db, w: string, t: Template)
    ensures Holds(db, MentionsKeyword(w), t) <==> Mentions(db, t, w)
  {
    ContainsMeaning(t.title, w);
    if t.description.Some? {
      ContainsMeaning(t.description.value, w);
    }
    forall sc | sc in db.sourceCodes
      ensures (Contains(sc.content, w) || Contains(sc.filename, w)) <==> (Occurs(w, sc.content) || Occurs(w, sc.filename))
    {
      ContainsMeaning(sc.content, w);
      ContainsMeaning(sc.filename, w);
    }
  }

  lemma AllHoldAppend(db: Db, clauses: seq<Clause>, c: Clause, t: Template)
    ensures AllHold(db, clauses + [c], t) <==> AllHold(db, clauses, t) && Holds(db, c, t)
  {
    assert (clauses + [c])[|clauses|] == c;
    forall i | 0 <= i < |clauses| ensures (clauses + [c])[i] == clauses[i] { }
  }

  /** `toPredicate`: collects one clause per active filter (owner,
      category, tags, keyword, in that order) and joins them with AND. The
      clauses select exactly the templates the filter is meant to select,
      and there are none when no filter is active. */
  method ToPredicate(f: Filter) returns (predicates: seq<Clause>)
    ensures predicates == [] <==> Unfiltered(f)
    ensures forall db, t :: AllHold(db, predicates, t) <==> Matches(db, f, t)
  {
    predicates := [];
    // addMemberPredicate
    if f.memberId.Some? {
      predicates := predicates + [MemberIs(f.memberId.value)];
    }
    ghost var afterMember := predicates;
    // addCategoryPredicate
    if f.categoryId.Some? {
      predicates := predicates + [CategoryIs(f.categoryId.value)];
    }
    ghost var afterCategory := predicates;
    // addTagPredicate
    if f.tagIds.Some? && f.tagIds.value != [] {
      predicates := predicates + [HasAllTags(f.tagIds.value)];
    }
    ghost var afterTags := predicates;
    if f.keyword.Some? {
      TrimMeaning(f.keyword.value);
    }
    // addKeywordPredicate
    if f.keyword.Some? && Trim(f.keyword.value) != [] {
      predicates := predicates + [MentionsKeyword(Trim(f.keyword.value))];
    }
    forall db, t ensures AllHold(db, predicates, t) <==> Matches(db, f, t) {
      ClausesMeaning(f, afterMember, afterCategory, afterTags, predicates, db, t);
    }
  }

  /** The clauses built filter by filter hold together exactly when the
      filter matches. */
  lemma ClausesMeaning(f: Filter, afterMember: seq<Clause>, afterCategory: seq<Clause>,
                       afterTags: seq<Clause>, predicates: seq<Clause>, db: Db, t: Template)
    requires afterMember == if f.memberId.Some? then [MemberIs(f.memberId.value)] else []
    requires afterCategory == if f.categoryId.Some? then afterMember + [CategoryIs(f.categoryId.value)] else afterMember
    requires afterTags == if TagsActive(f) then afterCategory + [HasAllTags(f.tagIds.value)] else afterCategory
    requires predicates == if KeywordActive(f) then afterTags + [MentionsKeyword(Trim(f.keyword.value))] else afterTags
    ensures AllHold(db, predicates, t) <==> Matches(db, f, t)
  {
    if f.memberId.Some? {
      AllHoldAppend(db, [], MemberIs(f.memberId.value), t);
    }
    if f.categoryId.Some? {
      AllHoldAppend(db, afterMember, CategoryIs(f.categoryId.value), t);
    }
    if TagsActive(f) {
      AllHoldAppend(db, afterCategory, HasAllTags(f.tagIds.value), t);
      TagClauseMeaning(db, f.tagIds.value, t);
    }
    if KeywordActive(f) {
      AllHoldAppend(db, afterTags, MentionsKeyword(Trim(f.keyword.value)), t);
      KeywordClauseMeaning(db, Trim(f.keyword.value), t);
    }
  }

  /** The templates of `ts` the filter selects, in their order. */
  ghost function Select(db: Db, ts: seq<Template>, f: Filter): (r: seq<Template>)
    ensures |r| <= |ts|
    ensures forall t :: t in r <==> t in ts && Matches(db, f, t)
  {
    if ts == [] then []
    else
      var rest := Select(db, ts[..|ts| - 1], f);
      var t := ts[|ts| - 1];
      assert ts == ts[..|ts| - 1] + [t];
      if Matches(db, f, t) then rest + [t] else rest
  }

  /** The search result over the whole template table. */
  ghost function Search(db: Db, f: Filter): seq<Template> {
    Select(db, db.templates, f)
  }

  /** With no filter active every template is selected, in table order. */
  lemma {:induction false} UnfilteredSelectsAll(db: Db, ts: seq<Template>, f: Filter)
    requires Unfiltered(f)
    ensures Select(db, ts, f) == ts
  {
    if ts != [] {
      UnfilteredSelectsAll(db, ts[..|ts| - 1], f);
      assert ts == ts[..|ts| - 1] + [ts[|ts| - 1]];
    }
  }

  /** `g` asks at least what `f` asks: every filter active in `f` is active
      in `g` with the same value. */
  predicate Narrows(g: Filter, f: Filter) {
    && (f.memberId.Some? ==> g.memberId == f.memberId)
    && (f.categoryId.Some? ==> g.categoryId == f.categoryId)
    && (TagsActive(f) ==> g.tagIds == f.tagIds)
    && (KeywordActive(f) ==> g.keyword == f.keyword)
  }

  /** Adding filters never enlarges the result: the narrower search is the
      wider one's result filtered again, so it is a subsequence of it. */
  lemma {:induction false} NarrowingRefines(db: Db, ts: seq<Template>, f: Filter, g: Filter)
    requires Narrows(g, f)
    ensures Select(db, Select(db, ts, f), g) == Select(db, ts, g)
  {
    if ts != [] {
      var init, t := ts[..|ts| - 1], ts[|ts| - 1];
      NarrowingRefines(db, init, f, g);
      var rest := Select(db, init, f);
      if Matches(db, f, t) {
        assert (rest + [t])[..|rest|] == rest;
      }
    }
  }

  /** The result is the intersection of what each active filter selects on
      its own. */
  lemma SearchIsIntersection(db: Db, f: Filter, t: Template)
    ensures t in Search(db, f) <==>
      && t in Search(db, Filter(f.memberId, None, None, None))
      && t in Search(db, Filter(None, None, f.categoryId, None))
      && t in Search(db, Filter(None, None, None, f.tagIds))
      && t in Search(db, Filter(None, f.keyword, None, None))
  {
  }

  /** Whether the query built for `f` selects template `t`. */
  method Accepts(db: Db, f: Filter, t: Template) returns (selected: bool)
    ensures selected <==> Matches(db, f, t)
  {
    var predicates := ToPredicate(f);
    selected := AllHold(db, predicates, t);
  }

  /** The template the search examples run against: titled "Hello",
      described "World", with one source file "main.py" holding "print",
      and linked to tags 10, 11 and 12. */
  function SampleDb(): Db {
    Db([Template(1, 1, 1, "Hello", Some("World"))],
       [SourceCode(1, 1, "main.py", "print")],
       [TemplateTag(1, 10), TemplateTag(1, 11), TemplateTag(1, 12)])
  }

  /** The keyword is looked up in the title and in a source file's
      content and name. */
  method KeywordScenario() returns (byTitle: bool, byCode: bool, byFilename: bool)
    ensures byTitle && byCode && byFilename
  {
    var db := SampleDb();
    var t := db.templates[0];
    KeywordInTitle();
    byTitle := Accepts(db, Filter(None, Some("Hello"), None, None), t);
    KeywordInContent();
    byCode := Accepts(db, Filter(None, Some("print"), None, None), t);
    KeywordInFilename();
    byFilename := Accepts(db, Filter(None, Some("main"), None, None), t);
  }

  /** A keyword that is its own trim and occurs in the template selects it. */
  lemma MentionedKeywordMatches(db: Db, t: Template, w: string)
    requires w != [] && Trim(w) == w && Mentions(db, t, w)
    ensures Matches(db, Filter(None, Some(w), None, None), t)
  {
    TrimMeaning(w);
  }

  /** "Hello" begins the title. */
  lemma KeywordInTitle()
    ensures Matches(SampleDb(), Filter(None, Some("Hello"), None, None), SampleDb().templates[0])
  {
    var db := SampleDb();
    assert Trim("Hello") == "Hello";
    assert OccursAt("Hello", db.templates[0].title, 0);
    MentionedKeywordMatches(db, db.templates[0], "Hello");
  }

  /** "print" begins the source file's content. */
  lemma KeywordInContent()
    ensures Matches(SampleDb(), Filter(None, Some("print"), None, None), SampleDb().templates[0])
  {
    var db := SampleDb();
    assert Trim("print") == "print";
    assert OccursAt("print", db.sourceCodes[0].content, 0);
    assert db.sourceCodes[0] in db.sourceCodes;
    MentionedKeywordMatches(db, db.templates[0], "print");
  }

  /** "main" begins the source file's name. */
  lemma KeywordInFilename()
    ensures Matches(SampleDb(), Filter(None, Some("main"), None, None), SampleDb().templates[0])
  {
    var db := SampleDb();
    assert Trim("main") == "main";
    assert OccursAt("main", db.sourceCodes[0].filename, 0);
    assert db.sourceCodes[0] in db.sourceCodes;
    MentionedKeywordMatches(db, db.templates[0], "main");
  }

  /** The keyword is one phrase: "Hello World" spans the title and the
      description and is found in neither. A blank keyword adds no clause. */
  method PhraseScenario() returns (spanning: bool, blank: seq<Clause>)
    ensures !spanning && blank == []
  {
    var db := SampleDb();
    var t := db.templates[0];
    PhraseNotMatched();
    spanning := Accepts(db, Filter(None, Some("Hello World"), None, None), t);

    blank := ToPredicate(Filter(None, Some(" "), None, None));
  }

  /** The keyword filter "Hello World" does not select the sample template. */
  lemma PhraseNotMatched()
    ensures !Matches(SampleDb(), Filter(None, Some("Hello World"), None, None), SampleDb().templates[0])
  {
    PhraseNotMentioned();
    assert Trim("Hello World") == "Hello World";
  }

  /** No field of the sample template holds "Hello World". */
  lemma PhraseNotMentioned()
    ensures !Mentions(SampleDb(), SampleDb().templates[0], "Hello World")
  {
    var db := SampleDb();
    forall s: string | |s| < 11 ensures !Occurs("Hello World", s) {
      forall i ensures !OccursAt("Hello World", s, i) { }
    }
    assert forall sc :: sc in db.sourceCodes ==> sc == SourceCode(1, 1, "main.py", "print");
  }

  /** Tags 10 and 11 select the template; an unlinked tag or a repeated
      id selects nothing. */
  method TagScenario() returns (byTags: bool, unknownTag: bool, repeatedTag: bool)
    ensures byTags && !unknownTag && !repeatedTag
  {
    var db := SampleDb();
    var t := db.templates[0];
    assert 10 in LinkedTagIds(db, 1) && 11 in LinkedTagIds(db, 1) by {
      assert db.templateTags[0] in db.templateTags && db.templateTags[1] in db.templateTags;
    }
    byTags := Accepts(db, Filter(None, None, None, Some([10, 11])), t);

    assert 13 !in LinkedTagIds(db, 1);
    unknownTag := Accepts(db, Filter(None, None, None, Some([10, 13])), t);

    assert !Distinct([10, 10]) by {
      assert [10, 10][0] == [10, 10][1];
    }
    repeatedTag := Accepts(db, Filter(None, None, None, Some([10, 10])), t);
  }
}
