/** Types shared by every service of the model: optional values, the
    failures the services raise, and a few facts about sequences. */
module Common {

  /** A nullable Java reference (`Long`, `String`, `List`): `None` is `null`. */
  datatype Option<+T> = None | Some(value: T)

  /** The `CodeZapException`s the modelled services throw. */
  datatype Error =
    | TemplateNotFound(templateId: int)
    | MemberNotFound(memberId: int)
    | DuplicateEmail
    | DuplicateUsername
    | AuthenticationFailed

  /** A service call that returns a value or throws. */
  datatype Result<+T> = Ok(value: T) | Err(error: Error)

  /** A service call that returns nothing (`void`) or throws. */
  datatype Outcome = Pass | Fail(error: Error)

  /** The message a member-service failure carries; the not-found failures
      come from repository code that is not part of this model. */
  function Message(e: Error): (m: string)
    requires e.DuplicateEmail? || e.DuplicateUsername? || e.AuthenticationFailed?
    ensures m != []
  {
    match e
    case DuplicateEmail => "이메일이 이미 존재합니다."
    case DuplicateUsername => "사용자명이 이미 존재합니다."
    case AuthenticationFailed => "인증에 실패했습니다."
  }

  /** The three messages, as the tests expect them. */
  lemma MessageTexts()
    ensures Message(DuplicateEmail) == "이메일이 이미 존재합니다."
    ensures Message(DuplicateUsername) == "사용자명이 이미 존재합니다."
    ensures Message(AuthenticationFailed) == "인증에 실패했습니다."
  {
  }

  /** No element occurs twice. */
  predicate Distinct<T(==)>(s: seq<T>) {
    forall i, j :: 0 <= i < j < |s| ==> s[i] != s[j]
  }

  /** The set of elements of a sequence. */
  function Elements<T>(s: seq<T>): set<T> {
    set x | x in s
  }

  /** A sequence has at most as many distinct elements as positions, and
      exactly as many iff no element repeats. */
  lemma {:induction false} ElementsCardinality<T>(s: seq<T>)
    ensures |Elements(s)| <= |s|
    ensures |Elements(s)| == |s| <==> Distinct(s)
  {
    if s != [] {
      var t := s[1..];
      ElementsCardinality(t);
      assert Elements(s) == {s[0]} + Elements(t);
      if s[0] in t {
        assert Elements(s) == Elements(t);
        var k :| 0 <= k < |t| && t[k] == s[0];
        assert s[0] == s[k + 1];
        assert !Distinct(s);
      } else {
        assert |Elements(s)| == |Elements(t)| + 1;
        if Distinct(t) {
          forall i, j | 0 <= i < j < |s| ensures s[i] != s[j] {
            if i > 0 {
              assert s[i] == t[i - 1] && s[j] == t[j - 1];
            } else {
              assert s[j] == t[j - 1];
            }
          }
        } else {
          var i, j :| 0 <= i < j < |t| && t[i] == t[j];
          assert s[i + 1] == s[j + 1];
        }
      }
    }
  }

  /** A subset is no larger than its superset. */
  lemma {:induction false} SubsetCardinality<T>(a: set<T>, b: set<T>)
    requires a <= b
    ensures |a| <= |b|
  {
    if a != {} {
      var x :| x in a;
      SubsetCardinality(a - {x}, b - {x});
    }
  }
}
