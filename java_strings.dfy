/** The two `java.lang.String` operations the template search relies on:
    `trim()` and substring search. */
module JavaStrings {

  /** `trim()` removes every leading and trailing character whose code is
      at most U+0020 (space and the control characters). */
  predicate IsTrimmable(c: char) {
    c <= ' '
  }

  /** A string that is empty after `trim()`. */
  predicate IsBlank(s: string) {
    forall i :: 0 <= i < |s| ==> IsTrimmable(s[i])
  }

  /** `s` with its leading trimmable characters removed: the longest
      suffix of `s` that does not start with one. */
  function TrimLeading(s: string): (r: string)
    ensures |r| <= |s| && r == s[|s| - |r|..]
    ensures r == [] || !IsTrimmable(r[0])
    ensures forall i :: 0 <= i < |s| - |r| ==> IsTrimmable(s[i])
  {
    if s != [] && IsTrimmable(s[0]) then TrimLeading(s[1..]) else s
  }

  /** `s` with its trailing trimmable characters removed: the longest
      prefix of `s` that does not end with one. */
  function TrimTrailing(s: string): (r: string)
    ensures |r| <= |s| && r == s[..|r|]
    ensures r == [] || !IsTrimmable(r[|r| - 1])
    ensures forall i :: |r| <= i < |s| ==> IsTrimmable(s[i])
  {
    if s != [] && IsTrimmable(s[|s| - 1]) then TrimTrailing(s[..|s| - 1]) else s
  }

  /** `String.trim()`. */
  function Trim(s: string): string {
    TrimTrailing(TrimLeading(s))
  }

  /** `r` is `s[a..a + |r|]` and everything of `s` outside that slice is
      trimmable. */
  ghost predicate SliceBetweenBlanks(s: string, r: string, a: int) {
    && 0 <= a <= |s| - |r| && s[a..a + |r|] == r
    && (forall i :: 0 <= i < a ==> IsTrimmable(s[i]))
    && (forall i :: a + |r| <= i < |s| ==> IsTrimmable(s[i]))
  }

  /** `trim()` keeps a slice of `s`, drops only trimmable characters on
      either side, leaves none at its ends, and is empty exactly when `s`
      is blank. */
  lemma TrimMeaning(s: string)
    ensures Trim(s) == [] <==> IsBlank(s)
    ensures Trim(s) != [] ==> !IsTrimmable(Trim(s)[0]) && !IsTrimmable(Trim(s)[|Trim(s)| - 1])
    ensures exists a :: SliceBetweenBlanks(s, Trim(s), a)
  {
    TrimEmptyIffBlank(s);
    TrimIsSlice(s);
  }

  lemma TrimEmptyIffBlank(s: string)
    ensures Trim(s) == [] <==> IsBlank(s)
    ensures Trim(s) != [] ==> !IsTrimmable(Trim(s)[0]) && !IsTrimmable(Trim(s)[|Trim(s)| - 1])
  {
    var l := TrimLeading(s);
    var r := TrimTrailing(l);
    if IsBlank(s) {
      BlankTrimsToNothing(s);
    }
    if r == [] {
      assert IsBlank(l);
    }
    if r != [] {
      assert r[0] == l[0];
    }
  }

  /** A blank string loses every character to the leading trim. */
  lemma {:induction false} BlankTrimsToNothing(s: string)
    requires IsBlank(s)
    ensures TrimLeading(s) == []
  {
    if s != [] {
      assert IsBlank(s[1..]) by {
        forall i | 0 <= i < |s| - 1 ensures IsTrimmable(s[1..][i]) {
          assert s[1..][i] == s[i + 1];
        }
      }
      BlankTrimsToNothing(s[1..]);
    }
  }

  lemma TrimIsSlice(s: string)
    ensures exists a :: SliceBetweenBlanks(s, Trim(s), a)
  {
    var l := TrimLeading(s);
    var r := TrimTrailing(l);
    var a := |s| - |l|;
    PrefixOfSuffix(s, a, l, r);
    assert Trim(s) == r;
    assert SliceBetweenBlanks(s, Trim(s), a);
  }

  /** A prefix `r` of the suffix `l` of `s` starting at `a` is the slice
      of `s` from `a`. */
  lemma PrefixOfSuffix(s: string, a: nat, l: string, r: string)
    requires a <= |s| && l == s[a..] && |r| <= |l| && r == l[..|r|]
    ensures s[a..a + |r|] == r
    ensures forall i :: a <= i < |s| ==> s[i] == l[i - a]
  {
    forall k | 0 <= k < |r| ensures s[a..a + |r|][k] == r[k] {
      assert r[k] == l[k] == s[a + k];
    }
  }

  /** `w` occurs in `s` at some position: what `s.contains(w)` and the SQL
      pattern `'%' + w + '%'` without wildcard characters ask for. */
  ghost predicate Occurs(w: string, s: string) {
    exists i :: OccursAt(w, s, i)
  }

  ghost predicate OccursAt(w: string, s: string, i: int) {
    0 <= i <= |s| - |w| && s[i..i + |w|] == w
  }

  predicate IsPrefix(w: string, s: string) {
    |w| <= |s| && s[..|w|] == w
  }

  /** Substring search, one starting position at a time. */
  predicate Contains(s: string, w: string) {
    IsPrefix(w, s) || (s != [] && Contains(s[1..], w))
  }

  lemma {:induction false} ContainsMeaning(s: string, w: string)
    ensures Contains(s, w) <==> Occurs(w, s)
  {
    if IsPrefix(w, s) {
      assert OccursAt(w, s, 0);
    } else if s != [] {
      var t := s[1..];
      ContainsMeaning(t, w);
      if Occurs(w, t) {
        var i :| OccursAt(w, t, i);
        assert s[i + 1..i + 1 + |w|] == t[i..i + |w|];
        assert OccursAt(w, s, i + 1);
      }
      if Occurs(w, s) {
        var i :| OccursAt(w, s, i);
        if i > 0 {
          assert t[i - 1..i - 1 + |w|] == s[i..i + |w|];
          assert OccursAt(w, t, i - 1);
        }
      }
    }
  }
}
