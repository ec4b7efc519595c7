/** Ruby's `String#gsub(pattern, replacement)` with a string pattern: every
    non-overlapping occurrence of the pattern, scanning left to right, is replaced. */
module TextReplace {

  /** True iff `p` occurs in `s` starting at position `k`. */
  predicate OccursAt(s: string, p: string, k: nat)
  {
    k + |p| <= |s| && s[k..k + |p|] == p
  }

  /** `gsub` with a literal pattern. An empty pattern matches before every character
      and at the end, as in Ruby (`"ab".gsub("", "x") == "xaxbx"`). */
  function ReplaceAll(s: string, p: string, r: string): string
    decreases |s|
  {
    if p == [] then
      if s == [] then r else r + [s[0]] + ReplaceAll(s[1..], p, r)
    else if |s| < |p| then s
    else if s[..|p|] == p then r + ReplaceAll(s[|p|..], p, r)
    else [s[0]] + ReplaceAll(s[1..], p, r)
  }

  /** A prefix that does not contain the first character of the pattern is copied. */
  lemma {:induction false} ReplaceAllSkipsPrefix(a: string, t: string, p: string, r: string)
    requires p != [] && p[0] !in a
    ensures ReplaceAll(a + t, p, r) == a + ReplaceAll(t, p, r)
    decreases |a|
  {
    if a != [] {
      var s := a + t;
      assert s[0] == a[0] != p[0];
      if |s| < |p| {
        assert |t| < |p|;
      } else {
        assert s[..|p|][0] == a[0];
        assert s[1..] == a[1..] + t;
        ReplaceAllSkipsPrefix(a[1..], t, p, r);
        assert [a[0]] + a[1..] == a;
      }
    } else {
      assert a + t == t;
    }
  }

  /** A text in which the first character of the pattern never occurs is left unchanged. */
  lemma ReplaceAllAbsent(s: string, p: string, r: string)
    requires p != [] && p[0] !in s
    ensures ReplaceAll(s, p, r) == s
  {
    ReplaceAllSkipsPrefix(s, [], p, r);
    assert s + [] == s;
  }

  /** A text with no occurrence of the pattern at all is left unchanged. */
  lemma {:induction false} ReplaceAllNoOccurrence(s: string, p: string, r: string)
    requires p != []
    requires forall k: nat :: !OccursAt(s, p, k)
    ensures ReplaceAll(s, p, r) == s
    decreases |s|
  {
    if |s| >= |p| {
      assert !OccursAt(s, p, 0);
      var t := s[1..];
      forall k: nat ensures !OccursAt(t, p, k) {
        assert !OccursAt(s, p, k + 1);
        if k + |p| <= |t| {
          assert t[k..k + |p|] == s[k + 1..k + 1 + |p|];
        }
      }
      ReplaceAllNoOccurrence(t, p, r);
      assert [s[0]] + t == s;
    }
  }

  /** One placeholder surrounded by texts free of its first character: exactly that
      placeholder is replaced. */
  lemma ReplaceAllSplice(a: string, p: string, b: string, r: string)
    requires p != [] && p[0] !in a && p[0] !in b
    ensures ReplaceAll(a + p + b, p, r) == a + r + b
  {
    ReplaceAllSkipsPrefix(a, p + b, p, r);
    assert a + p + b == a + (p + b);
    var s := p + b;
    assert s[..|p|] == p;
    assert s[|p|..] == b;
    ReplaceAllAbsent(b, p, r);
  }
}
