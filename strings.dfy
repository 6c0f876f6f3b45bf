/** Character sequences: Ruby's `String#reverse` and where a pattern occurs. */
module Strings {
  const Quote: char := '"'
  const Backslash: char := '\\'
  const NewLine: char := '\n'

  /** Ruby's `String#reverse`. */
  function Reverse(s: string): (r: string)
    ensures |r| == |s|
  {
    seq(|s|, i requires 0 <= i < |s| => s[|s| - 1 - i])
  }

  /** Reversing a concatenation reverses the order of its parts. */
  lemma ReverseConcat(a: string, b: string)
    ensures Reverse(a + b) == Reverse(b) + Reverse(a)
  {
    var r, t := Reverse(a + b), Reverse(b) + Reverse(a);
    forall i | 0 <= i < |r|
      ensures r[i] == t[i]
    {
      if i < |b| {
        assert t[i] == Reverse(b)[i];
      } else {
        assert t[i] == Reverse(a)[i - |b|];
      }
    }
  }

  /** `pat` occurs in `s` starting at index `i`. */
  predicate OccursAt(s: string, pat: string, i: nat) {
    i + |pat| <= |s| && s[i..i + |pat|] == pat
  }

  /** The middle part of a concatenation occurs right after the first. */
  lemma OccursInMiddle(x: string, y: string, z: string)
    ensures OccursAt(x + y + z, y, |x|)
  {
    assert (x + y + z)[|x|..|x| + |y|] == y;
  }

  /** An occurrence of a concatenation is an occurrence of each part, one
      after the other. */
  lemma OccursAtConcat(s: string, i: nat, a: string, b: string)
    ensures OccursAt(s, a + b, i) <==> OccursAt(s, a, i) && OccursAt(s, b, i + |a|)
  {
    if OccursAt(s, a, i) && OccursAt(s, b, i + |a|) {
      assert s[i..i + |a + b|] == s[i..i + |a|] + s[i + |a|..i + |a| + |b|];
    }
    if OccursAt(s, a + b, i) {
      assert s[i..i + |a|] == (a + b)[..|a|];
      assert s[i + |a|..i + |a| + |b|] == (a + b)[|a|..];
    }
  }

  /** The characters of an occurrence. */
  lemma OccursAtChars(s: string, pat: string, i: nat)
    requires OccursAt(s, pat, i)
    ensures forall k :: 0 <= k < |pat| ==> s[i + k] == pat[k]
  {
    forall k | 0 <= k < |pat|
      ensures s[i + k] == pat[k]
    {
      assert s[i..i + |pat|][k] == s[i + k];
    }
  }
}
