/**
 * The string tests that the generator applies to its input: `str.startswith`,
 * the substring operator `in`, and how far a greedy character-class repetition
 * anchored at the start of the string gets (what `re.match` does with
 * `[...]{n,}` and `\d{n}`).
 */
module TextMatch {

  /** `s.startswith(prefix)`. */
  predicate StartsWith(s: string, prefix: string) {
    |prefix| <= |s| && s[..|prefix|] == prefix
  }

  /** `sub in s` for two strings: `sub` occurs somewhere in `s` as a contiguous block. */
  predicate Contains(s: string, sub: string)
    decreases |s|
  {
    StartsWith(s, sub) || (s != [] && Contains(s[1..], sub))
  }

  /** `sub` occurs in `s` starting at position `i`. */
  predicate OccursAt(s: string, sub: string, i: nat) {
    i + |sub| <= |s| && s[i..i + |sub|] == sub
  }

  /** Contains finds exactly the positions at which `sub` occurs. */
  lemma {:induction false} ContainsAt(s: string, sub: string)
    ensures Contains(s, sub) <==> exists i: nat :: OccursAt(s, sub, i)
    decreases |s|
  {
    if StartsWith(s, sub) {
      assert OccursAt(s, sub, 0);
    }
    if s != [] {
      ContainsAt(s[1..], sub);
      if Contains(s[1..], sub) {
        var i: nat :| OccursAt(s[1..], sub, i);
        assert s[i + 1..i + 1 + |sub|] == s[1..][i..i + |sub|];
        assert OccursAt(s, sub, i + 1);
      }
      if i: nat :| OccursAt(s, sub, i) {
        if i > 0 {
          assert s[1..][i - 1..i - 1 + |sub|] == s[i..i + |sub|];
          assert OccursAt(s[1..], sub, i - 1);
        } else {
          assert StartsWith(s, sub);
        }
      }
    } else {
      if i: nat :| OccursAt(s, sub, i) {
        assert StartsWith(s, sub);
      }
    }
  }

  /** With a one-character `sub`, `in` is membership of that character. */
  lemma ContainsChar(s: string, c: char)
    ensures Contains(s, [c]) <==> c in s
  {
    ContainsAt(s, [c]);
    if c in s {
      var i :| 0 <= i < |s| && s[i] == c;
      assert s[i..i + 1] == [c];
      assert OccursAt(s, [c], i);
    }
    if Contains(s, [c]) {
      var i: nat :| OccursAt(s, [c], i);
      assert s[i] == s[i..i + 1][0];
    }
  }

  /** An occurrence stays an occurrence when text is added on either side. */
  lemma ContainsExtended(s: string, sub: string, before: string, after: string)
    requires Contains(s, sub)
    ensures Contains(before + s + after, sub)
  {
    ContainsAt(s, sub);
    ContainsAt(before + s + after, sub);
    var i: nat :| OccursAt(s, sub, i);
    var j := |before| + i;
    assert (before + s + after)[j..j + |sub|] == s[i..i + |sub|];
    assert OccursAt(before + s + after, sub, j);
  }

  /** Every character of an occurrence is a character of the text. */
  lemma ContainedCharsOccur(s: string, sub: string, k: nat)
    requires Contains(s, sub) && k < |sub|
    ensures sub[k] in s
  {
  }

  /**
   * The length of the longest prefix of `s` all of whose characters satisfy
   * `p`: where a greedy repetition of the class `p` anchored at position 0
   * stops.
   */
  function LeadingRun(p: char -> bool, s: string): (n: nat)
    ensures n <= |s|
    ensures forall i :: 0 <= i < n ==> p(s[i])
    ensures n < |s| ==> !p(s[n])
    decreases |s|
  {
    if s == [] || !p(s[0]) then 0 else 1 + LeadingRun(p, s[1..])
  }

  /** A run of at least `n` is exactly "the first `n` characters are all in the class". */
  lemma RunAtLeast(p: char -> bool, s: string, n: nat)
    ensures LeadingRun(p, s) >= n <==> |s| >= n && forall i :: 0 <= i < n ==> p(s[i])
  {
  }
}
