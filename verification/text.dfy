/**
 * Character classes and scanning primitives shared by the two fixed patterns,
 * the header recovery and the button rule.
 *
 * The classes are ASCII: the source's `\d` and `\s` are Unicode-aware in
 * Python, which this model does not reproduce.
 */
module Text {

  /** `\d`, restricted to ASCII digits. */
  predicate IsDigit(c: char) { '0' <= c <= '9' }

  /** The class `[A-Z0-9]` of the invoice pattern. */
  predicate IsInvoiceChar(c: char) { 'A' <= c <= 'Z' || IsDigit(c) }

  /** `\s`, restricted to ASCII whitespace: space, tab, newline, carriage return, vertical tab, form feed. */
  predicate IsSpace(c: char) {
    c == ' ' || c == '\t' || c == '\n' || c == '\r' || c == '\U{B}' || c == '\U{C}'
  }

  /** Every character of `s` is in the class `p`. */
  predicate All(s: string, p: char -> bool) {
    forall k :: 0 <= k < |s| ==> p(s[k])
  }

  /**
   * The end of the maximal run of `p`-characters that starts at `j`: what a
   * greedy `p*` consumes from position `j`.
   */
  function RunEnd(s: string, j: nat, p: char -> bool): (e: nat)
    requires j <= |s|
    ensures j <= e <= |s|
    ensures All(s[j..e], p)
    ensures e == |s| || !p(s[e])
    decreases |s| - j
  {
    if j < |s| && p(s[j]) then RunEnd(s, j + 1, p) else j
  }

  /** A run of `p` that is delimited on the right is the one `RunEnd` finds. */
  lemma {:induction false} RunEndExact(s: string, j: nat, e: nat, p: char -> bool)
    requires j <= e <= |s|
    requires All(s[j..e], p)
    requires e == |s| || !p(s[e])
    ensures RunEnd(s, j, p) == e
    decreases e - j
  {
    if j < e {
      assert p(s[j..e][0]);
      assert s[j + 1..e] == s[j..e][1..];
      RunEndExact(s, j + 1, e, p);
    }
  }

  /** `sub` occurs in `s` starting at index `i`. */
  predicate OccursAt(s: string, sub: string, i: nat) {
    i + |sub| <= |s| && s[i..i + |sub|] == sub
  }

  /** Python's `sub in s` on strings. */
  predicate Contains(s: string, sub: string) {
    exists i: nat | i <= |s| :: OccursAt(s, sub, i)
  }

  /** A string never contains a pattern whose first character it lacks. */
  lemma MissingFirstCharNotContained(s: string, sub: string)
    requires sub != []
    requires sub[0] !in s
    ensures !Contains(s, sub)
  {
    forall i: nat | i <= |s|
      ensures !OccursAt(s, sub, i)
    {
      if i + |sub| <= |s| {
        assert s[i..i + |sub|][0] == s[i];
      }
    }
  }
}
