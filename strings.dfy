/** The few JavaScript string operations the date utilities rely on:
    `indexOf`, `replace` with a string pattern (first occurrence only),
    the `\d` character class and the `^\d+` prefix match. */
module Strings {

  /** `\d` in a JavaScript regular expression: an ASCII decimal digit. */
  predicate IsDigit(c: char) {
    '0' <= c <= '9'
  }

  /** `^\d*$` */
  predicate AllDigits(s: string) {
    forall i :: 0 <= i < |s| ==> IsDigit(s[i])
  }

  predicate StartsWith(s: string, p: string) {
    |p| <= |s| && s[..|p|] == p
  }

  /** `p` occurs in `s` at index `i`. */
  predicate OccursAt(s: string, p: string, i: int) {
    0 <= i && i + |p| <= |s| && s[i..i + |p|] == p
  }

  /** `s.indexOf(p)`: the first index at which `p` occurs in `s`, or -1. */
  function IndexOf(s: string, p: string): (r: int)
    ensures -1 <= r
    ensures r >= 0 ==> OccursAt(s, p, r)
    ensures r >= 0 ==> forall j :: 0 <= j < r ==> !OccursAt(s, p, j)
    ensures r < 0 ==> forall j :: !OccursAt(s, p, j)
  {
    if |s| < |p| then
      -1
    else if s[..|p|] == p then
      0
    else
      var k := IndexOf(s[1..], p);
      forall j | 1 <= j ensures OccursAt(s, p, j) <==> OccursAt(s[1..], p, j - 1) {
        if j + |p| <= |s| {
          assert s[1..][j - 1..j - 1 + |p|] == s[j..j + |p|];
        }
      }
      if k < 0 then -1 else k + 1
  }

  /** `s.replace(p, rep)` with a string pattern: only the first occurrence
      of `p` is replaced; without one, `s` comes back unchanged. */
  function ReplaceFirst(s: string, p: string, rep: string): (r: string)
  {
    var i := IndexOf(s, p);
    if i < 0 then s else s[..i] + rep + s[i + |p|..]
  }

  /** `s.replace(p, '')`. */
  function RemoveFirst(s: string, p: string): string {
    ReplaceFirst(s, p, "")
  }

  /** `replace(p, '')` cuts out the first occurrence of `p`. */
  lemma RemoveFirstCutsFirst(s: string, p: string, i: int)
    requires OccursAt(s, p, i)
    requires forall j :: 0 <= j < i ==> !OccursAt(s, p, j)
    ensures RemoveFirst(s, p) == s[..i] + s[i + |p|..]
  {
    assert IndexOf(s, p) == i;
  }

  /** Without an occurrence of `p`, `replace(p, '')` returns `s` unchanged. */
  lemma RemoveFirstWithout(s: string, p: string)
    requires forall i :: !OccursAt(s, p, i)
    ensures RemoveFirst(s, p) == s
  {
    assert !OccursAt(s, p, IndexOf(s, p));
  }

  /** A non-empty `p` that occurs in `s` is really removed: the result is shorter. */
  lemma RemoveFirstShrinks(s: string, p: string, i: int)
    requires p != [] && OccursAt(s, p, i)
    ensures |RemoveFirst(s, p)| == |s| - |p|
  {
    var k := IndexOf(s, p);
    assert k >= 0;
  }

  /** `s.match(/^\d+/)[0]` when the match exists (and "" otherwise): the
      longest run of digits at the start of `s`. */
  function LeadingDigits(s: string): (r: string)
    ensures AllDigits(r) && StartsWith(s, r)
    ensures |r| < |s| ==> !IsDigit(s[|r|])
  {
    if s == [] || !IsDigit(s[0]) then [] else [s[0]] + LeadingDigits(s[1..])
  }

  /** The digit run in front of a non-digit is exactly what `^\d+` picks out. */
  lemma {:induction false} LeadingDigitsOf(d: string, rest: string)
    requires AllDigits(d)
    requires rest == [] || !IsDigit(rest[0])
    ensures LeadingDigits(d + rest) == d
  {
    if d != [] {
      assert (d + rest)[1..] == d[1..] + rest;
      LeadingDigitsOf(d[1..], rest);
    }
  }
}
