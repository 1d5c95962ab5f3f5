/**
 * String operations the source takes from its language runtimes:
 * `endsWith`, `includes` and `toLowerCase` (JavaScript), `str.endswith`
 * and decimal formatting of integers (Python).
 */
module Text {

  /** `s.endsWith(suffix)`: `s` is some prefix followed by `suffix`; every string ends with the empty one. */
  predicate EndsWith(s: string, suffix: string): (b: bool)
    ensures b ==> |suffix| <= |s| && s == s[..|s| - |suffix|] + suffix
    ensures |suffix| == 0 ==> b
  {
    |suffix| <= |s| && s[|s| - |suffix|..] == suffix
  }

  /** `s.startsWith(prefix)`. */
  predicate StartsWith(s: string, prefix: string) {
    |prefix| <= |s| && s[..|prefix|] == prefix
  }

  /** `sub` occurs in `s` starting at index `i`. */
  predicate OccursAt(s: string, sub: string, i: int) {
    0 <= i && i + |sub| <= |s| && s[i..i + |sub|] == sub
  }

  /** `s.includes(sub)`: `sub` occurs somewhere in `s`, so it is no longer than `s`; the empty string occurs everywhere. */
  predicate Contains(s: string, sub: string): (b: bool)
    ensures b ==> |sub| <= |s|
    ensures |sub| == 0 ==> b
  {
    assert |sub| == 0 ==> OccursAt(s, sub, 0);
    exists i | 0 <= i <= |s| - |sub| :: OccursAt(s, sub, i)
  }

  /** `toLowerCase` on one character; only the ASCII letters A-Z are folded. */
  function LowerChar(c: char): char {
    if 'A' <= c <= 'Z' then (c as int + 32) as char else c
  }

  /** `s.toLowerCase()`, character by character: same length, no upper-case ASCII letter left. */
  function ToLower(s: string): (r: string)
    ensures |r| == |s|
    ensures forall i :: 0 <= i < |r| ==> !('A' <= r[i] <= 'Z')
    ensures forall i :: 0 <= i < |r| && !('A' <= s[i] <= 'Z') ==> r[i] == s[i]
  {
    seq(|s|, i requires 0 <= i < |s| => LowerChar(s[i]))
  }

  /** Lower-casing twice is lower-casing once. */
  lemma ToLowerIdempotent(s: string)
    ensures ToLower(ToLower(s)) == ToLower(s)
  {
  }

  /** A decimal digit as a character. */
  function DigitChar(d: nat): char
    requires d < 10
  {
    "0123456789"[d]
  }

  predicate IsDigit(c: char) {
    '0' <= c <= '9'
  }

  /** Python's `str(n)` (and f-string interpolation) for a non-negative integer. */
  function NatToString(n: nat): (r: string)
    ensures |r| > 0
    ensures forall i :: 0 <= i < |r| ==> IsDigit(r[i])
    ensures n < 10 <==> |r| == 1
  {
    if n < 10 then [DigitChar(n)] else NatToString(n / 10) + [DigitChar(n % 10)]
  }

  /** Decimal formatting is injective: different numbers print differently. */
  lemma {:induction false} NatToStringInjective(n: nat, m: nat)
    requires NatToString(n) == NatToString(m)
    ensures n == m
  {
    var s := NatToString(n);
    if n < 10 || m < 10 {
      assert DigitChar(n) == s[0] == DigitChar(m);
    } else {
      assert s[|s| - 1] == DigitChar(n % 10) == DigitChar(m % 10);
      assert NatToString(n / 10) == s[..|s| - 1] == NatToString(m / 10);
      NatToStringInjective(n / 10, m / 10);
    }
  }

  /**
   * When two strings each end in a marker character followed by a tail that
   * does not contain that marker, equal strings have equal tails.
   */
  lemma TailAfterMarker(x: string, d: string, y: string, e: string, marker: char)
    requires |x| > 0 && x[|x| - 1] == marker
    requires |y| > 0 && y[|y| - 1] == marker
    requires forall i :: 0 <= i < |d| ==> d[i] != marker
    requires forall i :: 0 <= i < |e| ==> e[i] != marker
    requires x + d == y + e
    ensures d == e
  {
    var t := x + d;
    assert t[|x| - 1] == marker && t[|y| - 1] == (y + e)[|y| - 1] == marker;
    // no marker follows the end of either prefix, so neither prefix is longer
    assert forall j :: |x| <= j < |t| ==> t[j] == d[j - |x|] != marker;
    assert forall j :: |y| <= j < |t| ==> t[j] == e[j - |y|] != marker;
    assert |x| == |y|;
    assert d == t[|x|..] == e;
  }
}
