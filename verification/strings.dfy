/** The JavaScript string primitives the bot relies on, over `seq<char>`.

    A `char` here is a Unicode scalar value. JavaScript's `length`, `slice`,
    `startsWith`, `includes` and `indexOf` count UTF-16 code units, which is the
    same count for every character of the Basic Multilingual Plane.
 */
module Strings {
  import opened Options

  /** `s.startsWith(p)`; every string starts with the empty string. */
  predicate StartsWith(s: string, p: string) {
    |p| <= |s| && s[..|p|] == p
  }

  /** `p` occurs in `s` starting at character `i`. */
  predicate OccursAt(s: string, p: string, i: nat) {
    i + |p| <= |s| && s[i..i + |p|] == p
  }

  /** `s.indexOf(p, from)`: the leftmost occurrence of `p` at or after `from`. */
  function IndexFrom(s: string, p: string, from: nat): (r: Option<nat>)
    ensures r.Some? ==> from <= r.value && OccursAt(s, p, r.value)
    ensures r.Some? ==> forall j: nat :: from <= j < r.value ==> !OccursAt(s, p, j)
    ensures r.None? ==> forall j: nat :: from <= j ==> !OccursAt(s, p, j)
    decreases |s| - from
  {
    if from + |p| > |s| then None
    else if s[from..from + |p|] == p then Some(from)
    else IndexFrom(s, p, from + 1)
  }

  /** `s.indexOf(p)`, with `None` for JavaScript's `-1`. */
  function IndexOf(s: string, p: string): (r: Option<nat>)
    ensures r.Some? ==> OccursAt(s, p, r.value) && forall j: nat :: j < r.value ==> !OccursAt(s, p, j)
    ensures r.None? <==> forall j: nat :: !OccursAt(s, p, j)
  {
    IndexFrom(s, p, 0)
  }

  /** `s.includes(p)`. */
  predicate Includes(s: string, p: string)
    ensures Includes(s, p) <==> exists i: nat :: OccursAt(s, p, i)
  {
    IndexOf(s, p).Some?
  }

  /** `s.slice(k)` for a non-negative start: past the end it gives the empty string. */
  function Slice(s: string, k: nat): (r: string)
    ensures k <= |s| ==> s == s[..k] + r
    ensures k >= |s| ==> r == ""
  {
    if k <= |s| then s[k..] else ""
  }

  /** `\d` in a JavaScript regular expression: the ASCII digits only. */
  predicate IsDigit(c: char) {
    '0' <= c <= '9'
  }

  predicate AllDigits(d: string) {
    forall k :: 0 <= k < |d| ==> IsDigit(d[k])
  }

  /** Exactly two ASCII digits, the width of every zero-padded timestamp field. */
  predicate TwoDigits(d: string) {
    |d| == 2 && AllDigits(d)
  }

  function DigitValue(c: char): nat
    requires IsDigit(c)
  {
    c as int - '0' as int
  }

  function DigitChar(n: nat): (c: char)
    requires n < 10
    ensures IsDigit(c) && DigitValue(c) == n
  {
    ('0' as int + n) as char
  }

  /** The decimal value of a digit string, as `parseInt(d, 10)` reads it. */
  function DigitsValue(d: string): nat
    requires AllDigits(d)
  {
    if |d| == 0 then 0
    else DigitsValue(d[..|d| - 1]) * 10 + DigitValue(d[|d| - 1])
  }

  /** `n.toString()` for a non-negative integer: shortest decimal rendering. */
  function NatToDecimal(n: nat): (r: string)
    ensures 1 <= |r| && AllDigits(r) && DigitsValue(r) == n
    ensures n < 10 <==> |r| == 1
    ensures 10 <= n < 100 <==> |r| == 2
  {
    if n < 10 then [DigitChar(n)]
    else
      var front := NatToDecimal(n / 10);
      var r := front + [DigitChar(n % 10)];
      assert r[..|r| - 1] == front;
      r
  }

  /** A leading zero does not change the value of a digit string. */
  lemma {:induction false} LeadingZero(d: string)
    requires AllDigits(d)
    ensures AllDigits("0" + d) && DigitsValue("0" + d) == DigitsValue(d)
  {
    if |d| > 0 {
      var front := d[..|d| - 1];
      assert ("0" + d)[..|"0" + d| - 1] == "0" + front;
      LeadingZero(front);
    }
  }

  /** `d.padStart(2, '0')`. */
  function PadStart2(d: string): (r: string)
    ensures |d| <= 2 ==> |r| == 2
    ensures |d| >= 2 ==> r == d
    ensures |d| <= 2 ==> r[2 - |d|..] == d && forall k :: 0 <= k < 2 - |d| ==> r[k] == '0'
  {
    if |d| >= 2 then d
    else if |d| == 1 then "0" + d
    else "00"
  }

  /** Padding a one- or two-digit string keeps its value and yields two digits. */
  lemma PadStart2Value(d: string)
    requires 1 <= |d| <= 2 && AllDigits(d)
    ensures TwoDigits(PadStart2(d)) && DigitsValue(PadStart2(d)) == DigitsValue(d)
  {
    if |d| == 1 {
      LeadingZero(d);
    }
  }

  /** The strings of `ss` joined with nothing between them. */
  function Concat(ss: seq<string>): string {
    if |ss| == 0 then "" else ss[0] + Concat(ss[1..])
  }

  /** A string whose first character never appears in `s` is not included in `s`. */
  lemma NotIncluded(s: string, p: string)
    requires |p| > 0 && forall k :: 0 <= k < |s| ==> s[k] != p[0]
    ensures !Includes(s, p)
  {
  }
}
