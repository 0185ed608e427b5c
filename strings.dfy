/**
 * The string operations the backend relies on, with JavaScript's semantics:
 * `split` on one character, `replace` of the first occurrence of a literal,
 * `includes`, `toLowerCase`, and the decimal rendering of numbers.
 */
module Strings {
  import opened Wrappers

  // ---------------------------------------------------------------- digits

  predicate IsDigit(c: char) { '0' <= c <= '9' }

  /** The base-36 value of an ASCII letter or digit; 36 for any other character. */
  function CharValue(c: char): nat {
    if '0' <= c <= '9' then c as int - 48
    else if 'a' <= c <= 'z' then c as int - 87
    else if 'A' <= c <= 'Z' then c as int - 55
    else 36
  }

  predicate IsRadixDigit(c: char, radix: nat) { CharValue(c) < radix }

  function DigitChar(d: nat): (c: char)
    requires d < 10
    ensures IsDigit(c) && CharValue(c) == d
  {
    (48 + d) as char
  }

  predicate AllDigits(s: string) { forall i :: 0 <= i < |s| ==> IsDigit(s[i]) }

  /** The value of a digit string read most significant digit first. */
  function DigitsValue(s: string, radix: nat): nat {
    if |s| == 0 then 0 else DigitsValue(s[..|s| - 1], radix) * radix + CharValue(s[|s| - 1])
  }

  /** `String(n)` for a non-negative integer: canonical decimal, no leading zero. */
  function NatToDecimal(n: nat): (s: string)
    ensures |s| >= 1 && AllDigits(s)
    ensures s[0] == '0' <==> n == 0
    ensures n == 0 ==> s == "0"
    decreases n
  {
    if n < 10 then [DigitChar(n)] else NatToDecimal(n / 10) + [DigitChar(n % 10)]
  }

  /** `String(i)` for an integer. */
  function IntToString(i: int): string {
    if i < 0 then "-" + NatToDecimal(-i) else NatToDecimal(i)
  }

  lemma {:induction false} DecimalRoundTrip(n: nat)
    ensures DigitsValue(NatToDecimal(n), 10) == n
    decreases n
  {
    if n >= 10 {
      var a := NatToDecimal(n / 10);
      var s := NatToDecimal(n);
      assert s == a + [DigitChar(n % 10)];
      assert s[..|s| - 1] == a;
      DecimalRoundTrip(n / 10);
    }
  }

  /** Distinct numbers have distinct decimal renderings. */
  lemma DecimalInjective(a: nat, b: nat)
    requires NatToDecimal(a) == NatToDecimal(b)
    ensures a == b
  {
    DecimalRoundTrip(a);
    DecimalRoundTrip(b);
  }

  // ---------------------------------------------------------------- search

  predicate OccursAt(s: string, pat: string, k: nat) {
    k + |pat| <= |s| && s[k..k + |pat|] == pat
  }

  function IndexOfFrom(s: string, pat: string, from: nat): (r: Option<nat>)
    ensures r.Some? ==> from <= r.value && OccursAt(s, pat, r.value)
    ensures r.Some? ==> forall j :: from <= j < r.value ==> !OccursAt(s, pat, j)
    ensures r.None? ==> forall j :: from <= j ==> !OccursAt(s, pat, j)
    decreases |s| - from
  {
    if from + |pat| > |s| then None
    else if OccursAt(s, pat, from) then Some(from)
    else IndexOfFrom(s, pat, from + 1)
  }

  /** `s.indexOf(pat)`: the first position at which `pat` occurs. */
  function IndexOf(s: string, pat: string): (r: Option<nat>)
    ensures r.Some? ==> OccursAt(s, pat, r.value) && forall j :: 0 <= j < r.value ==> !OccursAt(s, pat, j)
    ensures r.None? ==> forall j :: !OccursAt(s, pat, j)
  {
    IndexOfFrom(s, pat, 0)
  }

  /** `s.includes(sub)`. */
  predicate Contains(s: string, sub: string) { IndexOf(s, sub).Some? }

  /** `sub` occurs in `s` once both are lower-cased. */
  predicate ContainsInsensitive(s: string, sub: string) { Contains(ToLower(s), ToLower(sub)) }

  lemma ContainsIff(s: string, sub: string)
    ensures Contains(s, sub) <==> exists k: nat :: OccursAt(s, sub, k)
  {
    if !Contains(s, sub) {
      assert forall k: nat :: !OccursAt(s, sub, k);
    }
  }

  /** `s.replace(pat, rep)` with a literal pattern: only the first occurrence is replaced. */
  function ReplaceFirst(s: string, pat: string, rep: string): (r: string)
    ensures IndexOf(s, pat).None? ==> r == s
    ensures IndexOf(s, pat).Some? ==>
      var k := IndexOf(s, pat).value; r == s[..k] + rep + s[k + |pat|..]
  {
    match IndexOf(s, pat)
    case None => s
    case Some(k) => s[..k] + rep + s[k + |pat|..]
  }

  /** Removing a prefix that is the pattern gives back what follows it. */
  lemma ReplaceLeadingPattern(pat: string, t: string)
    ensures ReplaceFirst(pat + t, pat, "") == t
  {
    assert (pat + t)[0..|pat|] == pat;
    assert OccursAt(pat + t, pat, 0);
    assert (pat + t)[|pat|..] == t;
  }

  // ---------------------------------------------------------------- split

  function IndexOfCharFrom(s: string, c: char, from: nat): (r: Option<nat>)
    ensures r.Some? ==> from <= r.value < |s| && s[r.value] == c
    ensures r.Some? ==> forall j :: from <= j < r.value ==> s[j] != c
    ensures r.None? ==> forall j :: from <= j < |s| ==> s[j] != c
    decreases |s| - from
  {
    if from >= |s| then None
    else if s[from] == c then Some(from)
    else IndexOfCharFrom(s, c, from + 1)
  }

  /** The inverse of `Split`: the pieces with the separator between them. */
  function Join(parts: seq<string>, c: char): string
    requires |parts| >= 1
  {
    if |parts| == 1 then parts[0] else parts[0] + [c] + Join(parts[1..], c)
  }

  /** `parts.join(sep)`: the empty list joins to `""`. */
  function JoinWith(parts: seq<string>, sep: string): (r: string)
    ensures |parts| == 1 ==> r == parts[0]
    ensures forall i :: 0 <= i < |parts| ==> |parts[i]| <= |r|
  {
    if |parts| == 0 then ""
    else if |parts| == 1 then parts[0]
    else parts[0] + sep + JoinWith(parts[1..], sep)
  }

  /**
   * `s.split(c)` for a one-character separator: always at least one piece, no
   * piece holds the separator, and joining the pieces gives back `s`. So `""`
   * splits into `[""]` and a leading or trailing separator gives an empty piece.
   */
  function Split(s: string, c: char): (parts: seq<string>)
    ensures |parts| >= 1
    ensures forall i :: 0 <= i < |parts| ==> c !in parts[i]
    ensures Join(parts, c) == s
    decreases |s|
  {
    match IndexOfCharFrom(s, c, 0)
    case None => [s]
    case Some(k) =>
      var rest := Split(s[k + 1..], c);
      assert s == s[..k] + [c] + s[k + 1..];
      assert ([s[..k]] + rest)[1..] == rest;
      [s[..k]] + rest
  }

  /** A piece free of the separator splits to itself. */
  lemma SplitNoSeparator(a: string, c: char)
    requires c !in a
    ensures Split(a, c) == [a]
  {
    assert forall j :: 0 <= j < |a| ==> a[j] != c;
  }

  /** Splitting `a + c + rest` yields `a` followed by the pieces of `rest`. */
  lemma SplitAfterSeparator(a: string, c: char, rest: string)
    requires c !in a
    ensures Split(a + [c] + rest, c) == [a] + Split(rest, c)
  {
    var s := a + [c] + rest;
    assert s[|a|] == c;
    assert forall j :: 0 <= j < |a| ==> s[j] == a[j] && a[j] != c;
    assert IndexOfCharFrom(s, c, 0) == Some(|a|);
    assert s[..|a|] == a;
    assert s[|a| + 1..] == rest;
  }

  /** The part of `s` before the first `c` (all of `s` when there is none): `s.split(c)[0]`. */
  function BeforeFirst(s: string, c: char): (r: string)
    ensures c !in r
    ensures r == s || (|r| < |s| && s[|r|] == c && r == s[..|r|])
  {
    var r := Split(s, c)[0];
    assert |Split(s, c)| == 1 ==> r == s;
    assert |Split(s, c)| > 1 ==> s == r + [c] + Join(Split(s, c)[1..], c);
    r
  }

  // ---------------------------------------------------------------- case

  /** `toLowerCase` on the ASCII and Latin-1 letters (the Catalan alphabet included). */
  function LowerChar(c: char): char {
    if 'A' <= c <= 'Z' || (0xC0 <= c as int <= 0xDE && c as int != 0xD7) then ((c as int) + 32) as char else c
  }

  function ToLower(s: string): (r: string)
    ensures |r| == |s|
    ensures forall i :: 0 <= i < |s| ==> r[i] == LowerChar(s[i])
  {
    seq(|s|, i requires 0 <= i < |s| => LowerChar(s[i]))
  }

  /** Lower-casing twice is lower-casing once. */
  lemma ToLowerIdempotent(s: string)
    ensures ToLower(ToLower(s)) == ToLower(s)
  {
    forall i | 0 <= i < |s| ensures ToLower(ToLower(s))[i] == ToLower(s)[i] {
      var c := s[i];
      assert ToLower(ToLower(s))[i] == LowerChar(LowerChar(c));
    }
  }
}
