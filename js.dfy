/**
 * The JavaScript values that cross the HTTP boundary (request bodies, table
 * cells), their truthiness, `String(v)`, and `parseInt` with no radix.
 */
module Js {
  import opened Wrappers
  import opened Strings

  /** A JSON value; numbers are restricted to integers. */
  datatype Json =
    | JNull
    | JBool(b: bool)
    | JNum(n: int)
    | JStr(s: string)
    | JArr(items: seq<Json>)
    | JObj(fields: map<string, Json>)

  /** Truthiness of a value that may be `undefined` (`None`). */
  predicate Truthy(v: Option<Json>) {
    match v
    case None => false
    case Some(JNull) => false
    case Some(JBool(b)) => b
    case Some(JNum(n)) => n != 0
    case Some(JStr(s)) => s != ""
    case Some(_) => true
  }

  /** Truthiness of an optional string (`undefined` and `""` are falsy). */
  predicate TruthyStr(v: Option<string>) { v.Some? && v.value != "" }

  /** `obj[key]`, `undefined` when the key is missing. */
  function Field(obj: map<string, Json>, key: string): Option<Json> {
    if key in obj then Some(obj[key]) else None
  }

  /** `a || b` on optional strings. */
  function OrStr(a: Option<string>, b: Option<string>): Option<string> {
    if TruthyStr(a) then a else b
  }

  /** `v || undefined` on an optional string: the empty string becomes `undefined`. */
  function OrUndefined(v: Option<string>): (r: Option<string>)
    ensures r.Some? <==> TruthyStr(v)
    ensures r.Some? ==> r == v
  {
    if TruthyStr(v) then v else None
  }

  /** `String(v)`; inside an array `null` renders as the empty string. */
  function ToJsString(v: Json): string
    decreases v
  {
    match v
    case JNull => "null"
    case JBool(b) => if b then "true" else "false"
    case JNum(n) => IntToString(n)
    case JStr(s) => s
    case JArr(items) =>
      if |items| == 0 then ""
      else Join(seq(|items|, i requires 0 <= i < |items| => if items[i] == JNull then "" else ToJsString(items[i])), ',')
    case JObj(_) => "[object Object]"
  }

  // ---------------------------------------------------------------- parseInt

  /** The white space and line terminators that `parseInt` skips. */
  predicate IsJsWhiteSpace(c: char) {
    var n := c as int;
    n == 0x09 || n == 0x0A || n == 0x0B || n == 0x0C || n == 0x0D || n == 0x20 || n == 0xA0
    || n == 0x1680 || (0x2000 <= n <= 0x200A) || n == 0x2028 || n == 0x2029 || n == 0x202F
    || n == 0x205F || n == 0x3000 || n == 0xFEFF
  }

  function TrimStart(s: string): (r: string)
    ensures |r| <= |s|
    ensures |r| > 0 ==> !IsJsWhiteSpace(r[0])
  {
    if |s| > 0 && IsJsWhiteSpace(s[0]) then TrimStart(s[1..]) else s
  }

  /** The number of leading characters of `s` that are digits in `radix`. */
  function LeadingDigits(s: string, radix: nat): (n: nat)
    ensures n <= |s|
    ensures forall i :: 0 <= i < n ==> IsRadixDigit(s[i], radix)
    ensures n < |s| ==> !IsRadixDigit(s[n], radix)
  {
    if |s| > 0 && IsRadixDigit(s[0], radix) then 1 + LeadingDigits(s[1..], radix) else 0
  }

  /**
   * `parseInt(s)` with no radix; `None` is NaN. Leading white space is skipped,
   * one sign is accepted, `0x`/`0X` selects base 16, and the longest run of
   * digits that follows is read; anything after it is ignored.
   */
  function ParseInt(s: string): Option<int> {
    var t := TrimStart(s);
    var neg := |t| > 0 && t[0] == '-';
    var u := if |t| > 0 && (t[0] == '-' || t[0] == '+') then t[1..] else t;
    var hex := |u| >= 2 && u[0] == '0' && (u[1] == 'x' || u[1] == 'X');
    var radix := if hex then 16 else 10;
    var v := if hex then u[2..] else u;
    var n := LeadingDigits(v, radix);
    if n == 0 then None
    else
      var m: int := DigitsValue(v[..n], radix);
      Some(if neg then -m else m)
  }

  /** `parseInt(x) || d`: NaN and zero are both falsy, so both give the default. */
  function ParsedOr(p: Option<int>, d: int): (r: int)
    ensures (p.None? || p.value == 0) ==> r == d
    ensures (p.Some? && p.value != 0) ==> r == p.value
  {
    if p.Some? && p.value != 0 then p.value else d
  }

  /** A string made only of digits of `radix` is read to its end. */
  lemma {:induction false} LeadingDigitsAll(s: string, radix: nat)
    requires forall i :: 0 <= i < |s| ==> IsRadixDigit(s[i], radix)
    ensures LeadingDigits(s, radix) == |s|
    decreases |s|
  {
    if |s| > 0 {
      LeadingDigitsAll(s[1..], radix);
    }
  }

  /** Parsing the decimal rendering of a number gives the number back. */
  lemma ParseIntOfDecimal(n: nat)
    ensures ParseInt(NatToDecimal(n)) == Some(n)
  {
    var s := NatToDecimal(n);
    assert forall i :: 0 <= i < |s| ==> IsRadixDigit(s[i], 10);
    LeadingDigitsAll(s, 10);
    assert TrimStart(s) == s;
    assert s[..|s|] == s;
    DecimalRoundTrip(n);
  }
}
