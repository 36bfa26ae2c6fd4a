/**
  The slice of JavaScript value semantics the CRM code relies on: dynamic
  values, truthiness, `||`, property reads, `String(v)`, `parseInt` and
  `parseFloat`, and the exceptions the code throws or lets through.
  Objects are maps from key to value; a key that is absent reads as
  `undefined`.
 */
module Js {
  import opened Wrappers

  datatype JsValue =
    | Undefined
    | Null
    | Bool(b: bool)
    | Num(x: real)      // a finite number
    | NaN
    | Str(s: string)
    | Obj(fields: map<string, JsValue>)
    | Arr(items: seq<JsValue>)

  /** A plain object: the records, payloads and form states of the application. */
  type Record = map<string, JsValue>

  datatype ErrorName = Error | TypeError | SyntaxError

  /** A thrown JavaScript exception: its constructor and its `message`. */
  datatype Exception = Exception(name: ErrorName, message: string)

  /** `new Error(m)`: the message is `String(m)`, or "" when `m` is undefined. */
  function NewError(m: JsValue): (e: Exception)
    ensures e.name == Error
    ensures m.Str? ==> e.message == m.s
    ensures m.Undefined? ==> e.message == ""
  {
    Exception(Error, if m.Undefined? then "" else ToString(m))
  }

  /** `err.message || fallback`: the message shown for a caught exception. */
  function MessageOr(e: Exception, fallback: string): (r: string)
    ensures e.message != "" ==> r == e.message
    ensures e.message == "" ==> r == fallback
  {
    if e.message != "" then e.message else fallback
  }

  /** What the engine throws when a property of `undefined`/`null` is read or a
      missing method is called. The engine's message text is not modelled. */
  const TypeErrorThrown := Exception(TypeError, "TypeError")

  /** What `JSON.parse` throws on malformed text. */
  const SyntaxErrorThrown := Exception(SyntaxError, "SyntaxError")

  predicate Nullish(v: JsValue) {
    v.Undefined? || v.Null?
  }

  /** ECMAScript ToBoolean. */
  predicate Truthy(v: JsValue) {
    match v
    case Undefined => false
    case Null => false
    case Bool(b) => b
    case Num(x) => x != 0.0
    case NaN => false
    case Str(s) => s != ""
    case Obj(_) => true
    case Arr(_) => true
  }

  /** `a || b` */
  function Or(a: JsValue, b: JsValue): (r: JsValue)
    ensures Truthy(a) ==> r == a
    ensures !Truthy(a) ==> r == b
  {
    if Truthy(a) then a else b
  }

  /** `o[k]` on a plain object. */
  function Get(o: Record, k: string): (r: JsValue)
    ensures k !in o ==> r == Undefined
    ensures k in o ==> r == o[k]
  {
    if k in o then o[k] else Undefined
  }

  /** The own properties a spread `{...v}` copies, and the properties a read
      `v.k` can find: an object's fields, nothing for `null`, `undefined` and
      the other primitives. */
  function OwnProps(v: JsValue): (r: Record)
    ensures v.Obj? ==> r == v.fields
    ensures !v.Obj? ==> r == map[]
  {
    if v.Obj? then v.fields else map[]
  }

  /** `v?.Id`: the `Id` property of an object, `undefined` for anything else. */
  function IdOf(v: JsValue): (r: JsValue)
    ensures v.Obj? ==> r == Get(v.fields, "Id")
    ensures !v.Obj? ==> r == Undefined
  {
    if v.Obj? then Get(v.fields, "Id") else Undefined
  }

  /** `v?.length` */
  function LengthOf(v: JsValue): (r: JsValue)
    ensures v.Arr? ==> r == Num(|v.items| as real)
    ensures v.Str? ==> r == Num(|v.s| as real)
    ensures v.Obj? ==> r == Get(v.fields, "length")
  {
    match v
    case Arr(items) => Num(|items| as real)
    case Str(s) => Num(|s| as real)
    case Obj(f) => Get(f, "length")
    case _ => Undefined
  }

  /** A string-valued field read through optional chaining: `Some` for a string,
      `None` for anything else. */
  function TextOf(v: JsValue): Option<string> {
    if v.Str? then Some(v.s) else None
  }

  // ---------------------------------------------------------------------------
  // Number formatting and parsing
  // ---------------------------------------------------------------------------

  predicate IsDigit(c: char) {
    '0' <= c <= '9'
  }

  function DigitChar(d: nat): (c: char)
    requires d < 10
    ensures IsDigit(c)
  {
    "0123456789"[d]
  }

  function DigitValue(c: char): (d: nat)
    requires IsDigit(c)
    ensures d < 10
  {
    (c as int - '0' as int) as nat
  }

  /** Decimal digits of a natural number, most significant first, no leading zero. */
  function NatToString(n: nat): (s: string)
    ensures |s| > 0
    ensures forall i :: 0 <= i < |s| ==> IsDigit(s[i])
    decreases n
  {
    if n < 10 then [DigitChar(n)] else NatToString(n / 10) + [DigitChar(n % 10)]
  }

  function IntToString(n: int): (s: string)
    ensures |s| > 0
  {
    if n < 0 then "-" + NatToString(-n) else NatToString(n)
  }

  /** Value of a string of decimal digits. */
  function DecimalValue(ds: string): nat
    requires forall i :: 0 <= i < |ds| ==> IsDigit(ds[i])
  {
    if ds == [] then 0 else DecimalValue(ds[..|ds| - 1]) * 10 + DigitValue(ds[|ds| - 1])
  }

  /** Up to `fuel` fractional digits of `f`, where 0 <= f < 1; stops once the rest is 0. */
  function FractionDigits(f: real, fuel: nat): string
    requires 0.0 <= f < 1.0
    decreases fuel
  {
    if f == 0.0 || fuel == 0 then ""
    else
      var t := f * 10.0;
      var d := t.Floor;
      assert 0 <= d < 10;
      [DigitChar(d)] + FractionDigits(t - d as real, fuel - 1)
  }

  /** Integers below this magnitude are the ones `String(x)` writes as plain
      digits; from 10^21 on it switches to exponent form. */
  const PlainIntegerBound: int := 1_000_000_000_000_000_000_000

  /** `String(x)` for a finite number: integers print as digits, other numbers
      print their integer part, a point and their fractional digits (at most 20).
      This is the plain notation ECMAScript uses for magnitudes in [10^-6, 10^21). */
  function NumberToString(x: real): string {
    if x == x.Floor as real then IntToString(x.Floor)
    else
      var m := if x < 0.0 then -x else x;
      var ip := m.Floor;
      (if x < 0.0 then "-" else "") + NatToString(ip) + "." + FractionDigits(m - ip as real, 20)
  }

  /** ECMAScript ToString, as used by template literals, `String(v)`, `parseInt` and `new Error`. */
  function ToString(v: JsValue): string {
    match v
    case Undefined => "undefined"
    case Null => "null"
    case Bool(b) => if b then "true" else "false"
    case Num(x) => NumberToString(x)
    case NaN => "NaN"
    case Str(s) => s
    case Obj(_) => "[object Object]"
    case Arr(items) => JoinWithCommas(seq(|items|, i requires 0 <= i < |items| =>
                         if Nullish(items[i]) then "" else ToString(items[i])))
  }

  /** The `join(",")` inside an array's ToString, kept apart from `Join` so
      that unfolding ToString stays cheap. */
  function JoinWithCommas(parts: seq<string>): string {
    if parts == [] then ""
    else if |parts| == 1 then parts[0]
    else JoinWithCommas(parts[..|parts| - 1]) + "," + parts[|parts| - 1]
  }

  /** `parts.join(sep)` over strings. */
  function Join(parts: seq<string>, sep: string): (r: string)
    ensures parts == [] ==> r == ""
    ensures |parts| == 1 ==> r == parts[0]
  {
    if parts == [] then ""
    else if |parts| == 1 then parts[0]
    else Join(parts[..|parts| - 1], sep) + sep + parts[|parts| - 1]
  }

  /** ECMAScript StrWhiteSpaceChar: the white space and line terminators that
      `trim`, `parseInt` and the regular-expression class `\s` all skip. */
  predicate IsSpace(c: char) {
    c == '\t' || c == '\n' || c == '\U{B}' || c == '\U{C}' || c == '\r' || c == ' '
    || c == '\U{A0}' || c == '\U{1680}' || ('\U{2000}' <= c <= '\U{200A}')
    || c == '\U{2028}' || c == '\U{2029}' || c == '\U{202F}' || c == '\U{205F}'
    || c == '\U{3000}' || c == '\U{FEFF}'
  }

  /** `s.trimStart()`; its properties are stated by `TrimStartSuffix`. */
  function TrimStart(s: string): string {
    if s != [] && IsSpace(s[0]) then TrimStart(s[1..]) else s
  }

  /** Trimming the start removes a prefix of white space, up to the first
      other character. */
  lemma {:induction false} TrimStartSuffix(s: string)
    ensures var r := TrimStart(s);
      && |r| <= |s| && r == s[|s| - |r|..]
      && (r == [] || !IsSpace(r[0]))
      && forall i :: 0 <= i < |s| - |r| ==> IsSpace(s[i])
  {
    if s != [] && IsSpace(s[0]) {
      var t := s[1..];
      var r := TrimStart(t);
      TrimStartSuffix(t);
      assert r == s[|s| - |r|..] by {
        assert t[|t| - |r|..] == s[|s| - |r|..];
      }
      forall i | 0 <= i < |s| - |r|
        ensures IsSpace(s[i])
      {
        if i > 0 {
          assert s[i] == t[i - 1];
        }
      }
    }
  }

  /** The longest prefix made of characters satisfying `p`. */
  function PrefixWhile(s: string, p: char -> bool): (r: string)
    ensures |r| <= |s| && r == s[..|r|]
    ensures forall i :: 0 <= i < |r| ==> p(r[i])
    ensures |r| < |s| ==> !p(s[|r|])
  {
    if s != [] && p(s[0]) then [s[0]] + PrefixWhile(s[1..], p) else []
  }

  predicate IsHexDigit(c: char) {
    IsDigit(c) || ('a' <= c <= 'f') || ('A' <= c <= 'F')
  }

  function HexDigitValue(c: char): (d: nat)
    requires IsHexDigit(c)
    ensures d < 16
  {
    if IsDigit(c) then DigitValue(c)
    else if 'a' <= c <= 'f' then (c as int - 'a' as int + 10) as nat
    else (c as int - 'A' as int + 10) as nat
  }

  function HexValue(ds: string): nat
    requires forall i :: 0 <= i < |ds| ==> IsHexDigit(ds[i])
  {
    if ds == [] then 0 else HexValue(ds[..|ds| - 1]) * 16 + HexDigitValue(ds[|ds| - 1])
  }

  /** The sign a numeric literal starts with, and the text after it. */
  function SplitSign(t: string): (r: (int, string))
    ensures r.0 == 1 || r.0 == -1
    ensures r.1 == t || (|t| > 0 && r.1 == t[1..])
  {
    if |t| > 0 && t[0] == '-' then (-1, t[1..])
    else if |t| > 0 && t[0] == '+' then (1, t[1..])
    else (1, t)
  }

  /** `parseInt(s)` with no radix, on a string: leading white space, a sign,
      an optional `0x`/`0X` prefix, then the longest run of digits.
      `None` is NaN (no digit at all). */
  function ParseIntString(s: string): Option<int> {
    var split := SplitSign(TrimStart(s));
    ParseUnsigned(split.0, split.1)
  }

  /** The digits after the sign of a `parseInt` argument, times the sign. */
  function ParseUnsigned(sign: int, body: string): Option<int> {
    if |body| >= 2 && body[0] == '0' && (body[1] == 'x' || body[1] == 'X') then
      var ds := PrefixWhile(body[2..], IsHexDigit);
      if ds == [] then None else Some(Signed(sign, HexValue(ds)))
    else
      var ds := PrefixWhile(body, IsDigit);
      if ds == [] then None else Some(Signed(sign, DecimalValue(ds)))
  }

  /** `parseInt(v)`: JavaScript converts the argument to a string first. */
  function ParseInt(v: JsValue): Option<int> {
    ParseIntString(ToString(v))
  }

  /** The number `parseInt(v)` evaluates to. */
  function ParseIntNumber(v: JsValue): (r: JsValue)
    ensures r.Num? || r.NaN?
  {
    match ParseInt(v)
    case Some(n) => Num(n as real)
    case None => NaN
  }

  /** A magnitude with the sign a literal started with (-1 or 1). */
  function Signed(sign: int, m: nat): int {
    if sign < 0 then -(m as int) else m
  }

  /** The value of the digits after a decimal point: "25" is 0.25. */
  function FractionValue(ds: string): (r: real)
    requires forall i :: 0 <= i < |ds| ==> IsDigit(ds[i])
    ensures 0.0 <= r <= 1.0
  {
    if ds == [] then 0.0 else (DigitValue(ds[0]) as real + FractionValue(ds[1..])) / 10.0
  }

  /** The value of a decimal literal from its sign, integer digits and
      fraction digits. */
  function LiteralValue(sign: int, ip: string, fp: string): real
    requires forall i :: 0 <= i < |ip| ==> IsDigit(ip[i])
    requires forall i :: 0 <= i < |fp| ==> IsDigit(fp[i])
  {
    var m := DecimalValue(ip) as real + FractionValue(fp);
    if sign < 0 then -m else m
  }

  /** `parseFloat(s)` on a string: leading white space, a sign, integer digits,
      an optional point with fraction digits; at least one digit. `None` is NaN. */
  function ParseFloatString(s: string): Option<real> {
    var (sign, body) := SplitSign(TrimStart(s));
    var ip := PrefixWhile(body, IsDigit);
    var rest := body[|ip|..];
    var fp := if |rest| > 0 && rest[0] == '.' then PrefixWhile(rest[1..], IsDigit) else "";
    if ip == [] && fp == [] then None
    else Some(LiteralValue(sign, ip, fp))
  }

  function ParseFloat(v: JsValue): Option<real> {
    ParseFloatString(ToString(v))
  }

  /** The number `parseFloat(v)` evaluates to. */
  function ParseFloatNumber(v: JsValue): (r: JsValue)
    ensures r.Num? || r.NaN?
  {
    match ParseFloat(v)
    case Some(x) => Num(x)
    case None => NaN
  }

  // ---------------------------------------------------------------------------
  // Lemmas
  // ---------------------------------------------------------------------------

  lemma {:induction false} DecimalValueOfNatToString(n: nat)
    ensures DecimalValue(NatToString(n)) == n
    decreases n
  {
    if n >= 10 {
      var s := NatToString(n);
      DecimalValueOfNatToString(n / 10);
      assert s[..|s| - 1] == NatToString(n / 10);
    }
  }

  /** `parseInt(String(n)) == n` for every integer: printing an integer and
      reading it back with `parseInt` is the identity. */
  lemma ParseIntOfIntToString(n: int)
    ensures ParseIntString(IntToString(n)) == Some(n)
  {
    if n < 0 {
      ParseIntOfNegative(n);
    } else {
      ParseIntOfNonNegative(n);
    }
  }

  lemma ParseIntOfNegative(n: int)
    requires n < 0
    ensures ParseIntString(IntToString(n)) == Some(n)
  {
    var m: nat := -n;
    var ds := NatToString(m);
    assert IntToString(n) == "-" + ds by { NegativeText(n); }
    assert ParseIntString("-" + ds) == Some(n) by { ParseIntOfNegativeText(m); }
  }

  lemma ParseIntOfNonNegative(n: int)
    requires n >= 0
    ensures ParseIntString(IntToString(n)) == Some(n)
  {
    var ds := NatToString(n);
    assert IntToString(n) == ds by { NonNegativeText(n); }
    assert ParseIntString(ds) == Some(n) by { ParseIntOfNatText(n); }
  }

  lemma NegativeText(n: int)
    requires n < 0
    ensures IntToString(n) == "-" + NatToString(-n)
  {
  }

  lemma NonNegativeText(n: int)
    requires n >= 0
    ensures IntToString(n) == NatToString(n)
  {
  }

  lemma ParseIntOfNegativeText(m: nat)
    ensures ParseIntString("-" + NatToString(m)) == Some(-(m as int))
  {
    NegativeTextSplit(m);
    ParseUnsignedOfDigits(-1, m);
  }

  lemma ParseIntOfNatText(m: nat)
    ensures ParseIntString(NatToString(m)) == Some(m as int)
  {
    NonNegativeTextSplit(m);
    ParseUnsignedOfDigits(1, m);
  }

  lemma NegativeTextSplit(m: nat)
    ensures SplitSign(TrimStart("-" + NatToString(m))) == (-1, NatToString(m))
  {
    var t := "-" + NatToString(m);
    assert TrimStart(t) == t;
    assert t[1..] == NatToString(m);
  }

  lemma NonNegativeTextSplit(m: nat)
    ensures SplitSign(TrimStart(NatToString(m))) == (1, NatToString(m))
  {
    var ds := NatToString(m);
    assert IsDigit(ds[0]);
    assert TrimStart(ds) == ds;
  }

  /** `parseInt` of the text of an integer, held as a string value, is that integer. */
  lemma ParseIntOfIntText(n: int)
    ensures ParseInt(Str(IntToString(n))) == Some(n)
  {
    assert ToString(Str(IntToString(n))) == IntToString(n);
    ParseIntOfIntToString(n);
  }

  lemma ParseUnsignedOfDigits(sign: int, m: nat)
    ensures ParseUnsigned(sign, NatToString(m)) == Some(Signed(sign, m))
  {
    var ds := NatToString(m);
    if |ds| >= 2 {
      assert IsDigit(ds[1]);
    }
    PrefixWhileAll(ds, IsDigit);
    DecimalValueOfNatToString(m);
  }

  lemma {:induction false} PrefixWhileAll(s: string, p: char -> bool)
    requires forall i :: 0 <= i < |s| ==> p(s[i])
    ensures PrefixWhile(s, p) == s
  {
    if s != [] {
      PrefixWhileAll(s[1..], p);
    }
  }

  /** `parseInt` of an integral number gives that integer back. */
  lemma ParseIntOfInteger(n: int)
    requires -PlainIntegerBound < n < PlainIntegerBound
    ensures ParseInt(Num(n as real)) == Some(n)
  {
    assert ToString(Num(n as real)) == IntToString(n) by {
      IntegerText(n);
    }
    ParseIntOfIntToString(n);
  }

  /** An integral number prints as its integer text, with no fraction. */
  lemma IntegerText(n: int)
    requires -PlainIntegerBound < n < PlainIntegerBound
    ensures NumberToString(n as real) == IntToString(n)
  {
    assert (n as real).Floor == n;
  }

  /** `parseInt` of any plain object reads "[object Object]" and gives NaN. */
  lemma ParseIntOfObject(f: Record)
    ensures ParseInt(Obj(f)) == None
  {
    var t := "[object Object]";
    assert ToString(Obj(f)) == t;
    assert TrimStart(t) == t;
    assert SplitSign(t) == (1, t);
    assert PrefixWhile(t, IsDigit) == [];
  }
}
