/** The JavaScript runtime values and primitive operations the modelled code
    relies on: a value domain with a NaN tag on numbers, numeric coercion
    (`+v`, `Number(s)`), `parseInt(s, 10)`, decimal `toString` of integers and
    the abstract relational comparison behind `<` and `>`.

    Numbers are modelled as integers plus NaN; fractional numbers, infinities
    and -0 are outside the model. */
module Js {
  import opened Wrappers

  datatype JsNumber = NaN | Num(i: int)

  /** A JavaScript value. `Object` stands for any non-primitive value (plain
      object, array, function, class instance); its contents are opaque. */
  datatype JsValue =
    | Undefined
    | Null
    | Bool(b: bool)
    | Number(x: JsNumber)
    | Str(s: string)
    | Object(id: nat)

  /** A plain object read as data: its own properties by name. */
  type JsObject = map<string, JsValue>

  /** `o[name]`: `undefined` when the property is missing. */
  function Property(o: JsObject, name: string): JsValue {
    if name in o then o[name] else Undefined
  }

  /** `value !== Object(value)`: everything except objects is primitive. */
  predicate IsPrimitive(v: JsValue) {
    !v.Object?
  }

  /** `typeof v === 'number' && isNaN(v)` */
  predicate IsNumericNaN(v: JsValue) {
    v.Number? && v.x.NaN?
  }

  // ---------------------------------------------------------------------
  // Characters and decimal digits

  /** The characters `String.prototype.trim` and `parseInt` skip: the
      ECMAScript WhiteSpace and LineTerminator code points. */
  predicate IsWhiteSpace(c: char) {
    || c == '\t' || c == '\n' || c == '\U{000B}' || c == '\U{000C}' || c == '\r'
    || c == ' ' || c == '\U{00A0}' || c == '\U{1680}'
    || ('\U{2000}' <= c <= '\U{200A}')
    || c == '\U{2028}' || c == '\U{2029}' || c == '\U{202F}' || c == '\U{205F}'
    || c == '\U{3000}' || c == '\U{FEFF}'
  }

  predicate IsDigit(c: char) {
    '0' <= c <= '9'
  }

  predicate AllDigits(s: string) {
    forall k :: 0 <= k < |s| ==> IsDigit(s[k])
  }

  function DigitValue(c: char): (d: nat)
    requires IsDigit(c)
    ensures d < 10
  {
    (c as int) - ('0' as int)
  }

  function DigitChar(d: nat): (c: char)
    requires d < 10
    ensures IsDigit(c) && DigitValue(c) == d
  {
    (('0' as int) + d) as char
  }

  /** The value of a string of decimal digits, most significant first. */
  function DigitsValue(s: string): nat
    requires AllDigits(s)
  {
    if |s| == 0 then 0 else DigitsValue(s[..|s| - 1]) * 10 + DigitValue(s[|s| - 1])
  }

  /** Decimal rendering of a natural number, without leading zeros. */
  function NatToString(n: nat): (s: string)
    ensures |s| > 0 && AllDigits(s)
  {
    if n < 10 then [DigitChar(n)] else NatToString(n / 10) + [DigitChar(n % 10)]
  }

  /** `Number.prototype.toString()` on an integer. */
  function IntToString(i: int): string {
    if i < 0 then "-" + NatToString(-i) else NatToString(i)
  }

  lemma {:induction false} NatToStringValue(n: nat)
    ensures DigitsValue(NatToString(n)) == n
  {
    var s := NatToString(n);
    if n >= 10 {
      NatToStringValue(n / 10);
      assert s[..|s| - 1] == NatToString(n / 10);
    }
  }

  // ---------------------------------------------------------------------
  // parseInt(s, 10)

  /** `s` without its leading white space. */
  function TrimStart(s: string): (r: string)
    ensures |r| <= |s| && r == s[|s| - |r|..]
    ensures r == [] || !IsWhiteSpace(r[0])
    ensures forall k :: 0 <= k < |s| - |r| ==> IsWhiteSpace(s[k])
  {
    if |s| > 0 && IsWhiteSpace(s[0]) then TrimStart(s[1..]) else s
  }

  /** `s` without its trailing white space. */
  function TrimEnd(s: string): (r: string)
    ensures |r| <= |s| && r == s[..|r|]
    ensures r == [] || !IsWhiteSpace(r[|r| - 1])
    ensures forall k :: |r| <= k < |s| ==> IsWhiteSpace(s[k])
  {
    if |s| > 0 && IsWhiteSpace(s[|s| - 1]) then TrimEnd(s[..|s| - 1]) else s
  }

  /** The length of the longest prefix of `s` made of decimal digits. */
  function DigitPrefix(s: string): (n: nat)
    ensures n <= |s| && AllDigits(s[..n])
    ensures n < |s| ==> !IsDigit(s[n])
  {
    if |s| > 0 && IsDigit(s[0]) then
      var m := DigitPrefix(s[1..]);
      assert s[..m + 1] == [s[0]] + s[1..][..m];
      m + 1
    else 0
  }

  /** The sign of a parse: a leading '-' or '+' is consumed. */
  function SignOf(t: string): (r: (bool, string))
    ensures |r.1| <= |t|
  {
    if |t| > 0 && t[0] == '-' then (true, t[1..])
    else if |t| > 0 && t[0] == '+' then (false, t[1..])
    else (false, t)
  }

  /** `parseInt(s, 10)`: skip leading white space, take an optional sign and
      the longest run of decimal digits; `None` is the NaN that comes back
      when there is no digit. Anything after the digits is ignored. */
  function ParseInt(s: string): Option<int> {
    var (negative, u) := SignOf(TrimStart(s));
    var n := DigitPrefix(u);
    if n == 0 then None
    else
      var v: int := DigitsValue(u[..n]);
      Some(if negative then -v else v)
  }

  lemma DigitPrefixOfDigits(d: string, rest: string)
    requires AllDigits(d)
    requires rest == [] || !IsDigit(rest[0])
    ensures DigitPrefix(d + rest) == |d|
    decreases |d|
  {
    if |d| > 0 {
      assert (d + rest)[1..] == d[1..] + rest;
      DigitPrefixOfDigits(d[1..], rest);
    }
  }

  /** parseInt reads a leading run of digits and ignores what follows it. */
  lemma {:induction false} ParseIntDigitsThenRest(d: string, rest: string)
    requires |d| > 0 && AllDigits(d)
    requires rest == [] || !IsDigit(rest[0])
    ensures ParseInt(d + rest) == Some(DigitsValue(d))
    ensures ParseInt("-" + d + rest) == Some(-(DigitsValue(d) as int))
  {
    var s := d + rest;
    assert s[0] == d[0];
    DigitIsNotWhiteSpace(s[0]);
    assert TrimStart(s) == s;
    assert SignOf(s) == (false, s);
    DigitPrefixOfDigits(d, rest);
    assert s[..|d|] == d;
    var m := "-" + d + rest;
    assert m[0] == '-' && m[1..] == s;
    assert TrimStart(m) == m;
    assert SignOf(m) == (true, s);
  }

  lemma DigitIsNotWhiteSpace(c: char)
    requires IsDigit(c)
    ensures !IsWhiteSpace(c)
  {
  }

  /** Round trip: parseInt reads back what `toString` writes. */
  lemma ParseIntToString(i: int)
    ensures ParseInt(IntToString(i)) == Some(i)
  {
    var n: nat := if i < 0 then -i else i;
    NatToStringValue(n);
    ParseIntDigitsThenRest(NatToString(n), "");
    assert NatToString(n) + "" == NatToString(n);
    assert "-" + NatToString(n) + "" == IntToString(i) || i >= 0;
  }

  // ---------------------------------------------------------------------
  // Numeric coercion: `+v`, `Number(v)`

  /** `Number(s)` for strings: after trimming white space at both ends, the
      empty string is 0 and an optionally signed run of decimal digits is its
      value; everything else is NaN (fractions, exponents, hexadecimal and
      "Infinity" are outside the integer model and also give NaN here). */
  function StringToNumber(s: string): JsNumber {
    var t := TrimEnd(TrimStart(s));
    if t == [] then Num(0)
    else
      var (negative, u) := SignOf(t);
      if |u| > 0 && AllDigits(u) then
        Num(if negative then -(DigitsValue(u) as int) else DigitsValue(u))
      else NaN
  }

  /** A string whose first character is neither white space, a sign nor a
      digit (an identifier such as an enum member name) is NaN. */
  lemma StringToNumberOfWord(s: string)
    requires |s| > 0 && !IsWhiteSpace(s[0]) && !IsDigit(s[0]) && s[0] != '-' && s[0] != '+'
    ensures StringToNumber(s).NaN?
  {
    assert TrimStart(s) == s;
    var t := TrimEnd(s);
    assert |t| > 0 && t[0] == s[0];
    assert SignOf(t) == (false, t);
  }

  /** ToPrimitive with the default hint; a plain object becomes
      "[object Object]". */
  function ToPrimitive(v: JsValue): (p: JsValue)
    ensures IsPrimitive(p)
    ensures IsPrimitive(v) ==> p == v
  {
    if v.Object? then Str("[object Object]") else v
  }

  /** ToNumber, the unary `+`. */
  function ToNumber(v: JsValue): JsNumber {
    match ToPrimitive(v)
    case Undefined => NaN
    case Null => Num(0)
    case Bool(b) => Num(if b then 1 else 0)
    case Number(x) => x
    case Str(s) => StringToNumber(s)
  }

  // ---------------------------------------------------------------------
  // Abstract relational comparison (`a < b`)

  /** String comparison by character code, as `<` on two strings. */
  function StrLess(a: string, b: string): bool {
    if |a| == 0 then |b| > 0
    else if |b| == 0 then false
    else if a[0] != b[0] then a[0] < b[0]
    else StrLess(a[1..], b[1..])
  }

  /** `a < b`: two strings compare by character code, everything else
      numerically, and a comparison involving NaN is false. */
  function JsLess(a: JsValue, b: JsValue): bool {
    var pa := ToPrimitive(a);
    var pb := ToPrimitive(b);
    if pa.Str? && pb.Str? then StrLess(pa.s, pb.s)
    else
      match (ToNumber(pa), ToNumber(pb))
      case (Num(x), Num(y)) => x < y
      case _ => false
  }

  lemma {:induction false} StrLessIrreflexive(a: string)
    ensures !StrLess(a, a)
  {
    if |a| > 0 {
      StrLessIrreflexive(a[1..]);
    }
  }

  lemma {:induction false} StrLessAsymmetric(a: string, b: string)
    ensures !(StrLess(a, b) && StrLess(b, a))
  {
    if |a| > 0 && |b| > 0 && a[0] == b[0] {
      StrLessAsymmetric(a[1..], b[1..]);
    }
  }

  /** No value is less than itself: `x < x` is false for every value. */
  lemma JsLessIrreflexive(a: JsValue)
    ensures !JsLess(a, a)
  {
    var p := ToPrimitive(a);
    if p.Str? {
      StrLessIrreflexive(p.s);
    }
  }

  /** `a < b` and `b < a` never hold together. */
  lemma JsLessAsymmetric(a: JsValue, b: JsValue)
    ensures !(JsLess(a, b) && JsLess(b, a))
  {
    var pa, pb := ToPrimitive(a), ToPrimitive(b);
    if pa.Str? && pb.Str? {
      StrLessAsymmetric(pa.s, pb.s);
    }
  }
}
