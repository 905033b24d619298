/**
 * The JavaScript values a request field can hold once a JSON body or a route
 * parameter has been decoded, with the host operations the validators apply
 * to them: truthiness (`!x`), `typeof`, `Array.isArray`, the `length`
 * property and the string conversion that `RegExp.prototype.test` performs.
 * Numbers are the integral ones, converted to strings as Number::toString
 * does for integers (ECMA-262, section 6.1.6.1.20): plain digits below 10^21,
 * exponent form from 10^21 on. Fractions, infinities, -0 and the rounding of
 * large integers to doubles are left out.
 */
module JsValues {
  import opened Wrappers

  datatype JsValue =
    | Undefined
    | Null
    | Bool(b: bool)
    | Num(n: int)
    | NaN
    | Str(s: string)
    | Arr(items: seq<JsValue>)
      /** A plain object; `length` is the number its `length` key holds, if it has one. */
    | Obj(length: Option<int>)

  /** JavaScript's ToBoolean: `!v` is `!Truthy(v)`. */
  predicate Truthy(v: JsValue) {
    match v
    case Undefined => false
    case Null => false
    case Bool(b) => b
    case Num(n) => n != 0
    case NaN => false
    case Str(s) => s != ""
    case Arr(_) => true
    case Obj(_) => true
  }

  /** The six falsy values: everything else is truthy. */
  lemma FalsyValues(v: JsValue)
    ensures !Truthy(v) <==> v in {Undefined, Null, Bool(false), Num(0), NaN, Str("")}
  {
  }

  /** The `typeof` operator: one of five names, and "object" for null, arrays and objects alike. */
  function TypeOf(v: JsValue): (r: string)
    ensures r in {"undefined", "object", "boolean", "number", "string"}
    ensures r == "object" <==> v.Null? || v.Arr? || v.Obj?
  {
    match v
    case Undefined => "undefined"
    case Null => "object"
    case Bool(_) => "boolean"
    case Num(_) => "number"
    case NaN => "number"
    case Str(_) => "string"
    case Arr(_) => "object"
    case Obj(_) => "object"
  }

  /** The `length` property; `None` is `undefined`. */
  function Length(v: JsValue): (r: Option<int>)
    ensures r.Some? <==> v.Str? || v.Arr? || (v.Obj? && v.length.Some?)
    ensures v.Str? ==> r == Some(|v.s|)
    ensures v.Arr? ==> r == Some(|v.items|)
  {
    match v
    case Str(s) => Some(|s|)
    case Arr(items) => Some(|items|)
    case Obj(length) => length
    case _ => None
  }

  /** `v.length < k`: a missing length compares as `undefined < k`, which is false. */
  predicate LengthBelow(v: JsValue, k: nat) {
    Length(v).Some? && Length(v).value < k
  }

  predicate IsAsciiDigit(c: char) {
    '0' <= c <= '9'
  }

  predicate IsAsciiLetter(c: char) {
    'A' <= c <= 'Z' || 'a' <= c <= 'z'
  }

  /** The regular expression `/\d/`. */
  predicate HasDigit(s: string) {
    exists i :: 0 <= i < |s| && IsAsciiDigit(s[i])
  }

  /** The regular expression `/[A-Za-z]/`. */
  predicate HasLetter(s: string) {
    exists i :: 0 <= i < |s| && IsAsciiLetter(s[i])
  }

  /** The magnitude from which Number::toString switches to exponent form: 10^21. */
  const ExponentFrom: int := 1_000_000_000_000_000_000_000

  function DigitChar(d: nat): char
    requires d < 10
  {
    (48 + d) as char
  }

  /** The number a string of decimal digits denotes. */
  function DigitsValue(s: string): int {
    if s == [] then 0 else DigitsValue(s[..|s| - 1]) * 10 + (s[|s| - 1] as int - 48)
  }

  /** Decimal digits of a natural number, most significant first, with no leading zero. */
  function Decimal(n: nat): (r: string)
    ensures r != []
    ensures forall i :: 0 <= i < |r| ==> IsAsciiDigit(r[i])
    ensures DigitsValue(r) == n
    ensures r[0] == '0' <==> n == 0
  {
    if n < 10 then [DigitChar(n)]
    else
      var r := Decimal(n / 10) + [DigitChar(n % 10)];
      assert r[..|r| - 1] == Decimal(n / 10);
      r
  }

  /** `m` with its trailing decimal zeros removed. */
  function StripZeros(m: nat): (r: nat)
    requires m > 0
    ensures r > 0 && r % 10 != 0
  {
    if m % 10 == 0 then StripZeros(m / 10) else m
  }

  /**
   * An integer magnitude of 10^21 or more as Number::toString writes it: the
   * first significant digit, the others after a point, then "e+" and the
   * exponent. It holds a digit and, in the "e", a letter.
   */
  function ExponentForm(m: nat): (r: string)
    requires m >= ExponentFrom
    ensures HasDigit(r) && HasLetter(r)
  {
    var mantissa := Decimal(StripZeros(m));
    var head := [mantissa[0]] + (if |mantissa| > 1 then "." + mantissa[1..] else "");
    var r := head + "e+" + Decimal(|Decimal(m)| - 1);
    assert r[0] == mantissa[0] && IsAsciiDigit(r[0]);
    assert r[|head|] == 'e' && IsAsciiLetter(r[|head|]);
    r
  }

  /** Number::toString of an integer: an optional minus sign, then plain digits or the exponent form. */
  function NumberString(n: int): string {
    var m := if n < 0 then -n else n;
    var digits := if m < ExponentFrom then Decimal(m) else ExponentForm(m);
    if n < 0 then "-" + digits else digits
  }

  /** Strings joined with a separator, as `Array.prototype.join` does. */
  function JoinWith(parts: seq<string>, sep: string): string {
    if parts == [] then ""
    else if |parts| == 1 then parts[0]
    else parts[0] + sep + JoinWith(parts[1..], sep)
  }

  /** JavaScript's ToString on the values above, as `RegExp.prototype.test` applies it. */
  function ToJsString(v: JsValue): string
    decreases v
  {
    match v
    case Undefined => "undefined"
    case Null => "null"
    case Bool(b) => if b then "true" else "false"
    case Num(n) => NumberString(n)
    case NaN => "NaN"
    case Str(s) => s
    case Arr(items) =>
      // `join` writes undefined and null elements as empty strings
      JoinWith(seq(|items|, i requires 0 <= i < |items| =>
                 if items[i].Undefined? || items[i].Null? then "" else ToJsString(items[i])), ",")
    case Obj(_) => "[object Object]"
  }

  /** A leading minus sign is neither a digit nor a letter. */
  lemma SignKeepsClasses(x: string)
    ensures HasDigit("-" + x) == HasDigit(x) && HasLetter("-" + x) == HasLetter(x)
  {
    var s := "-" + x;
    assert forall i :: 0 <= i < |x| ==> s[i + 1] == x[i];
    if HasDigit(s) {
      var i :| 0 <= i < |s| && IsAsciiDigit(s[i]);
      assert i > 0 && x[i - 1] == s[i];
    }
    if HasLetter(s) {
      var i :| 0 <= i < |s| && IsAsciiLetter(s[i]);
      assert i > 0 && x[i - 1] == s[i];
    }
  }

  /** Below 10^21 a number's string is its digits: it matches `/\d/` and never `/[A-Za-z]/`. */
  lemma NumberStringIsDigits(n: int)
    requires -ExponentFrom < n < ExponentFrom
    ensures HasDigit(ToJsString(Num(n)))
    ensures !HasLetter(ToJsString(Num(n)))
  {
    assert ToJsString(Num(n)) == NumberString(n);
    var m: nat := if n < 0 then -n else n;
    var digits := Decimal(m);
    assert IsAsciiDigit(digits[0]);
    if n < 0 {
      SignKeepsClasses(digits);
    }
  }

  /** From 10^21 on a number's string is in exponent form: it matches both `/\d/` and `/[A-Za-z]/`. */
  lemma LargeNumberStringHasLetter(n: int)
    requires n <= -ExponentFrom || ExponentFrom <= n
    ensures HasDigit(ToJsString(Num(n)))
    ensures HasLetter(ToJsString(Num(n)))
  {
    assert ToJsString(Num(n)) == NumberString(n);
    if n < 0 {
      SignKeepsClasses(ExponentForm(-n));
    }
  }
}
