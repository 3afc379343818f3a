/**
 * The slice of JavaScript value semantics that the handlers depend on: truthiness
 * (`if (x)`, `x || y`), conversion to text in template literals, property reads that
 * fail on `null`/`undefined`, strict equality, object spread, `delete` and `parseInt`.
 *
 * Numbers are integers here: the model never needs a fractional value.
 */
module Js {
  import opened Wrappers
  import opened Text

  /** One error reported by the validator for one request field. */
  datatype FieldError = FieldError(path: string, msg: string)

  /** A JavaScript value as it reaches a handler. `Errors` is the validator's result
      object (or its `array()`), an object holding the list of field errors. */
  datatype Value =
    | Undefined
    | Null
    | Bool(b: bool)
    | Num(n: int)
    | NaN
    | Str(s: string)
    | Obj(fields: map<string, Value>)
    | Errors(list: seq<FieldError>)

  /** A thrown error: its constructor name, its message and the optional `status`
      property that the error handler reads. */
  datatype JsError = JsError(name: string, message: string, status: Option<int>)

  function TypeError(message: string): JsError
  {
    JsError("TypeError", message, None)
  }

  function PlainError(message: string): JsError
  {
    JsError("Error", message, None)
  }

  /** JavaScript truthiness. */
  predicate Truthy(v: Value)
  {
    match v
    case Undefined => false
    case Null => false
    case NaN => false
    case Bool(b) => b
    case Num(n) => n != 0
    case Str(s) => s != ""
    case Obj(_) => true
    case Errors(_) => true
  }

  /** `a || b`. */
  function Or(a: Value, b: Value): (r: Value)
    ensures Truthy(a) ==> r == a
    ensures !Truthy(a) ==> r == b
  {
    if Truthy(a) then a else b
  }

  /** `String(v)`, i.e. what a template literal or `+` with a string inserts. */
  function ToStr(v: Value): string
  {
    match v
    case Undefined => "undefined"
    case Null => "null"
    case NaN => "NaN"
    case Bool(b) => if b then "true" else "false"
    case Num(n) => IntToString(n)
    case Str(s) => s
    case Obj(_) => "[object Object]"
    case Errors(_) => "[object Object]"
  }

  /** Reading `v[key]`: `null` and `undefined` throw a TypeError, an object yields its
      property or `undefined`, other primitives have none of the properties read here. */
  function Get(v: Value, key: string): (r: Result<Value, JsError>)
    ensures r.Err? <==> (v == Undefined || v == Null)
    ensures v.Obj? ==> r == Ok(if key in v.fields then v.fields[key] else Undefined)
  {
    match v
    case Undefined => Err(TypeError("Cannot read properties of undefined (reading '" + key + "')"))
    case Null => Err(TypeError("Cannot read properties of null (reading '" + key + "')"))
    case Obj(m) => Ok(if key in m then m[key] else Undefined)
    case _ => Ok(Undefined)
  }

  /** `a === b` on the primitive values compared by the handlers (identifiers): `NaN`
      equals nothing. */
  predicate StrictEquals(a: Value, b: Value)
  {
    a != NaN && a == b
  }

  /** The own properties that `{ ...v }` copies: an object's fields; nothing for
      `null`, `undefined`, booleans and numbers. */
  function Spread(v: Value): map<string, Value>
  {
    if v.Obj? then v.fields else map[]
  }

  /** `delete v[key]` followed by reading `v`. */
  function Delete(v: Value, key: string): (r: Value)
    ensures v.Obj? ==> r == Obj(v.fields - {key})
    ensures !v.Obj? ==> r == v
  {
    if v.Obj? then Obj(v.fields - {key}) else v
  }

  /** A request-body field as destructuring reads it: the submitted text, or
      `undefined` when the field was not submitted. */
  function BodyValue(body: map<string, string>, key: string): (r: Value)
    ensures key in body ==> r == Str(body[key])
    ensures key !in body ==> r == Undefined
  {
    if key in body then Str(body[key]) else Undefined
  }

  /** The fields `keys` destructured from a request body and passed on by name. */
  function Destructured(body: map<string, string>, keys: seq<string>): (r: map<string, Value>)
    ensures forall k :: k in r <==> k in keys
    ensures forall k :: k in keys ==> r[k] == BodyValue(body, k)
  {
    if keys == [] then map[]
    else Destructured(body, keys[..|keys| - 1])[keys[|keys| - 1] := BodyValue(body, keys[|keys| - 1])]
  }

  /** The longest prefix of decimal digits. */
  function DigitPrefix(s: string): (r: string)
    ensures AllDigits(r) && StartsWith(s, r)
    ensures |r| < |s| ==> !IsDigit(s[|r|])
  {
    if s != [] && IsDigit(s[0]) then
      var r := DigitPrefix(s[1..]);
      assert s[..|r| + 1] == [s[0]] + s[1..][..|r|];
      [s[0]] + r
    else []
  }

  predicate IsHexDigit(c: char)
  {
    IsDigit(c) || 'a' <= c <= 'f' || 'A' <= c <= 'F'
  }

  predicate AllHexDigits(s: string)
  {
    forall i :: 0 <= i < |s| ==> IsHexDigit(s[i])
  }

  function HexDigitValue(c: char): (d: nat)
    requires IsHexDigit(c)
    ensures d < 16
  {
    if IsDigit(c) then DigitValue(c)
    else if 'a' <= c <= 'f' then (c as int) - ('a' as int) + 10
    else (c as int) - ('A' as int) + 10
  }

  /** The value of a string of hexadecimal digits, most significant first. */
  function HexValue(s: string): nat
    requires AllHexDigits(s)
  {
    if s == [] then 0 else HexValue(s[..|s| - 1]) * 16 + HexDigitValue(s[|s| - 1])
  }

  /** The longest prefix of hexadecimal digits. */
  function HexPrefix(s: string): (r: string)
    ensures AllHexDigits(r) && StartsWith(s, r)
    ensures |r| < |s| ==> !IsHexDigit(s[|r|])
  {
    if s != [] && IsHexDigit(s[0]) then
      var r := HexPrefix(s[1..]);
      assert s[..|r| + 1] == [s[0]] + s[1..][..|r|];
      [s[0]] + r
    else []
  }

  /** The `0x` / `0X` prefix that makes `parseInt` with no radix read base 16. */
  predicate HasHexPrefix(u: string)
  {
    |u| >= 2 && u[0] == '0' && (u[1] == 'x' || u[1] == 'X')
  }

  /** The magnitude `parseInt` reads after the sign: after a `0x` prefix the longest run
      of hexadecimal digits, otherwise the longest run of decimal digits; None when that
      run is empty. */
  function ParseMagnitude(u: string): (r: Option<nat>)
  {
    if HasHexPrefix(u) then
      var h := HexPrefix(u[2..]);
      if h == [] then None else Some(HexValue(h))
    else
      var d := DigitPrefix(u);
      if d == [] then None else Some(DigitsValue(d))
  }

  /** `parseInt` of a text with no radix: leading whitespace is skipped and an optional
      sign is read; then a `0x` or `0X` prefix selects base 16, and otherwise base 10 is
      read; the longest run of digits of that base is the magnitude, and with no digit the
      result is NaN. */
  function ParseIntText(s: string): (r: Value)
    ensures r.Num? || r == NaN
  {
    var t := TrimStart(s);
    var negative := t != [] && t[0] == '-';
    var u := if t != [] && (t[0] == '-' || t[0] == '+') then t[1..] else t;
    match ParseMagnitude(u)
    case None => NaN
    case Some(m) => Num(if negative then -(m as int) else m)
  }

  /** `parseInt(v)`: a string is parsed, a number is kept, and every other value reads as
      text without a digit, so gives NaN (`ParseIntValueOfText` shows this is `parseInt`
      of `String(v)`). */
  function ParseIntValue(v: Value): (r: Value)
    ensures r.Num? || r == NaN
  {
    match v
    case Str(s) => ParseIntText(s)
    case Num(n) => Num(n)
    case _ => NaN
  }

  lemma DigitPrefixOfDigits(s: string, rest: string)
    requires AllDigits(s)
    requires rest == [] || !IsDigit(rest[0])
    ensures DigitPrefix(s + rest) == s
  {
    if s != [] {
      assert (s + rest)[1..] == s[1..] + rest;
      DigitPrefixOfDigits(s[1..], rest);
    } else {
      assert s + rest == rest;
    }
  }

  lemma HexPrefixOfHexDigits(s: string, rest: string)
    requires AllHexDigits(s)
    requires rest == [] || !IsHexDigit(rest[0])
    ensures HexPrefix(s + rest) == s
  {
    if s != [] {
      assert (s + rest)[1..] == s[1..] + rest;
      HexPrefixOfHexDigits(s[1..], rest);
    } else {
      assert s + rest == rest;
    }
  }

  /** A text that starts with an optional sign and then neither whitespace nor a sign is
      parsed by reading the magnitude after the sign. */
  lemma ParseIntOfSigned(sign: string, u: string)
    requires sign == "" || sign == "-" || sign == "+"
    requires u != [] && !IsWhitespace(u[0]) && u[0] != '-' && u[0] != '+'
    ensures var m := ParseMagnitude(u);
            && (m.None? ==> ParseIntText(sign + u) == NaN)
            && (m.Some? ==> ParseIntText(sign + u) == Num(if sign == "-" then -(m.value as int) else m.value))
  {
    var s := sign + u;
    if sign == "" {
      assert s == u;
      assert TrimStart(s) == s;
    } else {
      assert s[0] == sign[0] && s[1..] == u;
      assert !IsWhitespace(sign[0]);
      assert TrimStart(s) == s;
    }
  }

  /** After `0x` or `0X`, the magnitude is the following hexadecimal digits, up to the
      first character that is not one. */
  lemma HexMagnitude(x: char, digits: string, rest: string)
    requires x == 'x' || x == 'X'
    requires AllHexDigits(digits)
    requires rest == [] || !IsHexDigit(rest[0])
    ensures ParseMagnitude("0" + ([x] + (digits + rest))) == if digits == [] then None else Some(HexValue(digits))
  {
    var u := "0" + ([x] + (digits + rest));
    assert HasHexPrefix(u) && u[2..] == digits + rest;
    HexPrefixOfHexDigits(digits, rest);
  }

  /** After an optional sign, `0x` or `0X` makes `parseInt` read the following
      hexadecimal digits, up to the first character that is not one. */
  lemma ParseIntOfHex(sign: string, x: char, digits: string, rest: string)
    requires sign == "" || sign == "-" || sign == "+"
    requires x == 'x' || x == 'X'
    requires digits != [] && AllHexDigits(digits)
    requires rest == [] || !IsHexDigit(rest[0])
    ensures ParseIntText(sign + ("0" + ([x] + (digits + rest))))
            == Num(if sign == "-" then -(HexValue(digits) as int) else HexValue(digits))
  {
    HexMagnitude(x, digits, rest);
    ParseIntOfSigned(sign, "0" + ([x] + (digits + rest)));
  }

  /** A `0x` prefix with no hexadecimal digit after it parses to NaN, although it starts
      with the digit 0. */
  lemma ParseIntOfBareHexPrefix(sign: string, x: char, rest: string)
    requires sign == "" || sign == "-" || sign == "+"
    requires x == 'x' || x == 'X'
    requires rest == [] || !IsHexDigit(rest[0])
    ensures ParseIntText(sign + ("0" + ([x] + rest))) == NaN
  {
    HexMagnitude(x, [], rest);
    assert [] + rest == rest;
    ParseIntOfSigned(sign, "0" + ([x] + rest));
  }

  /** `parseInt` reads back every integer rendered as text, e.g. the identifier in a
      URL built from a number. */
  lemma ParseIntOfRenderedInteger(n: int)
    ensures ParseIntText(IntToString(n)) == Num(n)
  {
    var m: nat := if n < 0 then -n else n;
    var digits := NatToString(m);
    NatToStringValue(m);
    assert IsDigit(digits[0]);
    assert !HasHexPrefix(digits) by {
      if |digits| >= 2 { assert IsDigit(digits[1]); }
    }
    DigitPrefixOfDigits(digits, []);
    assert digits + [] == digits;
    assert ParseMagnitude(digits) == Some(m);
    if n < 0 {
      ParseIntOfSigned("-", digits);
    } else {
      assert IntToString(n) == "" + digits;
      ParseIntOfSigned("", digits);
    }
  }

  /** An identifier typed as `0x10` reads as 16. */
  lemma ParseIntReadsHexIdentifier(s: string)
    requires s == ['0', 'x', '1', '0']
    ensures ParseIntText(s) == Num(16)
  {
    var digits := s[2..];
    assert HexValue(digits[..1]) == 1;
    assert HexValue(digits) == 16;
    assert s == [] + (['0'] + (['x'] + (digits + [])));
    ParseIntOfHex([], 'x', digits, []);
  }

  /** A bare `0x` prefix with no hexadecimal digit after it is NaN. */
  lemma ParseIntOfBareHex(s: string)
    requires s == ['0', 'x']
    ensures ParseIntText(s) == NaN
  {
    assert s == [] + (['0'] + (['x'] + []));
    ParseIntOfBareHexPrefix([], 'x', []);
  }

  /** A text that starts with neither whitespace, a sign nor a digit parses to NaN. */
  lemma ParseIntOfWord(s: string)
    requires s != [] && !IsWhitespace(s[0]) && s[0] != '-' && s[0] != '+' && !IsDigit(s[0])
    ensures ParseIntText(s) == NaN
  {
    assert TrimStart(s) == s;
  }

  /** `ParseIntValue` is `parseInt` applied to the value's text: `undefined`, `null`,
      `NaN`, booleans and objects give NaN, numbers read back as themselves. */
  lemma ParseIntValueOfText(v: Value)
    ensures ParseIntValue(v) == ParseIntText(ToStr(v))
  {
    match v
    case Str(_) =>
    case Num(n) => ParseIntOfRenderedInteger(n);
    case Undefined => ParseIntOfWord("undefined");
    case Null => ParseIntOfWord("null");
    case NaN => ParseIntOfWord("NaN");
    case Bool(b) => ParseIntOfWord(if b then "true" else "false");
    case Obj(_) => ParseIntOfWord("[object Object]");
    case Errors(_) => ParseIntOfWord("[object Object]");
  }
}
