/**
 * Character classes and string operations that the validation layer and the HTML
 * builders rely on: JavaScript whitespace and trimming, decimal digits, the decimal
 * rendering of integers and the integer syntax accepted by the validator library.
 *
 * A `string` is a sequence of Unicode scalar values. The two lengths JavaScript code
 * can observe are written out: the validator library's (variation selectors not
 * counted) and the UTF-16 length a regular expression walks.
 */
module Text {
  import opened Wrappers

  /** The class `\s` of a JavaScript regular expression (ECMAScript WhiteSpace and
      LineTerminator); `trim` removes exactly these characters. */
  predicate IsWhitespace(c: char)
  {
    || c == '\t' || c == '\n' || c == '\U{000B}' || c == '\U{000C}' || c == '\r'
    || c == ' ' || c == '\U{00A0}' || c == '\U{1680}'
    || ('\U{2000}' <= c <= '\U{200A}')
    || c == '\U{2028}' || c == '\U{2029}' || c == '\U{202F}' || c == '\U{205F}'
    || c == '\U{3000}' || c == '\U{FEFF}'
  }

  /** The ECMAScript LineTerminator characters: the ones `.` does not match. */
  predicate IsLineTerminator(c: char)
  {
    c == '\n' || c == '\r' || c == '\U{2028}' || c == '\U{2029}'
  }

  lemma LineTerminatorIsWhitespace(c: char)
    requires IsLineTerminator(c)
    ensures IsWhitespace(c)
  {
  }

  predicate NoWhitespace(s: string)
  {
    forall i :: 0 <= i < |s| ==> !IsWhitespace(s[i])
  }

  predicate AllWhitespace(s: string)
  {
    forall i :: 0 <= i < |s| ==> IsWhitespace(s[i])
  }

  /** Drops the leading whitespace: what remains is a suffix of `s` that does not start
      with whitespace, and everything dropped was whitespace. */
  function TrimStart(s: string): (r: string)
    ensures |r| <= |s| && r == s[|s| - |r|..]
    ensures AllWhitespace(s[..|s| - |r|])
    ensures r != [] ==> !IsWhitespace(r[0])
  {
    if s != [] && IsWhitespace(s[0]) then
      var r := TrimStart(s[1..]);
      assert s[..|s| - |r|] == [s[0]] + s[1..][..|s| - 1 - |r|];
      r
    else
      s
  }

  /** Drops the trailing whitespace: what remains is a prefix of `s` that does not end
      with whitespace, and everything dropped was whitespace. */
  function TrimEnd(s: string): (r: string)
    ensures |r| <= |s| && r == s[..|r|]
    ensures AllWhitespace(s[|r|..])
    ensures r != [] ==> !IsWhitespace(r[|r| - 1])
  {
    if s != [] && IsWhitespace(s[|s| - 1]) then
      var r := TrimEnd(s[..|s| - 1]);
      assert s[|r|..] == s[..|s| - 1][|r|..] + [s[|s| - 1]];
      r
    else
      s
  }

  /** `String.prototype.trim`, which the validator's `trim()` sanitizer applies. */
  function Trim(s: string): string
  {
    TrimEnd(TrimStart(s))
  }

  /** The trimmed string is the slice of `s` left after removing whitespace at both
      ends. */
  lemma TrimIsSlice(s: string)
    ensures exists i, j :: (0 <= i <= j <= |s| && Trim(s) == s[i..j]
                            && AllWhitespace(s[..i]) && AllWhitespace(s[j..]))
  {
    var t := TrimStart(s);
    var u := TrimEnd(t);
    var i := |s| - |t|;
    var j := i + |u|;
    assert u == s[i..j];
    assert s[j..] == t[|u|..];
  }

  /** The trimmed string neither starts nor ends with whitespace. */
  lemma TrimmedEnds(s: string)
    ensures Trim(s) != [] ==> !IsWhitespace(Trim(s)[0]) && !IsWhitespace(Trim(s)[|Trim(s)| - 1])
  {
    var t := TrimStart(s);
    var u := TrimEnd(t);
    if u != [] {
      assert u[0] == t[0];
    }
  }

  /** Trimming yields the empty string exactly when the input is blank. */
  lemma TrimEmptyIffBlank(s: string)
    ensures Trim(s) == [] <==> AllWhitespace(s)
  {
    var t := TrimStart(s);
    if Trim(s) == [] {
      assert AllWhitespace(t[0..]);
      assert t == [];
      assert s[..|s|] == s;
    }
  }

  /** A string without whitespace is left unchanged by trimming. */
  lemma TrimNoWhitespace(s: string)
    requires NoWhitespace(s)
    ensures Trim(s) == s
  {
  }

  /** A text that neither starts nor ends with whitespace is left as it is. */
  lemma TrimKeepsTrimmed(s: string)
    requires s != [] && !IsWhitespace(s[0]) && !IsWhitespace(s[|s| - 1])
    ensures Trim(s) == s
  {
  }

  /** Trimming twice is trimming once. */
  lemma TrimIdempotent(s: string)
    ensures Trim(Trim(s)) == Trim(s)
  {
    var t := Trim(s);
    TrimmedEnds(s);
    if t != [] {
      assert TrimStart(t) == t;
    }
  }

  // ----- lengths -----

  /** The variation selectors U+FE0E and U+FE0F, which pick the text or the emoji
      rendering of the character before them. */
  predicate IsVariationSelector(c: char)
  {
    c == '\U{FE0E}' || c == '\U{FE0F}'
  }

  predicate NoVariationSelector(s: string)
  {
    forall i :: 0 <= i < |s| ==> !IsVariationSelector(s[i])
  }

  /** A character beyond U+FFFF, which UTF-16 writes as a surrogate pair. */
  predicate IsAstral(c: char)
  {
    c as int > 0xFFFF
  }

  predicate NoAstral(s: string)
  {
    forall i :: 0 <= i < |s| ==> !IsAstral(s[i])
  }

  /** The length the validator library's `isLength` measures: a surrogate pair counts
      once, a variation selector not at all. */
  function ValidatorLength(s: string): (n: nat)
    ensures n <= |s|
  {
    if s == [] then 0
    else ValidatorLength(s[..|s| - 1]) + (if IsVariationSelector(s[|s| - 1]) then 0 else 1)
  }

  /** The length of a JavaScript string, the one a regular expression without the `u`
      flag walks: UTF-16 code units, two for a character beyond U+FFFF. */
  function Utf16Length(s: string): (n: nat)
    ensures n >= |s|
  {
    if s == [] then 0
    else Utf16Length(s[..|s| - 1]) + (if IsAstral(s[|s| - 1]) then 2 else 1)
  }

  /** Without variation selectors, the validator counts every character. */
  lemma {:induction false} ValidatorLengthPlain(s: string)
    requires NoVariationSelector(s)
    ensures ValidatorLength(s) == |s|
  {
    if s != [] {
      var init := s[..|s| - 1];
      assert forall i :: 0 <= i < |init| ==> init[i] == s[i];
      ValidatorLengthPlain(init);
    }
  }

  /** The validator's length is zero exactly when every character is a variation
      selector. */
  lemma {:induction false} ValidatorLengthZero(s: string)
    ensures ValidatorLength(s) == 0 <==> forall i :: 0 <= i < |s| ==> IsVariationSelector(s[i])
  {
    if s != [] {
      var init := s[..|s| - 1];
      assert forall i :: 0 <= i < |init| ==> init[i] == s[i];
      ValidatorLengthZero(init);
    }
  }

  /** A prefix is never longer, for the validator, than the whole. */
  lemma {:induction false} ValidatorLengthOfPrefix(s: string, k: nat)
    requires k <= |s|
    ensures ValidatorLength(s[..k]) <= ValidatorLength(s)
  {
    if k < |s| {
      var init := s[..|s| - 1];
      assert init[..k] == s[..k];
      ValidatorLengthOfPrefix(init, k);
    } else {
      assert s[..k] == s;
    }
  }

  /** A text whose first `n` characters are not variation selectors has a validator
      length of at least `n`. */
  lemma ValidatorLengthAtLeast(s: string, n: nat)
    requires n <= |s| && forall i :: 0 <= i < n ==> !IsVariationSelector(s[i])
    ensures ValidatorLength(s) >= n
  {
    assert NoVariationSelector(s[..n]);
    ValidatorLengthPlain(s[..n]);
    ValidatorLengthOfPrefix(s, n);
  }

  /** Without characters beyond U+FFFF, every character is one code unit. */
  lemma {:induction false} Utf16LengthOfBmp(s: string)
    requires NoAstral(s)
    ensures Utf16Length(s) == |s|
  {
    if s != [] {
      var init := s[..|s| - 1];
      assert forall i :: 0 <= i < |init| ==> init[i] == s[i];
      Utf16LengthOfBmp(init);
    }
  }

  // ----- starting and ending with a literal, splitting at a character -----

  predicate StartsWith(s: string, prefix: string)
  {
    |prefix| <= |s| && s[..|prefix|] == prefix
  }

  predicate EndsWith(s: string, suffix: string)
  {
    |suffix| <= |s| && s[|s| - |suffix|..] == suffix
  }

  lemma StartsWithConcat(p: string, rest: string)
    ensures StartsWith(p + rest, p) && (p + rest)[|p|..] == rest
  {
    assert (p + rest)[..|p|] == p;
  }

  lemma EndsWithConcat(rest: string, p: string)
    ensures EndsWith(rest + p, p) && (rest + p)[..|rest|] == rest
  {
    assert (rest + p)[|rest|..] == p;
  }

  /** Splits `s` before the first occurrence of `c`: the part before it (free of `c`)
      and the rest, which is empty or starts with `c`. */
  function SplitAt(s: string, c: char): (r: (string, string))
    ensures r.0 + r.1 == s
    ensures c !in r.0
    ensures r.1 == [] || r.1[0] == c
  {
    if s == [] then ([], [])
    else if s[0] == c then ([], s)
    else
      var r := SplitAt(s[1..], c);
      assert [s[0]] + r.0 + r.1 == s;
      ([s[0]] + r.0, r.1)
  }

  /** Splitting `x + y`, where `x` is free of `c` and `y` starts with `c`, gives back `x` and `y`. */
  lemma {:induction false} SplitAtFirst(x: string, y: string, c: char)
    requires c !in x && y != [] && y[0] == c
    ensures SplitAt(x + y, c) == (x, y)
  {
    if x == [] {
      assert x + y == y;
    } else {
      assert x[0] in x;
      assert (x + y)[1..] == x[1..] + y;
      SplitAtFirst(x[1..], y, c);
      assert [x[0]] + x[1..] == x;
    }
  }

  // ----- decimal digits and integers -----

  predicate IsDigit(c: char)
  {
    '0' <= c <= '9'
  }

  predicate AllDigits(s: string)
  {
    forall i :: 0 <= i < |s| ==> IsDigit(s[i])
  }

  function DigitValue(c: char): nat
    requires IsDigit(c)
  {
    (c as int) - ('0' as int)
  }

  function DigitChar(d: nat): (c: char)
    requires d < 10
    ensures IsDigit(c) && DigitValue(c) == d
  {
    (('0' as int) + d) as char
  }

  /** The value of a string of decimal digits, most significant first. */
  function DigitsValue(s: string): nat
    requires AllDigits(s)
  {
    if s == [] then 0 else DigitsValue(s[..|s| - 1]) * 10 + DigitValue(s[|s| - 1])
  }

  /** The shortest decimal rendering of a natural number. */
  function NatToString(n: nat): (r: string)
    ensures r != []
  {
    if n < 10 then [DigitChar(n)] else NatToString(n / 10) + [DigitChar(n % 10)]
  }

  /** The rendering consists of digits, with no leading zero. */
  lemma {:induction false} NatToStringDigits(n: nat)
    ensures AllDigits(NatToString(n))
    ensures |NatToString(n)| > 1 ==> NatToString(n)[0] != '0'
  {
    if n >= 10 {
      NatToStringDigits(n / 10);
    }
  }

  /** How JavaScript renders an integral Number as text (`String(n)`, `${n}`). */
  function IntToString(n: int): (r: string)
    ensures r != []
  {
    if n < 0 then "-" + NatToString(-n) else NatToString(n)
  }

  /** A rendered integer is a minus sign or digits: no quote, no markup, no whitespace. */
  lemma IntToStringText(n: int)
    ensures var r := IntToString(n);
      && '"' !in r && '<' !in r && NoWhitespace(r)
      && (r[0] == '-' || IsDigit(r[0]))
  {
    NatToStringDigits(if n < 0 then -n else n);
  }

  lemma {:induction false} NatToStringValue(n: nat)
    ensures AllDigits(NatToString(n)) && DigitsValue(NatToString(n)) == n
  {
    NatToStringDigits(n);
    if n >= 10 {
      var s := NatToString(n);
      NatToStringValue(n / 10);
      assert s[..|s| - 1] == NatToString(n / 10);
    }
  }

  /** The integer syntax of the validator library's `isInt` (leading zeros allowed):
      an optional sign followed by at least one decimal digit, and its value. */
  function ParseInteger(s: string): (r: Option<int>)
    ensures r.Some? ==> s != [] && NoWhitespace(s)
  {
    if s != [] && (s[0] == '-' || s[0] == '+') then
      if |s| >= 2 && AllDigits(s[1..]) then
        Some(if s[0] == '-' then -(DigitsValue(s[1..]) as int) else DigitsValue(s[1..]))
      else None
    else if s != [] && AllDigits(s) then Some(DigitsValue(s))
    else None
  }

  /** Rendering an integer and reading it back gives the same integer. */
  lemma IntToStringRoundTrip(n: int)
    ensures ParseInteger(IntToString(n)) == Some(n)
  {
    IntToStringText(n);
    if n < 0 {
      NatToStringValue(-n);
      assert IntToString(n)[1..] == NatToString(-n);
    } else {
      NatToStringValue(n);
    }
  }

  /** `isInt({ min: lo })` of the validator library on an (already sanitized) string. */
  predicate IsIntAtLeast(s: string, lo: int)
  {
    var v := ParseInteger(s); v.Some? && lo <= v.value
  }

  /** `isInt({ min: lo, max: hi })` of the validator library. */
  predicate IsIntBetween(s: string, lo: int, hi: int)
  {
    var v := ParseInteger(s); v.Some? && lo <= v.value <= hi
  }
}
