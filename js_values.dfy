/** The fragment of JavaScript's value semantics that the two widgets depend on:
    truthiness (ToBoolean), strict equality, reading a missing property, number
    to string conversion and the global `parseInt` (section 19.2.5 of
    ECMA-262). Numbers are restricted to integers; `NaN` is kept as a value of
    its own because `parseInt` produces it. */
module JsValues {
  import opened Wrappers

  datatype JsValue = Undefined | Null | NaN | Num(n: int) | Str(s: string)

  /** A plain JavaScript object used as a dictionary of request parameters */
  type Object = map<string, JsValue>

  /** ToBoolean: `0`, `NaN`, `""`, `null` and `undefined` are falsy */
  predicate Truthy(v: JsValue) {
    match v
    case Num(n) => n != 0
    case Str(s) => s != ""
    case _ => false
  }

  /** `a === b`: structural equality, except that NaN equals nothing */
  predicate StrictEquals(a: JsValue, b: JsValue) {
    a == b && !a.NaN?
  }

  /** Reading `o.k`: a missing property reads as `undefined` */
  function Lookup(o: Object, k: string): JsValue {
    if k in o then o[k] else Undefined
  }

  // ---------------------------------------------------------------------------
  // Number to string

  function DigitChar(d: nat): (c: char)
    requires d < 10
  {
    "0123456789"[d]
  }

  /** Decimal digits of a natural number, most significant first */
  function NatDigits(n: nat): (s: string)
    ensures |s| > 0
    decreases n
  {
    if n < 10 then [DigitChar(n)] else NatDigits(n / 10) + [DigitChar(n % 10)]
  }

  /** Number::toString for integers */
  function NumberToString(n: int): string {
    if n < 0 then "-" + NatDigits(-n) else NatDigits(n)
  }

  /** ToString */
  function ToString(v: JsValue): string {
    match v
    case Undefined => "undefined"
    case Null => "null"
    case NaN => "NaN"
    case Num(n) => NumberToString(n)
    case Str(s) => s
  }

  // ---------------------------------------------------------------------------
  // parseInt

  /** StrWhiteSpaceChar: WhiteSpace and LineTerminator code points */
  predicate IsWhiteSpace(c: char) {
    c == '\t' || c == '\n' || c == '\U{000B}' || c == '\U{000C}' || c == '\r' || c == ' '
    || c == '\U{00A0}' || c == '\U{1680}' || ('\U{2000}' <= c <= '\U{200A}')
    || c == '\U{2028}' || c == '\U{2029}' || c == '\U{202F}' || c == '\U{205F}'
    || c == '\U{3000}' || c == '\U{FEFF}'
  }

  /** The string with its leading white space removed */
  function TrimStart(s: string): (r: string)
    ensures |r| <= |s| && r == s[|s| - |r|..]
    ensures r == [] || !IsWhiteSpace(r[0])
    ensures s == [] || !IsWhiteSpace(s[0]) ==> r == s
    ensures forall i :: 0 <= i < |s| - |r| ==> IsWhiteSpace(s[i])
  {
    if s != [] && IsWhiteSpace(s[0]) then
      var r := TrimStart(s[1..]);
      assert forall i :: 1 <= i < |s| - |r| ==> s[i] == s[1..][i - 1];
      r
    else s
  }

  /** The value of a digit in radix up to 36: `0-9`, then `a-z` or `A-Z` for 10 to 35.
      Any other character gets 36, which no radix accepts. */
  function DigitValue(c: char): (d: nat)
    ensures d <= 36
  {
    if '0' <= c <= '9' then (c as int) - ('0' as int)
    else if 'a' <= c <= 'z' then (c as int) - ('a' as int) + 10
    else if 'A' <= c <= 'Z' then (c as int) - ('A' as int) + 10
    else 36
  }

  predicate AllDigits(s: string, radix: nat) {
    forall i :: 0 <= i < |s| ==> DigitValue(s[i]) < radix
  }

  /** Length of the longest prefix of `s` made of digits of `radix` */
  function DigitPrefix(s: string, radix: nat): (end: nat)
    ensures end <= |s| && AllDigits(s[..end], radix)
    ensures end < |s| ==> DigitValue(s[end]) >= radix
  {
    if s == [] || DigitValue(s[0]) >= radix then 0
    else
      var rest := DigitPrefix(s[1..], radix);
      assert s[..rest + 1] == [s[0]] + s[1..][..rest];
      rest + 1
  }

  /** The mathematical value of a string of digits, most significant first */
  function DigitsValue(s: string, radix: nat): nat
    requires AllDigits(s, radix)
  {
    if s == [] then 0
    else DigitsValue(s[..|s| - 1], radix) * radix + DigitValue(s[|s| - 1])
  }

  /** Whether the string starts with `0x` or `0X` */
  predicate HasHexPrefix(s: string) {
    |s| >= 2 && s[0] == '0' && (s[1] == 'x' || s[1] == 'X')
  }

  /** The sign a string of digits starts with, and the rest after it */
  function SplitSign(s: string): (r: (int, string))
    ensures r.0 == -1 || r.0 == 1
  {
    if s != [] && s[0] == '-' then (-1, s[1..])
    else if s != [] && s[0] == '+' then (1, s[1..])
    else (1, s)
  }

  /** The magnitude parseInt reads from an unsigned string, or None when no
      digit follows (which parseInt reports as NaN). Every radix parseInt
      accepts is kept, so that ParseInt is the whole built-in and not only its
      uses with no radix and radix 10. */
  function ParseMagnitude(s: string, radix: int): Option<nat> {
    if radix != 0 && (radix < 2 || radix > 36) then None
    else
      var hex := (radix == 0 || radix == 16) && HasHexPrefix(s);
      var body := if hex then s[2..] else s;
      var base := if hex then 16 else if radix == 0 then 10 else radix;
      var end := DigitPrefix(body, base);
      if end == 0 then None else Some(DigitsValue(body[..end], base))
  }

  /** `parseInt(v, radix)`, with `radix` already converted by ToInt32 (an absent
      radix is 0). The result is always a number: an integer or NaN. */
  function ParseInt(v: JsValue, radix: int): (r: JsValue)
    ensures r.Num? || r.NaN?
  {
    var signed := SplitSign(TrimStart(ToString(v)));
    match ParseMagnitude(signed.1, radix)
    case None => NaN
    case Some(m) => Num(signed.0 * m)
  }

  // ---------------------------------------------------------------------------
  // Lemmas

  lemma {:induction false} NatDigitsAreDigits(n: nat)
    ensures AllDigits(NatDigits(n), 10)
    ensures DigitsValue(NatDigits(n), 10) == n
    decreases n
  {
    if n >= 10 {
      var prefix := NatDigits(n / 10);
      var s := NatDigits(n);
      NatDigitsAreDigits(n / 10);
      assert s == prefix + [DigitChar(n % 10)];
      assert s[..|s| - 1] == prefix;
      forall i | 0 <= i < |s| ensures DigitValue(s[i]) < 10 {
        if i < |prefix| { assert s[i] == prefix[i]; }
      }
    }
  }

  /** The first character of a number's decimal form is `-` or a digit */
  lemma NumberToStringStart(n: int)
    ensures NumberToString(n) != []
    ensures !IsWhiteSpace(NumberToString(n)[0])
    ensures n < 0 <==> NumberToString(n)[0] == '-'
    ensures NumberToString(n)[0] != '+'
  {
    NatDigitsAreDigits(if n < 0 then -n else n);
    if n < 0 {
      assert NumberToString(n)[0] == '-';
    } else {
      assert DigitValue(NatDigits(n)[0]) < 10;
    }
  }

  /** A run of decimal digits followed by a non-digit is read as its value,
      with no radix or radix 10 */
  lemma {:induction false} ParseMagnitudeDigits(m: nat, rest: string, radix: int)
    requires radix == 0 || radix == 10
    requires rest == [] || DigitValue(rest[0]) >= 10
    requires radix == 0 ==> rest == []
    ensures ParseMagnitude(NatDigits(m) + rest, radix) == Some(m)
  {
    var s := NatDigits(m);
    var t := s + rest;
    NatDigitsAreDigits(m);
    if radix == 0 {
      assert t == s;
      if |s| >= 2 {
        assert DigitValue(s[1]) < 10;
        assert DigitValue('x') == 33 && DigitValue('X') == 33;
      }
      assert !HasHexPrefix(t);
    }
    DigitPrefixOfConcat(s, rest);
    assert t[..|s|] == s;
  }

  /** The digits of a natural number start with a digit, which is no white space and no sign */
  lemma NatDigitsStart(m: nat, rest: string)
    ensures
      var t := NatDigits(m) + rest;
      TrimStart(t) == t && SplitSign(t) == (1, t)
  {
    var t := NatDigits(m) + rest;
    NatDigitsAreDigits(m);
    assert t[0] == NatDigits(m)[0] && DigitValue(t[0]) < 10;
    DecimalDigitIsPlain(t[0]);
  }

  /** A decimal digit is neither white space nor a sign */
  lemma DecimalDigitIsPlain(c: char)
    requires DigitValue(c) < 10
    ensures '0' <= c <= '9' && !IsWhiteSpace(c) && c != '-' && c != '+'
  {
  }

  /** parseInt(String(n)) === n for every integer n, with no radix or radix 10 */
  lemma ParseIntNumberToString(n: int, radix: int)
    requires radix == 0 || radix == 10
    ensures ParseInt(Str(NumberToString(n)), radix) == Num(n)
  {
    if n < 0 {
      ParseIntNegative(-n, radix);
    } else {
      var digits := NatDigits(n);
      NatDigitsStart(n, []);
      ParseMagnitudeDigits(n, [], radix);
      assert digits + [] == digits;
    }
  }

  lemma ParseIntNegative(m: nat, radix: int)
    requires m > 0
    requires radix == 0 || radix == 10
    ensures ParseInt(Str(NumberToString(-(m as int))), radix) == Num(-(m as int))
  {
    ParseMagnitudeDigits(m, [], radix);
    assert NatDigits(m) + [] == NatDigits(m);
    assert NumberToString(-(m as int)) == "-" + NatDigits(m);
    ParseIntOfMinus(NatDigits(m), radix, m);
  }

  /** parseInt of a minus sign followed by an unsigned magnitude */
  lemma ParseIntOfMinus(unsigned: string, radix: int, m: nat)
    requires ParseMagnitude(unsigned, radix) == Some(m)
    ensures ParseInt(Str("-" + unsigned), radix) == Num(-(m as int))
  {
    var s := "-" + unsigned;
    assert s[0] == '-' && s[1..] == unsigned;
    ParseIntOfSigned(s, radix, -1, unsigned, m);
  }

  /** parseInt of a string without leading white space, from its sign and magnitude */
  lemma ParseIntOfSigned(s: string, radix: int, sign: int, unsigned: string, m: nat)
    requires s != [] && !IsWhiteSpace(s[0])
    requires SplitSign(s) == (sign, unsigned)
    requires ParseMagnitude(unsigned, radix) == Some(m)
    ensures ParseInt(Str(s), radix) == Num(sign * m)
  {
    assert TrimStart(s) == s;
  }

  /** Converting an integer to a number with parseInt leaves it unchanged */
  lemma ParseIntOfNumber(n: int, radix: int)
    requires radix == 0 || radix == 10
    ensures ParseInt(Num(n), radix) == Num(n)
  {
    ParseIntNumberToString(n, radix);
  }

  /** parseInt(NaN) is NaN: "NaN" has no leading digit */
  lemma ParseIntOfNaN(radix: int)
    requires radix == 0 || radix == 10
    ensures ParseInt(NaN, radix) == NaN
  {
    assert TrimStart("NaN") == "NaN";
    assert DigitValue('N') == 23;
  }

  /** A number that parseInt produced is a fixed point of parseInt */
  lemma ParseIntIdempotent(v: JsValue, radix: int)
    ensures ParseInt(ParseInt(v, radix), 0) == ParseInt(v, radix)
  {
    var r := ParseInt(v, radix);
    if r.Num? {
      ParseIntOfNumber(r.n, 0);
    } else {
      ParseIntOfNaN(0);
    }
  }

  /** Trailing characters after the digits are ignored: parseInt("10px", 10) is 10 */
  lemma ParseIntIgnoresSuffix(m: nat, rest: string)
    requires rest == [] || DigitValue(rest[0]) >= 10
    ensures ParseInt(Str(NatDigits(m) + rest), 10) == Num(m)
  {
    NatDigitsStart(m, rest);
    ParseMagnitudeDigits(m, rest, 10);
  }

  lemma {:induction false} DigitPrefixOfConcat(s: string, rest: string)
    requires AllDigits(s, 10)
    requires rest == [] || DigitValue(rest[0]) >= 10
    ensures DigitPrefix(s + rest, 10) == |s|
  {
    if s != [] {
      assert (s + rest)[0] == s[0];
      assert (s + rest)[1..] == s[1..] + rest;
      DigitPrefixOfConcat(s[1..], rest);
    } else {
      assert s + rest == rest;
    }
  }
}
