/** The two integer/string conversions the session store relies on:
    `Number.prototype.toString()` of an integral permission id, and
    `parseInt(text, 10)` of a route's menu id (section 19.2.5 of ECMA-262). */
module Numerals {
  import opened Common

  predicate IsDigit(c: char)
  {
    '0' <= c <= '9'
  }

  predicate AllDigits(s: string)
  {
    forall i :: 0 <= i < |s| ==> IsDigit(s[i])
  }

  /** The characters `parseInt` skips before the number: WhiteSpace and
      LineTerminator of ECMA-262 (StrWhiteSpaceChar). */
  predicate IsJsWhitespace(c: char)
  {
    || c == '\t' || c == '\n' || c == '\U{B}' || c == '\U{C}' || c == '\r' || c == ' '
    || c == '\U{A0}' || c == '\U{1680}' || ('\U{2000}' <= c <= '\U{200A}')
    || c == '\U{2028}' || c == '\U{2029}' || c == '\U{202F}' || c == '\U{205F}'
    || c == '\U{3000}' || c == '\U{FEFF}'
  }

  function DigitValue(c: char): (d: nat)
    requires IsDigit(c)
    ensures d < 10
  {
    c as int - '0' as int
  }

  function DigitChar(d: nat): (c: char)
    requires d < 10
    ensures IsDigit(c) && DigitValue(c) == d
  {
    ('0' as int + d) as char
  }

  /** The value of a run of decimal digits, most significant first. */
  function DigitsValue(s: string): (v: nat)
    requires AllDigits(s)
  {
    if s == [] then 0 else 10 * DigitsValue(s[..|s| - 1]) + DigitValue(s[|s| - 1])
  }

  /** Decimal digits of a natural number, without leading zeros. */
  function DecimalDigits(n: nat): (s: string)
    ensures s != [] && AllDigits(s)
    ensures DigitsValue(s) == n
    ensures s[0] == '0' ==> n == 0 && s == "0"
  {
    if n < 10 then [DigitChar(n)]
    else
      var prefix := DecimalDigits(n / 10);
      var s := prefix + [DigitChar(n % 10)];
      assert s[..|s| - 1] == prefix;
      s
  }

  /** `id.toString()` for an integral number. */
  function IntToString(n: int): (s: string)
    ensures s != []
    ensures n >= 0 ==> AllDigits(s) && DigitsValue(s) == n
    ensures n < 0 ==> |s| > 1 && s[0] == '-' && AllDigits(s[1..]) && DigitsValue(s[1..]) == -n
    ensures n < 0 ==> s[1] != '0'
    ensures n > 0 ==> s[0] != '0'
    ensures n == 0 ==> s == "0"
  {
    if n < 0 then "-" + DecimalDigits(-n) else DecimalDigits(n)
  }

  /** The input with its leading white space removed. */
  function TrimStart(s: string): (r: string)
    ensures |r| <= |s| && r == s[|s| - |r|..]
    ensures r == [] || !IsJsWhitespace(r[0])
    ensures forall i :: 0 <= i < |s| - |r| ==> IsJsWhitespace(s[i])
  {
    if s != [] && IsJsWhitespace(s[0]) then TrimStart(s[1..]) else s
  }

  /** Length of the longest prefix made of decimal digits. */
  function DigitRun(s: string): (k: nat)
    ensures k <= |s| && AllDigits(s[..k])
    ensures k < |s| ==> !IsDigit(s[k])
  {
    if s != [] && IsDigit(s[0]) then
      var k := 1 + DigitRun(s[1..]);
      assert s[..k] == [s[0]] + s[1..][..k - 1];
      k
    else 0
  }

  /** `parseInt(s, 10)`: skip leading white space, take one optional sign,
      then the longest run of decimal digits; `None` stands for `NaN` (no
      digit at that position). `-0` is the number zero, as `-0 === 0`. */
  function ParseInt(s: string): (r: Option<int>)
    ensures var t := TrimStart(s);
            var k := if t != [] && (t[0] == '-' || t[0] == '+') then 1 else 0;
            && (r.Some? <==> k < |t| && IsDigit(t[k]))
            && (r.Some? ==> (if r.value < 0 then -r.value else r.value)
                              == DigitsValue(t[k..][..DigitRun(t[k..])]))
            && (r.Some? && r.value != 0 ==> (r.value < 0 <==> t[0] == '-'))
  {
    var t := TrimStart(s);
    if t != [] && (t[0] == '-' || t[0] == '+') then
      ParseDigitsAt(t[1..]);
      ParseSigned(t)
    else
      ParseDigitsAt(t);
      ParseSigned(t)
  }

  /** `parseInt` once the white space is gone: an optional sign, then digits. */
  function ParseSigned(t: string): (r: Option<int>)
  {
    if t != [] && t[0] == '-' then Negate(ParseDigits(t[1..]))
    else if t != [] && t[0] == '+' then ParseDigits(t[1..])
    else ParseDigits(t)
  }

  /** The leading digit run read as a number, `None` when there is none. */
  function ParseDigits(body: string): (r: Option<int>)
  {
    var k := DigitRun(body);
    if k == 0 then None else Some(DigitsValue(body[..k]))
  }

  /** A digit run exists exactly when the body starts with a digit. */
  lemma ParseDigitsAt(body: string)
    ensures ParseDigits(body).Some? <==> body != [] && IsDigit(body[0])
    ensures ParseDigits(body).Some? ==> ParseDigits(body).value == DigitsValue(body[..DigitRun(body)])
  {
    if body != [] && IsDigit(body[0]) {
      assert DigitRun(body) > 0;
    }
  }

  function Negate(o: Option<int>): (r: Option<int>)
  {
    match o
    case None => None
    case Some(v) => Some(-v)
  }

  lemma {:induction false} LeadingZeroIgnored(s: string)
    requires AllDigits(s)
    ensures AllDigits("0" + s) && DigitsValue("0" + s) == DigitsValue(s)
  {
    if s != [] {
      var z := "0" + s;
      assert z[..|z| - 1] == "0" + s[..|s| - 1];
      LeadingZeroIgnored(s[..|s| - 1]);
    }
  }

  lemma DigitRunOfDigits(s: string, rest: string)
    requires AllDigits(s)
    requires rest == [] || !IsDigit(rest[0])
    ensures DigitRun(s + rest) == |s|
    ensures (s + rest)[..|s|] == s
  {
  }

  lemma TrimStartNoSpace(s: string)
    requires s != [] && !IsJsWhitespace(s[0])
    ensures TrimStart(s) == s
  {
  }

  lemma ParseDigitsOfRun(d: string, rest: string)
    requires d != [] && AllDigits(d)
    requires rest == [] || !IsDigit(rest[0])
    ensures ParseDigits(d + rest) == Some(DigitsValue(d))
  {
    DigitRunOfDigits(d, rest);
  }

  /** Past a first character that is not white space, `parseInt` reads the sign and digits. */
  lemma ParseIntNoSpace(s: string)
    requires s != [] && !IsJsWhitespace(s[0])
    ensures ParseInt(s) == ParseSigned(s)
  {
    TrimStartNoSpace(s);
  }

  /** `parseInt` of a digit run followed by a tail that does not start with a digit. */
  lemma ParseIntOfDigits(d: string, rest: string)
    requires d != [] && AllDigits(d)
    requires rest == [] || !IsDigit(rest[0])
    ensures ParseInt(d + rest) == Some(DigitsValue(d))
  {
    var s := d + rest;
    assert s[0] == d[0] && IsDigit(s[0]);
    ParseIntNoSpace(s);
    assert ParseSigned(s) == ParseDigits(s);
    ParseDigitsOfRun(d, rest);
  }

  /** The same run after a minus sign reads as the negated value. */
  lemma ParseIntOfNegativeDigits(d: string, rest: string)
    requires d != [] && AllDigits(d)
    requires rest == [] || !IsDigit(rest[0])
    ensures ParseInt("-" + (d + rest)) == Some(0 - DigitsValue(d))
  {
    var x := d + rest;
    var s := "-" + x;
    assert s[0] == '-' && s[1..] == x;
    ParseIntNoSpace(s);
    assert ParseSigned(s) == Negate(ParseDigits(x));
    ParseDigitsOfRun(d, rest);
    assert ParseDigits(x) == Some(DigitsValue(d));
  }

  /** `parseInt` reads back the decimal rendering of any integer, and stops
      at the first character after it that is not a digit. */
  lemma ParseIntReadsPrefix(n: int, rest: string)
    requires rest == [] || !IsDigit(rest[0])
    ensures ParseInt(IntToString(n) + rest) == Some(n)
  {
    if n < 0 {
      var d := DecimalDigits(-n);
      assert IntToString(n) + rest == "-" + (d + rest);
      ParseIntOfNegativeDigits(d, rest);
      assert DigitsValue(d) == -n;
    } else {
      var d := DecimalDigits(n);
      assert IntToString(n) + rest == d + rest;
      ParseIntOfDigits(d, rest);
    }
  }

  /** Decimal rendering and `parseInt` form a round trip on integers. */
  lemma ParseIntOfIntToString(n: int)
    ensures ParseInt(IntToString(n)) == Some(n)
  {
    ParseIntReadsPrefix(n, []);
    assert IntToString(n) + [] == IntToString(n);
  }

  /** Different integers have different decimal renderings. */
  lemma IntToStringInjective(a: int, b: int)
    requires IntToString(a) == IntToString(b)
    ensures a == b
  {
    ParseIntOfIntToString(a);
    ParseIntOfIntToString(b);
  }

  /** Any run of zeros in front of a digit string leaves its value unchanged. */
  lemma {:induction false} LeadingZerosIgnored(z: string, d: string)
    requires forall i :: 0 <= i < |z| ==> z[i] == '0'
    requires AllDigits(d)
    ensures AllDigits(z + d) && DigitsValue(z + d) == DigitsValue(d)
  {
    if z == [] {
      assert z + d == d;
    } else {
      LeadingZerosIgnored(z[1..], d);
      assert z + d == "0" + (z[1..] + d);
      LeadingZeroIgnored(z[1..] + d);
    }
  }

  lemma SignBeforeConcat(z: string, d: string)
    ensures "-" + z + d == "-" + (z + d)
  {
  }

  /** Leading zeros do not change what `parseInt` reads: "009" reads as 9. */
  lemma ParseIntLeadingZeros(z: string, n: nat)
    requires forall i :: 0 <= i < |z| ==> z[i] == '0'
    ensures ParseInt(z + IntToString(n)) == Some(n)
  {
    var d := DecimalDigits(n);
    assert IntToString(n) == d;
    LeadingZerosIgnored(z, d);
    ParseIntOfDigits(z + d, []);
    assert z + d + [] == z + d;
  }

  /** Nor after a minus sign: "-09" reads as -9. */
  lemma ParseIntNegativeLeadingZeros(z: string, n: nat)
    requires forall i :: 0 <= i < |z| ==> z[i] == '0'
    ensures ParseInt("-" + z + IntToString(n)) == Some(-(n as int))
  {
    var d := DecimalDigits(n);
    var x := z + d;
    LeadingZerosIgnored(z, d);
    assert x + [] == x;
    ParseIntOfNegativeDigits(x, []);
    assert ParseInt("-" + x) == Some(-(n as int));
    assert IntToString(n) == d;
    SignBeforeConcat(z, d);
  }

  /** Text without any decimal digit is `NaN`. */
  lemma ParseIntWithoutDigits(s: string)
    requires forall i :: 0 <= i < |s| ==> !IsDigit(s[i])
    ensures ParseInt(s) == None
  {
  }
}
