/**
 * The two number conversions the application performs on strings: `parseInt(s)` with no
 * radix, and the decimal rendering of an integer inside a template literal.
 */
module JsNumber {
  import opened Wrappers
  import opened Text

  predicate IsDigit(c: char) {
    '0' <= c <= '9'
  }

  function DigitValue(c: char): nat
    requires IsDigit(c)
  {
    c as int - '0' as int
  }

  predicate IsHexDigit(c: char) {
    IsDigit(c) || 'a' <= c <= 'f' || 'A' <= c <= 'F'
  }

  function HexDigitValue(c: char): nat
    requires IsHexDigit(c)
  {
    if IsDigit(c) then DigitValue(c)
    else if 'a' <= c <= 'f' then c as int - 'a' as int + 10
    else c as int - 'A' as int + 10
  }

  /** The length of the longest prefix of `s` made of characters that `digit` accepts. */
  function PrefixLength(s: string, digit: char -> bool): (n: nat)
    ensures n <= |s|
    ensures forall i :: 0 <= i < n ==> digit(s[i])
    ensures n == |s| || !digit(s[n])
    decreases |s|
  {
    if |s| > 0 && digit(s[0]) then 1 + PrefixLength(s[1..], digit) else 0
  }

  /** The value of a numeral written in base `base` (most significant digit first). */
  function NumeralValue(ds: string, base: nat, digit: char -> bool, value: char --> nat): nat
    requires forall i :: 0 <= i < |ds| ==> digit(ds[i]) && value.requires(ds[i])
    decreases |ds|
  {
    if |ds| == 0 then 0
    else NumeralValue(ds[..|ds| - 1], base, digit, value) * base + value(ds[|ds| - 1])
  }

  /**
   * `parseInt(s)` without a radix: skip leading white space, read an optional sign, then
   * either `0x`/`0X` and hexadecimal digits, or decimal digits; stop at the first other
   * character. `None` stands for `NaN`, the result when no digit is read.
   */
  function ParseInt(s: string): Option<int> {
    var t := TrimStart(s);
    var negative := |t| > 0 && t[0] == '-';
    var u := if |t| > 0 && (t[0] == '-' || t[0] == '+') then t[1..] else t;
    match ParseMagnitude(u)
    case None => None
    case Some(m) => Some(if negative then -(m as int) else m)
  }

  /** The unsigned part of `parseInt`: a hexadecimal numeral after `0x`/`0X`, otherwise a decimal one. */
  function ParseMagnitude(u: string): Option<nat> {
    if |u| >= 2 && u[0] == '0' && (u[1] == 'x' || u[1] == 'X') then
      var n := PrefixLength(u[2..], IsHexDigit);
      if n == 0 then None else Some(NumeralValue(u[2..][..n], 16, IsHexDigit, HexDigitValue))
    else
      var n := PrefixLength(u, IsDigit);
      if n == 0 then None else Some(NumeralValue(u[..n], 10, IsDigit, DigitValue))
  }

  /** The decimal numeral of a natural number, without leading zeros. */
  function NatToString(n: nat): (r: string)
    ensures |r| >= 1
    ensures forall i :: 0 <= i < |r| ==> IsDigit(r[i])
    ensures |r| > 1 || n < 10
    ensures n >= 10 ==> r[0] != '0'
    ensures 0 < n < 10 ==> r[0] != '0'
  {
    var d := ['0' + ((n % 10) as char)];
    if n < 10 then d else NatToString(n / 10) + d
  }

  /** `${n}` for an integer `n`. */
  function IntToString(n: int): (r: string)
    ensures |r| >= 1
  {
    if n < 0 then "-" + NatToString(-n) else NatToString(n)
  }

  lemma {:induction false} DecimalValueOfNatToString(n: nat)
    ensures NumeralValue(NatToString(n), 10, IsDigit, DigitValue) == n
  {
    var r := NatToString(n);
    if n >= 10 {
      DecimalValueOfNatToString(n / 10);
      assert r[..|r| - 1] == NatToString(n / 10);
    }
  }

  /** The digit run of `ds + rest` is exactly `ds` when `rest` does not start with a digit. */
  lemma DigitRun(ds: string, rest: string)
    requires forall i :: 0 <= i < |ds| ==> IsDigit(ds[i])
    requires rest == [] || !IsDigit(rest[0])
    ensures PrefixLength(ds + rest, IsDigit) == |ds|
    ensures (ds + rest)[..|ds|] == ds
    decreases |ds|
  {
    if |ds| > 0 {
      DigitRun(ds[1..], rest);
      assert (ds + rest)[1..] == ds[1..] + rest;
    }
  }

  /**
   * `parseInt` reads back the decimal rendering of any integer, also when other text follows,
   * as in `parseInt("34 years")`, unless that text continues the numeral (a digit) or turns
   * a leading `0` into the hexadecimal prefix `0x`.
   */
  lemma ParseIntOfIntToString(n: int, rest: string)
    requires rest == [] || (!IsDigit(rest[0]) && rest[0] != 'x' && rest[0] != 'X')
    ensures ParseInt(IntToString(n) + rest) == Some(n)
  {
    if n < 0 {
      ParseNegativeInt(n, rest);
    } else {
      ParseNatRendering(n, rest);
    }
  }

  lemma ParseNegativeInt(n: int, rest: string)
    requires n < 0
    requires rest == [] || (!IsDigit(rest[0]) && rest[0] != 'x' && rest[0] != 'X')
    ensures ParseInt(IntToString(n) + rest) == Some(n)
  {
    ParseNegativeRendering(-n, rest);
  }

  lemma ParseNatRendering(m: nat, rest: string)
    requires rest == [] || (!IsDigit(rest[0]) && rest[0] != 'x' && rest[0] != 'X')
    ensures ParseInt(NatToString(m) + rest) == Some(m)
  {
    var ds := NatToString(m);
    DecimalValueOfNatToString(m);
    MagnitudeOfDigits(ds, rest);
    ParseIntUnsigned(ds + rest, m);
  }

  lemma ParseNegativeRendering(m: nat, rest: string)
    requires rest == [] || (!IsDigit(rest[0]) && rest[0] != 'x' && rest[0] != 'X')
    ensures ParseInt("-" + NatToString(m) + rest) == Some(-(m as int))
  {
    var ds := NatToString(m);
    DecimalValueOfNatToString(m);
    MagnitudeOfDigits(ds, rest);
    ParseIntNegative(ds + rest, m);
    ConcatAssoc("-", ds, rest);
  }

  lemma ConcatAssoc(a: string, b: string, c: string)
    ensures a + b + c == a + (b + c)
  {
  }

  /** A numeral that starts with a digit is read without a sign. */
  lemma ParseIntUnsigned(u: string, m: nat)
    requires |u| > 0 && IsDigit(u[0]) && ParseMagnitude(u) == Some(m)
    ensures ParseInt(u) == Some(m)
  {
    assert !IsSpace(u[0]) && u[0] != '-' && u[0] != '+';
    assert TrimStart(u) == u;
  }

  /** A `-` followed by a numeral that starts with a digit is read as its negation. */
  lemma ParseIntNegative(u: string, m: nat)
    requires |u| > 0 && IsDigit(u[0]) && ParseMagnitude(u) == Some(m)
    ensures ParseInt("-" + u) == Some(-(m as int))
  {
    var t := "-" + u;
    assert t[0] == '-' && !IsSpace(t[0]);
    assert TrimStart(t) == t;
    assert t[1..] == u;
  }

  lemma MagnitudeOfDigits(ds: string, rest: string)
    requires |ds| > 0 && forall i :: 0 <= i < |ds| ==> IsDigit(ds[i])
    requires rest == [] || (!IsDigit(rest[0]) && rest[0] != 'x' && rest[0] != 'X')
    ensures ParseMagnitude(ds + rest) == Some(NumeralValue(ds, 10, IsDigit, DigitValue))
    ensures (ds + rest)[0] == ds[0]
  {
    var u := ds + rest;
    assert u[0] == ds[0];
    assert |ds| > 1 ==> u[1] == ds[1];
    assert |ds| == 1 && |rest| > 0 ==> u[1] == rest[0];
    DigitRun(ds, rest);
  }
}
