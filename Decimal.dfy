/**
 * How JavaScript renders the numbers the analyzer puts into strings: an
 * integer inside a template literal (the day count of the timeliness
 * details), and `Number.prototype.toFixed(1)` of the total score, which is
 * modelled on an exact count of tenths.
 */
module Decimal {
  import opened Text

  function DigitChar(d: nat): (c: char)
    requires d < 10
    ensures IsDigit(c) && c as int - '0' as int == d
  {
    ('0' as int + d) as char
  }

  function DigitValue(c: char): (d: nat)
    requires IsDigit(c)
    ensures d < 10 && DigitChar(d) == c
  {
    c as int - '0' as int
  }

  predicate AllDigits(s: string) {
    forall k :: 0 <= k < |s| ==> IsDigit(s[k])
  }

  /** The decimal digits of `n`, most significant first, without leading zeros. */
  function NatToString(n: nat): (s: string)
    ensures |s| >= 1 && AllDigits(s)
    ensures s[0] == '0' ==> s == "0"
    decreases n
  {
    if n < 10 then [DigitChar(n)] else NatToString(n / 10) + [DigitChar(n % 10)]
  }

  /** The number a string of decimal digits denotes. */
  function DigitsValue(s: string): nat
    requires AllDigits(s)
  {
    if s == [] then 0 else DigitsValue(s[..|s| - 1]) * 10 + DigitValue(s[|s| - 1])
  }

  /** Reading the digits back gives the number rendered. */
  lemma {:induction false} DigitsValueOfNatToString(n: nat)
    ensures DigitsValue(NatToString(n)) == n
    decreases n
  {
    if n >= 10 {
      var s := NatToString(n);
      assert s[..|s| - 1] == NatToString(n / 10);
      DigitsValueOfNatToString(n / 10);
    }
  }

  lemma NatToStringInjective(a: nat, b: nat)
    requires NatToString(a) == NatToString(b)
    ensures a == b
  {
    DigitsValueOfNatToString(a);
    DigitsValueOfNatToString(b);
  }

  /** `String(i)` for an integer `i`: a minus sign before the digits of a negative number. */
  function IntToString(i: int): (s: string)
    ensures |s| >= 1
    ensures s[0] == '-' <==> i < 0
  {
    if i < 0 then "-" + NatToString(-i) else NatToString(i)
  }

  /** Different integers are rendered differently. */
  lemma IntToStringInjective(a: int, b: int)
    requires IntToString(a) == IntToString(b)
    ensures a == b
  {
    if a < 0 {
      assert IntToString(a)[1..] == NatToString(-a);
      assert IntToString(b)[1..] == NatToString(-b);
      NatToStringInjective(-a, -b);
    } else {
      NatToStringInjective(a, b);
    }
  }

  /** `(tenths / 10).toFixed(1)` for a non-negative count of tenths: digits, a point, one digit. */
  function FixedOneDecimal(tenths: nat): (s: string)
    ensures |s| >= 3 && s[|s| - 2] == '.' && IsDigit(s[|s| - 1])
    ensures AllDigits(s[..|s| - 2])
  {
    var s := NatToString(tenths / 10) + "." + [DigitChar(tenths % 10)];
    assert s[..|s| - 2] == NatToString(tenths / 10);
    s
  }

  /** The count of tenths a one-decimal rendering denotes. */
  function TenthsValue(s: string): nat
    requires |s| >= 3 && IsDigit(s[|s| - 1]) && AllDigits(s[..|s| - 2])
  {
    DigitsValue(s[..|s| - 2]) * 10 + DigitValue(s[|s| - 1])
  }

  /** The rendered total determines the total exactly. */
  lemma FixedOneDecimalRoundTrip(tenths: nat)
    ensures TenthsValue(FixedOneDecimal(tenths)) == tenths
  {
    var s := FixedOneDecimal(tenths);
    assert s[..|s| - 2] == NatToString(tenths / 10);
    DigitsValueOfNatToString(tenths / 10);
  }
}
