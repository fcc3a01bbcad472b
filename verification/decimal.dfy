/**
 Decimal rendering of integers as Go's `fmt` prints them with `%d` and `%v`
 (shortest digit string, a leading '-' for negatives), and its inverse.
 */
module Decimal {
  import opened Options

  predicate IsDigit(c: char) {
    '0' <= c <= '9'
  }

  predicate AllDigits(s: string) {
    forall i :: 0 <= i < |s| ==> IsDigit(s[i])
  }

  predicate AllZeros(s: string) {
    forall i :: 0 <= i < |s| ==> s[i] == '0'
  }

  function DigitValue(c: char): (d: nat)
    requires IsDigit(c)
    ensures d < 10
  {
    c as int - '0' as int
  }

  function DigitChar(d: nat): (c: char)
    requires d < 10
    ensures IsDigit(c) && DigitValue(c) == d
  {
    ('0' as int + d) as char
  }

  /** The value of a digit string, most significant digit first; leading zeros are allowed. */
  function DigitsValue(s: string): nat
    requires AllDigits(s)
  {
    if s == [] then 0 else DigitsValue(s[..|s| - 1]) * 10 + DigitValue(s[|s| - 1])
  }

  /** The canonical rendering of a natural number: at least one digit, no leading zero. */
  function NatToDecimal(n: nat): (s: string)
    ensures 1 <= |s| && AllDigits(s)
    ensures s[0] == '0' <==> n == 0
    decreases n
  {
    if n < 10 then [DigitChar(n)] else NatToDecimal(n / 10) + [DigitChar(n % 10)]
  }

  /** Go's `%d`/`%v` of a signed integer. */
  function IntToDecimal(x: int): (s: string)
    ensures 1 <= |s|
    ensures s[0] == '-' <==> x < 0
    ensures x >= 0 ==> AllDigits(s)
    ensures x < 0 ==> AllDigits(s[1..])
  {
    if x < 0 then "-" + NatToDecimal(-x) else NatToDecimal(x)
  }

  /** Reads a non-empty digit string; leading zeros are accepted. */
  function ParseNat(s: string): Option<nat> {
    if 1 <= |s| && AllDigits(s) then Some(DigitsValue(s)) else None
  }

  /** Reads an optional '-' followed by a non-empty digit string. */
  function ParseInt(s: string): Option<int> {
    if 1 <= |s| && s[0] == '-' then
      match ParseNat(s[1..])
      case Some(n) => Some(-(n as int))
      case None => None
    else
      match ParseNat(s)
      case Some(n) => Some(n as int)
      case None => None
  }

  /** Rendering then reading a natural number gives it back. */
  lemma {:induction false} NatToDecimalValue(n: nat)
    ensures DigitsValue(NatToDecimal(n)) == n
    decreases n
  {
    if n >= 10 {
      NatToDecimalValue(n / 10);
      var s := NatToDecimal(n);
      assert s[..|s| - 1] == NatToDecimal(n / 10);
    }
  }

  lemma {:induction false} LeadingDigitBound(s: string)
    requires 1 <= |s| && AllDigits(s)
    ensures DigitsValue(s) >= DigitValue(s[0])
    decreases |s|
  {
    if |s| > 1 {
      LeadingDigitBound(s[..|s| - 1]);
    }
  }

  /** The converse: every canonical digit string is the rendering of its value. */
  lemma {:induction false} DecimalOfValue(s: string)
    requires 1 <= |s| && AllDigits(s)
    requires s[0] == '0' ==> |s| == 1
    ensures NatToDecimal(DigitsValue(s)) == s
    decreases |s|
  {
    var v := DigitsValue(s);
    if |s| == 1 {
      assert s == [DigitChar(DigitValue(s[0]))];
    } else {
      var p := s[..|s| - 1];
      LeadingDigitBound(p);
      assert DigitsValue(p) >= 1;
      assert v / 10 == DigitsValue(p) && v % 10 == DigitValue(s[|s| - 1]);
      DecimalOfValue(p);
      assert DigitChar(DigitValue(s[|s| - 1])) == s[|s| - 1];
      assert s == p + [s[|s| - 1]];
    }
  }

  lemma {:induction false} ZerosValue(z: string)
    requires AllZeros(z)
    ensures AllDigits(z) && DigitsValue(z) == 0
    decreases |z|
  {
    if z != [] {
      ZerosValue(z[..|z| - 1]);
    }
  }

  /** Leading zeros do not change the value of a digit string. */
  lemma {:induction false} LeadingZerosValue(z: string, s: string)
    requires AllZeros(z) && AllDigits(s)
    ensures AllDigits(z + s) && DigitsValue(z + s) == DigitsValue(s)
    decreases |s|
  {
    if s == [] {
      assert z + s == z;
      ZerosValue(z);
    } else {
      LeadingZerosValue(z, s[..|s| - 1]);
      assert (z + s)[..|z + s| - 1] == z + s[..|s| - 1];
    }
  }

  /** Reading what `IntToDecimal` renders gives back the integer. */
  lemma ParseIntOfDecimal(x: int)
    ensures ParseInt(IntToDecimal(x)) == Some(x)
  {
    if x < 0 {
      NatToDecimalValue(-x);
      assert IntToDecimal(x)[1..] == NatToDecimal(-x);
    } else {
      NatToDecimalValue(x);
    }
  }
}
