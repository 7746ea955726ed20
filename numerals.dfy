/** Decimal digits and numerals over ASCII characters: the digit filter used by
    `extract_number` and the numeral `str(n)` typed into the date form. */
module Numerals {

  predicate IsDigit(c: char) {
    '0' <= c <= '9'
  }

  predicate AllDigits(s: string) {
    forall k :: 0 <= k < |s| ==> IsDigit(s[k])
  }

  function DigitValue(c: char): (v: nat)
    requires IsDigit(c)
    ensures v < 10
  {
    (c as int) - ('0' as int)
  }

  function DigitChar(v: nat): (c: char)
    requires v < 10
    ensures IsDigit(c) && DigitValue(c) == v
  {
    (('0' as int) + v) as char
  }

  /** The value of a string of decimal digits, most significant first, as
      `float` reads it; the empty string has value 0. The value is 0 exactly
      when every digit is '0'. */
  function DigitsValue(s: string): (v: nat)
    requires AllDigits(s)
    ensures v == 0 <==> forall k :: 0 <= k < |s| ==> s[k] == '0'
  {
    if s == [] then 0 else DigitsValue(s[..|s| - 1]) * 10 + DigitValue(s[|s| - 1])
  }

  /** `str(n)` for a non-negative Python int: no sign, no leading zeros. */
  function Numeral(n: nat): (r: string)
    ensures |r| >= 1 && AllDigits(r)
    ensures n >= 10 ==> |r| >= 2
    ensures r[0] == '0' <==> n == 0
  {
    if n < 10 then [DigitChar(n)] else Numeral(n / 10) + [DigitChar(n % 10)]
  }

  /** Reading back a numeral gives the number it was written from. */
  lemma {:induction false} NumeralValue(n: nat)
    ensures DigitsValue(Numeral(n)) == n
  {
    var r := Numeral(n);
    if n >= 10 {
      NumeralValue(n / 10);
      assert r[..|r| - 1] == Numeral(n / 10);
    }
  }

  /** A non-empty digit string that does not start with '0' has a positive value. */
  lemma {:induction false} LeadingNonZeroPositive(s: string)
    requires s != [] && AllDigits(s) && s[0] != '0'
    ensures DigitsValue(s) >= 1
  {
    if |s| > 1 {
      LeadingNonZeroPositive(s[..|s| - 1]);
    }
  }

  /** Leading zeros do not change the value: `float("007")` is 7. */
  lemma {:induction false} LeadingZero(s: string)
    requires AllDigits(s)
    ensures AllDigits("0" + s) && DigitsValue("0" + s) == DigitsValue(s)
  {
    if s != [] {
      LeadingZero(s[..|s| - 1]);
      assert ("0" + s)[..|s|] == "0" + s[..|s| - 1];
    }
  }

  /** Writing out the value of a digit string without leading zeros gives the
      string back: the numerals are exactly these strings. */
  lemma {:induction false} ValueNumeral(s: string)
    requires s != [] && AllDigits(s) && (s[0] != '0' || |s| == 1)
    ensures Numeral(DigitsValue(s)) == s
  {
    if |s| > 1 {
      var p := s[..|s| - 1];
      LeadingNonZeroPositive(p);
      ValueNumeral(p);
      var v := DigitsValue(s);
      assert v / 10 == DigitsValue(p) && v % 10 == DigitValue(s[|s| - 1]);
      assert s == p + [s[|s| - 1]];
    }
  }

  /** A numeral of n has exactly four characters when 1000 <= n < 10000. */
  lemma NumeralLengthFour(n: nat)
    requires 1000 <= n < 10000
    ensures |Numeral(n)| == 4
  {
    assert Numeral(n) == Numeral(n / 10) + [DigitChar(n % 10)];
    assert Numeral(n / 10) == Numeral(n / 100) + [DigitChar(n / 10 % 10)];
    assert Numeral(n / 100) == Numeral(n / 1000) + [DigitChar(n / 100 % 10)];
  }
}
