/** Decimal rendering of integers, as used to turn a numeric county code into
    the text compared against a boundary feature's `GEOID`. Python's
    `str(int(x))` writes no leading zeros and a `-` for negative values. */
module Fips {
  import opened Records

  predicate IsDigit(c: char) {
    '0' <= c <= '9'
  }

  predicate AllDigits(s: string) {
    forall i :: 0 <= i < |s| ==> IsDigit(s[i])
  }

  function DigitChar(d: nat): (c: char)
    requires d < 10
    ensures IsDigit(c)
  {
    "0123456789"[d]
  }

  function DigitValue(c: char): (d: nat)
    requires IsDigit(c)
    ensures d < 10
  {
    (c as int) - ('0' as int)
  }

  /** The digits of a natural number, most significant first, without leading zeros. */
  function Digits(n: nat): (s: string)
    ensures |s| >= 1
    ensures AllDigits(s)
    ensures s[0] == '0' ==> n == 0
  {
    if n < 10 then [DigitChar(n)]
    else Digits(n / 10) + [DigitChar(n % 10)]
  }

  /** The value of a string of digits. */
  function DigitsValue(s: string): nat
    requires AllDigits(s)
  {
    if s == [] then 0
    else DigitsValue(s[..|s| - 1]) * 10 + DigitValue(s[|s| - 1])
  }

  lemma {:induction false} DigitsRoundTrip(n: nat)
    ensures DigitsValue(Digits(n)) == n
  {
    var s := Digits(n);
    if n < 10 {
      assert s[..0] == [];
    } else {
      DigitsRoundTrip(n / 10);
      assert s[..|s| - 1] == Digits(n / 10);
    }
  }

  /** Python `str` of an integer. */
  function DecimalString(n: int): (s: string)
    ensures |s| >= 1
    ensures n >= 0 ==> AllDigits(s)
    ensures n < 0 ==> s[0] == '-' && AllDigits(s[1..])
    ensures s[0] == '0' ==> s == "0"
  {
    if n < 0 then "-" + Digits(-n) else Digits(n)
  }

  /** The decimal reader the round trip uses: an optional `-` followed by
      one or more ASCII digits, or None for any other string. */
  function ParseDecimal(s: string): (r: Option<int>)
  {
    if |s| >= 2 && s[0] == '-' && AllDigits(s[1..]) then Some(-(DigitsValue(s[1..]) as int))
    else if |s| >= 1 && AllDigits(s) then Some(DigitsValue(s))
    else None
  }

  /** Rendering an integer and reading it back gives the integer. */
  lemma DecimalRoundTrip(n: int)
    ensures ParseDecimal(DecimalString(n)) == Some(n)
  {
    var s := DecimalString(n);
    if n < 0 {
      var m: nat := -n;
      assert s == "-" + Digits(m);
      assert s[1..] == Digits(m);
      DigitsRoundTrip(m);
      assert ParseDecimal(s) == Some(-(m as int));
    } else {
      assert s == Digits(n);
      DigitsRoundTrip(n);
      assert IsDigit(s[0]);
      assert ParseDecimal(s) == Some(DigitsValue(s));
    }
  }

  /** Different codes never render to the same text, so one `GEOID` matches at most one code. */
  lemma DecimalStringInjective(a: int, b: int)
    requires DecimalString(a) == DecimalString(b)
    ensures a == b
  {
    DecimalRoundTrip(a);
    DecimalRoundTrip(b);
  }

  /** A zero-padded identifier such as "01001" is never the rendering of any code. */
  lemma ZeroPaddedNeverRendered(n: int, geoid: string)
    requires |geoid| >= 2 && geoid[0] == '0'
    ensures DecimalString(n) != geoid
  {
  }
}
