/**
 * Decimal text of integers, as Python's `"{}".format(n)` writes it:
 * digits without leading zeros, a leading '-' for negative values.
 * `ParseDecimal` reads such text back and is the partner of `IntDecimal`.
 */
module Decimal {
  import opened Wrappers

  predicate IsDigit(c: char) {
    '0' <= c <= '9'
  }

  predicate AllDigits(s: string) {
    forall i :: 0 <= i < |s| ==> IsDigit(s[i])
  }

  function DigitChar(d: nat): (c: char)
    requires d < 10
    ensures IsDigit(c)
    ensures c as int - '0' as int == d
  {
    (d + '0' as int) as char
  }

  function DigitValue(c: char): nat
    requires IsDigit(c)
  {
    c as int - '0' as int
  }

  /** Decimal digits of `n`, most significant first. */
  function NatDecimal(n: nat): (s: string)
    ensures |s| > 0 && AllDigits(s)
    ensures |s| > 1 ==> s[0] != '0'
    decreases n
  {
    if n < 10 then [DigitChar(n)] else NatDecimal(n / 10) + [DigitChar(n % 10)]
  }

  /** Python's `str(n)` for an integer. */
  function IntDecimal(n: int): (s: string)
    ensures '/' !in s
  {
    if n < 0 then "-" + NatDecimal(-n) else NatDecimal(n)
  }

  /** Value of a non-empty run of digits. */
  function ParseNat(s: string): nat
    requires |s| > 0 && AllDigits(s)
    decreases |s|
  {
    if |s| == 1 then DigitValue(s[0])
    else ParseNat(s[..|s| - 1]) * 10 + DigitValue(s[|s| - 1])
  }

  /** Reads an optionally negative decimal integer; `None` for any other text. */
  function ParseDecimal(s: string): Option<int> {
    if |s| > 1 && s[0] == '-' && AllDigits(s[1..]) then Some(-(ParseNat(s[1..]) as int))
    else if |s| > 0 && AllDigits(s) then Some(ParseNat(s))
    else None
  }

  lemma {:induction false} ParseNatDecimal(n: nat)
    ensures ParseNat(NatDecimal(n)) == n
    decreases n
  {
    if n >= 10 {
      var s := NatDecimal(n);
      ParseNatDecimal(n / 10);
      assert s[..|s| - 1] == NatDecimal(n / 10);
      assert DigitValue(s[|s| - 1]) == n % 10;
    }
  }

  /** Reading back the decimal text of any integer gives that integer. */
  lemma DecimalRoundTrip(n: int)
    ensures ParseDecimal(IntDecimal(n)) == Some(n)
  {
    var s := IntDecimal(n);
    if n < 0 {
      ParseNatDecimal(-n);
      assert s[1..] == NatDecimal(-n);
    } else {
      ParseNatDecimal(n);
      assert s[0] != '-';
    }
  }

  /** Distinct integers have distinct decimal texts. */
  lemma DecimalInjective(m: int, n: int)
    requires IntDecimal(m) == IntDecimal(n)
    ensures m == n
  {
    DecimalRoundTrip(m);
    DecimalRoundTrip(n);
  }
}
