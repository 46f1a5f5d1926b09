/**
  Decimal text of integers, as a JavaScript template literal writes a whole
  number: an optional minus sign, then the digits, with no leading zeros.
  JavaScript numbers are doubles, which spell magnitudes from 10^21 on with an
  exponent and are inexact above 2^53; tile indices and levels stay far below
  both, and these functions spell every integer in plain digits.
  The tile locator is built from these, so the file layout on disk depends on
  exactly this spelling. `DecimalValue` reads the text back and is the partner
  that makes the spelling unambiguous.
*/
module Decimal {

  predicate IsDigit(c: char) {
    '0' <= c <= '9'
  }

  predicate AllDigits(s: string) {
    forall i :: 0 <= i < |s| ==> IsDigit(s[i])
  }

  /** A minus sign followed by digits, or digits alone; never empty. */
  predicate IsSignedDecimal(s: string) {
    if |s| > 0 && s[0] == '-' then |s| > 1 && AllDigits(s[1..]) else |s| > 0 && AllDigits(s)
  }

  function DigitChar(d: nat): (c: char)
    requires d < 10
    ensures IsDigit(c) && DigitValue(c) == d
  {
    (('0' as int) + d) as char
  }

  function DigitValue(c: char): (d: nat)
    requires IsDigit(c)
    ensures d < 10
  {
    (c as int) - ('0' as int)
  }

  /** The text of a non-negative whole number. */
  function NatToDecimal(n: nat): (s: string)
    ensures |s| >= 1 && AllDigits(s)
    ensures s[0] == '0' <==> n == 0
    decreases n
  {
    if n < 10 then [DigitChar(n)] else NatToDecimal(n / 10) + [DigitChar(n % 10)]
  }

  /** The text of any whole number: a minus sign before the magnitude when negative. */
  function IntToDecimal(i: int): (s: string)
    ensures IsSignedDecimal(s)
    ensures s[0] == '-' <==> i < 0
    ensures var digits := if i < 0 then s[1..] else s; digits[0] == '0' <==> i == 0
  {
    if i < 0 then "-" + NatToDecimal(-i) else NatToDecimal(i)
  }

  /** The number that a string of digits denotes, most significant digit first. */
  function DecimalValue(s: string): (n: nat)
    requires AllDigits(s)
    decreases |s|
  {
    if s == [] then 0 else DecimalValue(s[..|s| - 1]) * 10 + DigitValue(s[|s| - 1])
  }

  function SignedDecimalValue(s: string): (i: int)
    requires IsSignedDecimal(s)
  {
    if s[0] == '-' then -(DecimalValue(s[1..]) as int) else DecimalValue(s)
  }

  lemma {:induction false} NatToDecimalRoundTrip(n: nat)
    ensures DecimalValue(NatToDecimal(n)) == n
    decreases n
  {
    if n >= 10 {
      NatToDecimalRoundTrip(n / 10);
      var s := NatToDecimal(n);
      assert s[..|s| - 1] == NatToDecimal(n / 10);
    }
  }

  lemma IntToDecimalRoundTrip(i: int)
    ensures SignedDecimalValue(IntToDecimal(i)) == i
  {
    if i < 0 {
      NatToDecimalRoundTrip(-i);
      assert IntToDecimal(i)[1..] == NatToDecimal(-i);
    } else {
      NatToDecimalRoundTrip(i);
    }
  }

  /** Different numbers are spelled differently. */
  lemma NatToDecimalInjective(m: nat, n: nat)
    ensures NatToDecimal(m) == NatToDecimal(n) <==> m == n
  {
    NatToDecimalRoundTrip(m);
    NatToDecimalRoundTrip(n);
  }

  lemma IntToDecimalInjective(i: int, j: int)
    ensures IntToDecimal(i) == IntToDecimal(j) <==> i == j
  {
    IntToDecimalRoundTrip(i);
    IntToDecimalRoundTrip(j);
  }

  /** The spelling of a number holds neither of the separators of a tile locator. */
  lemma DecimalHasNoSeparators(i: int)
    ensures '/' !in IntToDecimal(i) && '_' !in IntToDecimal(i)
    ensures i >= 0 ==> '/' !in NatToDecimal(i) && '_' !in NatToDecimal(i)
  {
  }
}
