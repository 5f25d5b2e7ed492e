/**
 * Decimal text of integers, as Python's `str(int)` and f-strings write it,
 * and its inverse. The server's connection error message carries its error
 * code this way.
 */
module Decimal {

  predicate IsDigit(c: char)
  {
    '0' <= c <= '9'
  }

  function DigitChar(d: nat): (c: char)
    requires d < 10
    ensures IsDigit(c) && (c as int) - ('0' as int) == d
  {
    "0123456789"[d]
  }

  /** The digits of `n`, most significant first, with no leading zero. */
  function NatDigits(n: nat): (s: string)
    ensures |s| >= 1 && forall i :: 0 <= i < |s| ==> IsDigit(s[i])
    decreases n
  {
    if n < 10 then [DigitChar(n)] else NatDigits(n / 10) + [DigitChar(n % 10)]
  }

  /** `str(n)`: a minus sign before the digits of a negative number. */
  function DecimalString(n: int): string
  {
    if n < 0 then "-" + NatDigits(-n) else NatDigits(n)
  }

  function ParseNat(s: string): nat
    decreases |s|
  {
    if s == [] then 0
    else
      var c := s[|s| - 1];
      ParseNat(s[..|s| - 1]) * 10 + (if IsDigit(c) then (c as int) - ('0' as int) else 0)
  }

  function ParseDecimal(s: string): int
  {
    if |s| > 0 && s[0] == '-' then
      var magnitude: int := ParseNat(s[1..]);
      -magnitude
    else ParseNat(s)
  }

  lemma {:induction false} ParseNatDigits(n: nat)
    ensures ParseNat(NatDigits(n)) == n
    decreases n
  {
    if n >= 10 {
      var s := NatDigits(n / 10) + [DigitChar(n % 10)];
      assert s[..|s| - 1] == NatDigits(n / 10);
      ParseNatDigits(n / 10);
    }
  }

  /** Reading the decimal text back gives the number. */
  lemma ParseDecimalString(n: int)
    ensures ParseDecimal(DecimalString(n)) == n
  {
    if n < 0 {
      var digits := NatDigits(-n);
      assert DecimalString(n) == "-" + digits;
      assert ("-" + digits)[0] == '-' && ("-" + digits)[1..] == digits;
      ParseNatDigits(-n);
    } else {
      var digits := NatDigits(n);
      assert DecimalString(n) == digits;
      assert IsDigit(digits[0]);
      ParseNatDigits(n);
    }
  }

  /** Different numbers have different decimal texts. */
  lemma DecimalStringInjective(a: int, b: int)
    ensures DecimalString(a) == DecimalString(b) <==> a == b
  {
    ParseDecimalString(a);
    ParseDecimalString(b);
  }
}
