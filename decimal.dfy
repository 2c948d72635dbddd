/**
 * Decimal text of natural numbers, as StringBuilder.append(int) prints an
 * integer, and its inverse.
 */
module Decimal {

  predicate IsDigit(c: char) {
    '0' <= c <= '9'
  }

  predicate AllDigits(s: string) {
    forall i :: 0 <= i < |s| ==> IsDigit(s[i])
  }

  function DigitChar(d: nat): (c: char)
    requires d < 10
    ensures IsDigit(c) && c as int - '0' as int == d
  {
    ('0' as int + d) as char
  }

  function DigitValue(c: char): (d: nat)
    requires IsDigit(c)
    ensures d < 10 && DigitChar(d) == c
  {
    c as int - '0' as int
  }

  /** The shortest decimal text of n: only the number 0 starts with '0'. */
  function Digits(n: nat): (s: string)
    ensures |s| >= 1 && AllDigits(s)
    ensures (s[0] == '0') == (n == 0)
    ensures n < 10 <==> |s| == 1
  {
    if n < 10 then [DigitChar(n)] else Digits(n / 10) + [DigitChar(n % 10)]
  }

  /** Reads a digit string back as a number, most significant digit first. */
  function ParseDigits(s: string): nat
    requires AllDigits(s)
  {
    if s == [] then 0 else ParseDigits(s[..|s| - 1]) * 10 + DigitValue(s[|s| - 1])
  }

  lemma {:induction false} ParseDigitsOfDigits(n: nat)
    ensures ParseDigits(Digits(n)) == n
  {
    if n >= 10 {
      var s := Digits(n / 10);
      ParseDigitsOfDigits(n / 10);
      assert (s + [DigitChar(n % 10)])[..|s|] == s;
    }
  }

  /**
   * The text of "%02d": the decimal digits of n, with a leading '0'
   * when n has a single digit.
   */
  function Pad2(n: nat): (s: string)
    ensures AllDigits(s) && ParseDigits(s) == n
    ensures |s| == if n < 10 then 2 else |Digits(n)|
  {
    ParseDigitsOfDigits(n);
    if n < 10 then
      var s := "0" + Digits(n);
      assert s[..1] == "0" && s[..1][..0] == [];
      s
    else Digits(n)
  }

}
