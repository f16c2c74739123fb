/**
  Decimal text of integers, as JavaScript's `String(n)`, template literals
  and Redis' storage of numeric values produce it, together with its inverse.
 */
module Decimal {

  predicate IsDigit(c: char) {
    '0' <= c <= '9'
  }

  predicate AllDigits(s: string) {
    forall i :: 0 <= i < |s| ==> IsDigit(s[i])
  }

  function DigitValue(c: char): (d: nat)
    requires IsDigit(c)
    ensures d < 10
  {
    (c as int) - ('0' as int)
  }

  function DigitChar(d: nat): (c: char)
    requires d < 10
    ensures IsDigit(c) && DigitValue(c) == d
  {
    (('0' as int) + d) as char
  }

  function Pow10(k: nat): (p: nat)
    ensures p >= 1
  {
    if k == 0 then 1 else 10 * Pow10(k - 1)
  }

  /** The shortest decimal text of `n`: no sign, no leading zero. */
  function NatToText(n: nat): (s: string)
    ensures |s| >= 1 && AllDigits(s)
    ensures s[0] == '0' <==> n == 0
  {
    if n < 10 then [DigitChar(n)] else NatToText(n / 10) + [DigitChar(n % 10)]
  }

  /** The text of an integer, with a leading `-` when it is negative. */
  function IntToText(i: int): (s: string)
    ensures |s| >= 1
    ensures s[0] == '-' <==> i < 0
  {
    if i < 0 then "-" + NatToText(-i) else NatToText(i)
  }

  /** The number a string of digits denotes. */
  function ValueOf(s: string): nat
    requires AllDigits(s)
  {
    if |s| == 0 then 0 else 10 * ValueOf(s[..|s| - 1]) + DigitValue(s[|s| - 1])
  }

  /** Reading back the text of `n` gives `n`. */
  lemma {:induction false} ValueOfNatToText(n: nat)
    ensures ValueOf(NatToText(n)) == n
  {
    if n >= 10 {
      var s := NatToText(n);
      assert s[..|s| - 1] == NatToText(n / 10);
      ValueOfNatToText(n / 10);
    }
  }

  /** Distinct numbers have distinct texts. */
  lemma NatToTextInjective(a: nat, b: nat)
    ensures NatToText(a) == NatToText(b) ==> a == b
  {
    ValueOfNatToText(a);
    ValueOfNatToText(b);
  }

  /** A number with exactly `k` digits has a text of length `k`. */
  lemma {:induction false} NatToTextLength(n: nat, k: nat)
    requires k >= 1 && Pow10(k - 1) <= n < Pow10(k)
    ensures |NatToText(n)| == k
  {
    if k == 1 {
      assert n < 10;
    } else {
      assert Pow10(k - 1) == 10 * Pow10(k - 2);
      assert n >= 10;
      NatToTextLength(n / 10, k - 1);
    }
  }

  /** Every number from 100000 to 999999 is written with exactly six digits. */
  lemma SixDigitText(n: nat)
    requires 100000 <= n <= 999999
    ensures |NatToText(n)| == 6
  {
    assert Pow10(5) == 100000 && Pow10(6) == 1000000;
    NatToTextLength(n, 6);
  }
}
