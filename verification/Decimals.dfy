/** Numbers printed in decimal, and the value of a string of digits. */
module Decimals {
  function Digit(d: nat): (c: char)
    requires d < 10
    ensures IsDigit(c)
  {
    "0123456789"[d]
  }

  predicate IsDigit(c: char) {
    '0' <= c <= '9'
  }

  function DigitValue(c: char): (d: nat)
    requires IsDigit(c)
    ensures d < 10
  {
    c as int - '0' as int
  }

  function Decimal(n: nat): (s: string)
    ensures s != "" && AllDigits(s)
  {
    if n < 10 then [Digit(n)] else Decimal(n / 10) + [Digit(n % 10)]
  }

  predicate AllDigits(s: string) {
    forall i :: 0 <= i < |s| ==> IsDigit(s[i])
  }

  function ValueOfDigits(s: string): nat
    requires AllDigits(s)
  {
    if s == "" then 0 else ValueOfDigits(s[..|s| - 1]) * 10 + DigitValue(s[|s| - 1])
  }

  lemma {:induction false} DecimalRoundTrip(n: nat)
    ensures ValueOfDigits(Decimal(n)) == n
  {
    if n >= 10 {
      DecimalRoundTrip(n / 10);
      assert n / 10 * 10 + n % 10 == n;
      var s := Decimal(n / 10);
      assert (s + [Digit(n % 10)])[..|s|] == s;
    }
  }

  /** `n` without its last `k` digits. */
  function WithoutLast(n: nat, k: nat): nat {
    if k == 0 then n else WithoutLast(n / 10, k - 1)
  }

  /** Digits come highest first, the ones last, and none is spent on a leading zero. */
  lemma {:induction false} DigitsInOrder(n: nat, k: nat)
    ensures var s := Decimal(n);
      && (k < |s| ==> s[|s| - 1 - k] == Digit(WithoutLast(n, k) % 10))
      && (k >= |s| ==> WithoutLast(n, k) == 0)
      && (n > 0 ==> s[0] != '0')
  {
    if n >= 10 {
      DigitsInOrder(n / 10, if k == 0 then 0 else k - 1);
    } else if k > 0 {
      NoneLeft(k - 1);
    }
  }

  lemma {:induction false} NoneLeft(k: nat)
    ensures WithoutLast(0, k) == 0
  {
    if k > 0 {
      NoneLeft(k - 1);
    }
  }
}
