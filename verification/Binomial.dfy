/** Binomial coefficients and the exact program for them. */
module Binomial {
  import opened Arithmetic

  /** Pascal's triangle: the ways to choose `k` of `n`. */
  function Choose(n: nat, k: nat): nat {
    if k == 0 then 1 else if n == 0 then 0 else Choose(n - 1, k - 1) + Choose(n - 1, k)
  }

  lemma {:induction false} ChooseTooMany(n: nat, k: nat)
    requires k > n
    ensures Choose(n, k) == 0
  {
    if n > 0 {
      ChooseTooMany(n - 1, k - 1);
      ChooseTooMany(n - 1, k);
    }
  }

  lemma {:induction false} ChooseAll(n: nat)
    ensures Choose(n, n) == 1
  {
    if n > 0 {
      ChooseAll(n - 1);
      ChooseTooMany(n - 1, n);
    }
  }

  lemma {:induction false} ChoosePositive(n: nat, k: nat)
    requires k <= n
    ensures Choose(n, k) >= 1
  {
    if k > 0 {
      ChoosePositive(n - 1, k - 1);
    }
  }

  lemma {:induction false} ChooseSymmetric(n: nat, k: nat)
    requires k <= n
    ensures Choose(n, k) == Choose(n, n - k)
  {
    if k == 0 || k == n {
      ChooseAll(n);
    } else {
      ChooseSymmetric(n - 1, k - 1);
      ChooseSymmetric(n - 1, k);
    }
  }

  lemma DistributeLeft(a: int, x: int, y: int)
    ensures a * (x + y) == a * x + a * y
  {
  }

  lemma DistributeRight(a: int, b: int, x: int)
    ensures (a + b) * x == a * x + b * x
  {
  }

  lemma StepFromAbove(n: int, k: int, c0: int, c1: int, c2: int)
    requires k * c2 == (n - k) * c1 && (k - 1) * c1 == (n - k + 1) * c0
    ensures k * (c1 + c2) == (n - k + 1) * (c0 + c1)
  {
    DistributeLeft(k, c1, c2);
    DistributeRight(k, n - k, c1);
    DistributeLeft(n - k + 1, c0, c1);
    DistributeRight(k - 1, n - k + 1, c1);
  }

  /** Neighbours in a row of the triangle: what makes every division exact. */
  lemma {:induction false} ChooseStep(n: nat, k: nat)
    requires 1 <= k <= n + 1
    ensures k * Choose(n, k) == (n - k + 1) * Choose(n, k - 1)
  {
    if k == n + 1 {
      ChooseTooMany(n, k);
    } else if k == 1 {
      ChooseOne(n);
    } else {
      ChooseStep(n - 1, k);
      ChooseStep(n - 1, k - 1);
      StepFromAbove(n, k, Choose(n - 1, k - 2), Choose(n - 1, k - 1), Choose(n - 1, k));
    }
  }

  lemma {:induction false} ChooseOne(n: nat)
    ensures Choose(n, 1) == n
  {
    if n > 0 {
      ChooseOne(n - 1);
    }
  }

  lemma ExactQuotient(x: nat, d: nat, q: nat)
    requires d >= 1 && x == d * q
    ensures x % d == 0 && x / d == q
  {
    RemainderUnique(q, 0, d);
    assert x == q * d + 0;
  }

  lemma NextQuotient(n: nat, i: nat, result: nat)
    requires 1 <= i <= n && result == Choose(n, i - 1)
    ensures result * (n - i + 1) % i == 0 && result * (n - i + 1) / i == Choose(n, i)
  {
    ChooseStep(n, i);
    ExactQuotient(result * (n - i + 1), i, Choose(n, i));
  }

  /** The multiplicative program; the assert says that no division leaves a remainder. */
  method ExactBinomial(n: nat, k0: nat) returns (result: nat)
    ensures result == Choose(n, k0)
  {
    if k0 > n {
      ChooseTooMany(n, k0);
      return 0;
    }
    if k0 == 0 || k0 == n {
      ChooseAll(n);
      return 1;
    }
    var k := k0;
    if k > n / 2 {
      ChooseSymmetric(n, k);
      k := n - k;
    }
    result := 1;
    for i := 1 to k + 1
      invariant result == Choose(n, i - 1)
    {
      NextQuotient(n, i, result);
      result := result * (n - i + 1);
      assert result % i == 0;
      result := result / i;
    }
  }
}
