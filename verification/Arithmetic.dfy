/** Facts about products, remainders and counts that several proofs share. */
module Arithmetic {

  lemma Distribute(q: int, n: int)
    ensures (q - 1) * n == q * n - n
  {
  }

  lemma RemainderUnique(q: int, r: nat, n: nat)
    requires r < n
    ensures (q * n + r) % n == r && (q * n + r) / n == q
  {
    var x := q * n + r;
    var d := x / n - q;
    assert x == (x / n) * n + x % n;
    assert d * n == r - x % n by { assert (x / n) * n - q * n == d * n; }
    if d >= 1 {
      MulAtLeast(d, n);
    } else if d <= -1 {
      MulAtLeast(-d, n);
    }
  }

  lemma {:induction false} MulAtLeast(d: int, n: nat)
    requires d >= 1
    ensures d * n >= n
  {
    if d > 1 {
      MulAtLeast(d - 1, n);
      Distribute(d, n);
    }
  }

  function Min(a: int, b: int): int {
    if a <= b then a else b
  }

  /** The numbers below `n` of which something holds. */
  function Holding(n: nat, holds: int -> bool): set<int> {
    set i | 0 <= i < n && holds(i)
  }

  lemma OneMoreHolds(n: nat, holds: int -> bool)
    requires n > 0
    ensures |Holding(n, holds)| == |Holding(n - 1, holds)| + if holds(n - 1) then 1 else 0
  {
    assert Holding(n, holds) == if holds(n - 1) then Holding(n - 1, holds) + {n - 1} else Holding(n - 1, holds);
  }
}
