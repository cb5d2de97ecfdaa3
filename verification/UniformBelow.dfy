/** Unbiased integers below a bound by multiply-and-shift with rejection (Lemire's method). */
module UniformBelow {
  import opened Arithmetic

  const WORD: nat := 0x1_0000_0000

  datatype Drawn = Exhausted | Value(value: nat, used: nat)

  /** The threshold the slow path computes: the 32-bit negation of `n`, modulo `n`. */
  function Threshold(n: nat): nat
    requires 1 <= n < WORD
  {
    ((WORD - n) % WORD) % n
  }

  predicate Accepts(draw: nat, n: nat)
    requires 1 <= n < WORD
  {
    LowWord(draw, n) >= WORD % n
  }

  function LowWord(draw: nat, n: nat): (low: nat)
    ensures low < WORD
  {
    (draw * n) % WORD
  }

  function HighWord(draw: nat, n: nat): nat {
    draw * n / WORD
  }

  lemma ThresholdIsRemainder(n: nat)
    requires 1 <= n < WORD
    ensures Threshold(n) == WORD % n < n
  {
    var q := WORD / n;
    assert WORD == q * n + WORD % n;
    assert WORD - n == (q - 1) * n + WORD % n by { Distribute(q, n); }
    RemainderUnique(q - 1, WORD % n, n);
  }

  /**
   The generator's 32-bit draws come from `draws`; `Exhausted` stands for a stream whose
   draws are all rejected. The value comes from the first accepted draw: the fast path
   takes no draw the threshold would reject.
   */
  method Sample(draws: seq<nat>, n: nat) returns (r: Drawn)
    requires 1 <= n < WORD && forall i :: 0 <= i < |draws| ==> draws[i] < WORD
    ensures r.Exhausted? ==> forall i :: 0 <= i < |draws| ==> !Accepts(draws[i], n)
    ensures r.Value? ==>
      && r.value < n
      && 1 <= r.used <= |draws|
      && Accepts(draws[r.used - 1], n) && r.value == HighWord(draws[r.used - 1], n)
      && r.value * WORD <= draws[r.used - 1] * n < (r.value + 1) * WORD
      && forall i :: 0 <= i < r.used - 1 ==> !Accepts(draws[i], n)
  {
    ThresholdIsRemainder(n);
    if |draws| == 0 {
      return Exhausted;
    }
    var used := 1;
    if LowWord(draws[0], n) < n {
      used := Redraw(draws, n, Threshold(n));
      if used > |draws| {
        return Exhausted;
      }
    }
    HighWordBelow(draws[used - 1], n);
    r := Value(HighWord(draws[used - 1], n), used);
  }

  /** The slow path: draws again while the low word is below the threshold. */
  method Redraw(draws: seq<nat>, n: nat, threshold: nat) returns (used: nat)
    requires 1 <= n < WORD && threshold == WORD % n && draws != []
    ensures 1 <= used <= |draws| + 1
    ensures used <= |draws| ==> Accepts(draws[used - 1], n)
    ensures forall i :: 0 <= i < used - 1 ==> !Accepts(draws[i], n)
  {
    used := 1;
    while used <= |draws| && LowWord(draws[used - 1], n) < threshold
      invariant 1 <= used <= |draws| + 1
      invariant forall i :: 0 <= i < used - 1 ==> !Accepts(draws[i], n)
    {
      used := used + 1;
    }
  }

  lemma HighWordBelow(draw: nat, n: nat)
    requires draw < WORD && 1 <= n
    ensures HighWord(draw, n) < n
  {
    assert draw * n <= (WORD - 1) * n by { MulMono(draw, WORD - 1, n); }
  }

  lemma {:induction false} MulMono(a: nat, b: nat, n: nat)
    requires a <= b
    ensures a * n <= b * n
    decreases b
  {
    if a < b {
      MulMono(a, b - 1, n);
      Distribute(b, n);
    }
  }

  // ------------------------------------------------------------- no value favoured

  /** The accepted draws that give `k`. */
  ghost function Hits(n: nat, k: nat): set<nat>
    requires 1 <= n < WORD
  {
    set draw: nat | draw < WORD && Accepts(draw, n) && draw * n / WORD == k
  }

  predicate Within(x: nat, lo: nat, count: nat) {
    lo <= x < lo + count
  }

  function Interval(lo: nat, count: nat): set<nat> {
    set x: nat | x < lo + count && Within(x, lo, count)
  }

  lemma {:induction false} IntervalCount(lo: nat, count: nat)
    ensures |Interval(lo, count)| == count
  {
    if count == 0 {
      assert Interval(lo, count) == {};
    } else {
      IntervalCount(lo, count - 1);
      assert Interval(lo, count) == Interval(lo, count - 1) + {lo + count - 1};
    }
  }

  lemma Ceiling(x: int, a: int, n: nat)
    requires n >= 1
    ensures x * n >= a <==> x >= (a + n - 1) / n
  {
    var c := (a + n - 1) / n;
    var r := (a + n - 1) % n;
    assert a + n - 1 == c * n + r;
    if x >= c {
      assert x * n >= c * n by { MulOrder(c, x, n); }
    } else {
      assert x * n <= (c - 1) * n by { MulOrder(x, c - 1, n); }
      Distribute(c, n);
    }
  }

  lemma MulOrder(a: int, b: int, n: nat)
    requires a <= b
    ensures a * n <= b * n
  {
    MulMono(0, b - a, n);
    assert (b - a) * n == b * n - a * n;
  }

  /** A draw gives `k` when its product lies in a window of whole multiples of `n`. */
  lemma HitWindow(n: nat, k: nat, draw: nat)
    requires 1 <= n < WORD
    ensures Accepts(draw, n) && draw * n / WORD == k
       <==> k * WORD + WORD % n <= draw * n < (k + 1) * WORD
  {
    var x := draw * n;
    assert x == (x / WORD) * WORD + x % WORD;
    if k * WORD + WORD % n <= x < (k + 1) * WORD {
      assert x / WORD == k;
    }
  }

  lemma WindowIsInterval(n: nat, k: nat, draw: nat)
    requires 1 <= n < WORD && k < n
    ensures var lo := (k * WORD + WORD % n + n - 1) / n;
            draw in Hits(n, k) <==> lo <= draw < lo + WORD / n
  {
    var a := k * WORD + WORD % n;
    var q := WORD / n;
    HitWindow(n, k, draw);
    assert WORD == q * n + WORD % n;
    assert (k + 1) * WORD == a + q * n;
    Ceiling(draw, a, n);
    Ceiling(draw - q, a, n);
    assert (draw - q) * n == draw * n - q * n;
    if draw >= WORD {
      MulOrder(WORD, draw, n);
      MulOrder(k + 1, n, WORD);
      assert WORD * n == n * WORD;
    }
  }

  /** Every value below `n` is given by exactly floor(2^32 / n) of the accepted draws. */
  lemma EachValueEquallyOften(n: nat, k: nat)
    requires 1 <= n < WORD && k < n
    ensures |Hits(n, k)| == WORD / n
  {
    var lo := (k * WORD + WORD % n + n - 1) / n;
    forall draw: nat
      ensures draw in Hits(n, k) <==> draw in Interval(lo, WORD / n)
    {
      WindowIsInterval(n, k, draw);
    }
    assert Hits(n, k) == Interval(lo, WORD / n);
    IntervalCount(lo, WORD / n);
  }
}
