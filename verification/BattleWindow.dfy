/**
 Three rows of the table of battle positions as values: what one step of the forward
 program does to them, and what it leaves unchanged.
 */
module BattleWindow {
  import opened BattleOutcome

  // --------------------------------------------------------------- valuations

  /** What an amount of probability is worth in cell (a, d). */
  type Valuation = (real, nat, nat) -> real

  ghost predicate AddsUp(v: Valuation, x: real, y: real, a: nat, d: nat) {
    v(x + y, a, d) == v(x, a, d) + v(y, a, d)
  }

  /** The part of `m` that goes one way, `p` being the odds of it. */
  function Share(m: real, p: real): real {
    m * p
  }

  /** One round changes nothing: what is sent on is worth what was there. */
  ghost predicate RoundKeeps(v: Valuation, m: real, a: nat, d: nat, p: Odds)
    requires a >= 1 && d >= 1 && OddsFit(a, d, p)
  {
    if p.a2d0 > 0.0 then
      v(m, a, d) == v(Share(m, p.a2d0), a, d - 2) + v(Share(m, p.a1d1), a - 1, d - 1) + v(Share(m, p.a0d2), a - 2, d)
    else
      v(m, a, d) == v(Share(m, p.a1d0), a, d - 1) + v(Share(m, p.a0d1), a - 1, d)
  }

  ghost predicate OddsFit(a: nat, d: nat, p: Odds) {
    p.a2d0 > 0.0 ==> a >= 2 && d >= 2
  }

  ghost predicate Fair(v: Valuation) {
    && (forall a: nat, d: nat :: v(0.0, a, d) == 0.0)
    && (forall x, y, a, d :: AddsUp(v, x, y, a, d))
    && (forall m, a, d :: a >= 1 && d >= 1 && OddsFit(a, d, GetProbs(a, d)) ==> RoundKeeps(v, m, a, d, GetProbs(a, d)))
  }

  /** Probability times what its cell is worth. */
  ghost function Times(e: (nat, nat) -> real): Valuation {
    (x: real, a: nat, d: nat) => x * e(a, d)
  }

  ghost predicate Averages(e: (nat, nat) -> real, a: nat, d: nat, p: Odds)
    requires a >= 1 && d >= 1 && OddsFit(a, d, p)
  {
    if p.a2d0 > 0.0 then e(a, d) == Mix3(p.a2d0, p.a1d1, p.a0d2, e(a, d - 2), e(a - 1, d - 1), e(a - 2, d))
    else e(a, d) == Mix2(p.a1d0, p.a0d1, e(a, d - 1), e(a - 1, d))
  }

  /** Probability times the expectation from its cell. */
  ghost function Worthwhile(count: Count): Valuation {
    Times((a: nat, d: nat) => Expect(count, a, d))
  }

  lemma DistributeSum(x: real, y: real, w: real)
    ensures (x + y) * w == x * w + y * w
  {
  }

  lemma Distribute3(m: real, p: real, q: real, r: real, x: real, y: real, z: real)
    ensures m * p * x + m * q * y + m * r * z == m * Mix3(p, q, r, x, y, z)
  {
  }

  lemma Distribute2(m: real, p: real, q: real, x: real, y: real)
    ensures m * p * x + m * q * y == m * Mix2(p, q, x, y)
  {
  }

  lemma RoundKeepsTimes(e: (nat, nat) -> real, m: real, a: nat, d: nat, p: Odds)
    requires a >= 1 && d >= 1 && OddsFit(a, d, p) && Averages(e, a, d, p)
    ensures RoundKeeps(Times(e), m, a, d, p)
  {
    if p.a2d0 > 0.0 {
      Distribute3(m, p.a2d0, p.a1d1, p.a0d2, e(a, d - 2), e(a - 1, d - 1), e(a - 2, d));
    } else {
      Distribute2(m, p.a1d0, p.a0d1, e(a, d - 1), e(a - 1, d));
    }
  }

  lemma RoundKeepsWorth(count: Count, m: real, a: nat, d: nat, p: Odds)
    requires a >= 1 && d >= 1 && p == GetProbs(a, d) && OddsFit(a, d, p)
    ensures RoundKeeps(Worthwhile(count), m, a, d, p)
  {
    ExpectStep(count, a, d, p);
    RoundKeepsTimes((a: nat, d: nat) => Expect(count, a, d), m, a, d, p);
  }

  lemma TimesAddsUp(e: (nat, nat) -> real)
    ensures forall x, y, a, d :: AddsUp(Times(e), x, y, a, d)
    ensures forall a: nat, d: nat :: Times(e)(0.0, a, d) == 0.0
  {
    forall x, y, a, d
      ensures AddsUp(Times(e), x, y, a, d)
    {
      DistributeSum(x, y, e(a, d));
    }
  }

  lemma WorthwhileIsFair(count: Count)
    ensures Fair(Worthwhile(count))
  {
    TimesAddsUp((a: nat, d: nat) => Expect(count, a, d));
    forall m, a, d | a >= 1 && d >= 1 && OddsFit(a, d, GetProbs(a, d))
      ensures RoundKeeps(Worthwhile(count), m, a, d, GetProbs(a, d))
    {
      RoundKeepsWorth(count, m, a, d, GetProbs(a, d));
    }
  }

  // ------------------------------------------------------------------ weights

  function Total(xs: seq<real>): real {
    if xs == [] then 0.0 else Total(xs[..|xs| - 1]) + xs[|xs| - 1]
  }

  lemma {:induction false} TotalUpdate(xs: seq<real>, i: nat, x: real)
    requires i < |xs|
    ensures Total(xs[i := xs[i] + x]) == Total(xs) + x
  {
    var last := |xs| - 1;
    var ys := xs[i := xs[i] + x];
    if i < last {
      assert ys[..last] == xs[..last][i := xs[..last][i] + x];
      TotalUpdate(xs[..last], i, x);
    } else {
      assert ys[..last] == xs[..last];
    }
  }

  /** The first `n` cells of row `a`, each at what it is worth. */
  ghost function Values(v: Valuation, row: seq<real>, a: nat, n: nat): (vs: seq<real>)
    requires n <= |row|
    ensures |vs| == n
  {
    seq(n, i requires 0 <= i < n => v(row[i], a, i))
  }

  ghost function Weighted(v: Valuation, row: seq<real>, a: nat, n: nat): real
    requires n <= |row|
  {
    Total(Values(v, row, a, n))
  }

  lemma WeightedUpdate(v: Valuation, row: seq<real>, a: nat, n: nat, d: nat, x: real)
    requires Fair(v) && n <= |row| && d < |row|
    ensures Weighted(v, row[d := row[d] + x], a, n) == Weighted(v, row, a, n) + (if d < n then v(x, a, d) else 0.0)
  {
    assert AddsUp(v, row[d], x, a, d);
    var vs := Values(v, row, a, n);
    var vs' := Values(v, row[d := row[d] + x], a, n);
    if d < n {
      TotalUpdate(vs, d, v(x, a, d));
      assert vs' == vs[d := vs[d] + v(x, a, d)];
    } else {
      assert vs' == vs;
    }
  }

  lemma {:induction false} TotalZero(xs: seq<real>)
    requires forall i :: 0 <= i < |xs| ==> xs[i] == 0.0
    ensures Total(xs) == 0.0
  {
    if xs != [] {
      TotalZero(xs[..|xs| - 1]);
    }
  }

  lemma WeightedZero(v: Valuation, row: seq<real>, a: nat, n: nat)
    requires Fair(v) && n <= |row| && forall i :: 0 <= i < n ==> row[i] == 0.0
    ensures Weighted(v, row, a, n) == 0.0
  {
    TotalZero(Values(v, row, a, n));
  }

  // ------------------------------------------------------------- three live rows

  /** Row `a` being consumed and the two rows below it, into which it is spread. */
  datatype Window = Window(cur: seq<real>, next: seq<real>, last: seq<real>)

  ghost predicate Sized(w: Window, cols: nat) {
    |w.cur| == |w.next| == |w.last| == cols
  }

  /** All that is still to be processed: `n` cells of row `a`, and the two rows below. */
  ghost function Pending(v: Valuation, w: Window, cols: nat, a: nat, n: nat): real
    requires Sized(w, cols) && n <= cols
  {
    Weighted(v, w.cur, a, n)
    + (if a >= 1 then Weighted(v, w.next, a - 1, cols) else 0.0)
    + (if a >= 2 then Weighted(v, w.last, a - 2, cols) else 0.0)
  }

  lemma ConsumeCell(v: Valuation, w: Window, cols: nat, a: nat, d: nat)
    requires Sized(w, cols) && d < cols
    ensures Pending(v, w, cols, a, d + 1) == Pending(v, w, cols, a, d) + v(w.cur[d], a, d)
  {
    var vs := Values(v, w.cur, a, d + 1);
    assert vs[..d] == Values(v, w.cur, a, d);
  }

  ghost function TwoLosses(w: Window, cols: nat, d: nat, p: Odds): (r: Window)
    requires Sized(w, cols) && 2 <= d < cols
    ensures Sized(r, cols)
  {
    var m := w.cur[d];
    Window(w.cur[d - 2 := w.cur[d - 2] + Share(m, p.a2d0)],
           w.next[d - 1 := w.next[d - 1] + Share(m, p.a1d1)],
           w.last[d := w.last[d] + Share(m, p.a0d2)])
  }

  ghost function OneLoss(w: Window, cols: nat, d: nat, p: Odds): (r: Window)
    requires Sized(w, cols) && 1 <= d < cols
    ensures Sized(r, cols)
  {
    var m := w.cur[d];
    Window(w.cur[d - 1 := w.cur[d - 1] + Share(m, p.a1d0)],
           w.next[d := w.next[d] + Share(m, p.a0d1)],
           w.last)
  }

  /** Sends the probability of cell (a, d) on to the cells one round leads to. */
  ghost function Spread(w: Window, cols: nat, a: nat, d: nat, p: Odds): (r: Window)
    requires Sized(w, cols) && 1 <= d < cols && a >= 1 && OddsFit(a, d, p)
    ensures Sized(r, cols)
  {
    if p.a2d0 > 0.0 then TwoLosses(w, cols, d, p) else OneLoss(w, cols, d, p)
  }

  /** What a cell hands on is worth what the cell was. */
  lemma SpreadConserves(v: Valuation, w: Window, cols: nat, a: nat, d: nat, p: Odds)
    requires Fair(v) && Sized(w, cols) && 1 <= d < cols && 1 <= a && OddsFit(a, d, p)
    requires RoundKeeps(v, w.cur[d], a, d, p)
    ensures Pending(v, Spread(w, cols, a, d, p), cols, a, d) == Pending(v, w, cols, a, d + 1)
  {
    var m := w.cur[d];
    ConsumeCell(v, w, cols, a, d);
    if p.a2d0 > 0.0 {
      WeightedUpdate(v, w.cur, a, d, d - 2, Share(m, p.a2d0));
      WeightedUpdate(v, w.next, a - 1, cols, d - 1, Share(m, p.a1d1));
      WeightedUpdate(v, w.last, a - 2, cols, d, Share(m, p.a0d2));
    } else {
      WeightedUpdate(v, w.cur, a, d, d - 1, Share(m, p.a1d0));
      WeightedUpdate(v, w.next, a - 1, cols, d, Share(m, p.a0d1));
    }
  }

  ghost function Zeros(cols: nat): (r: seq<real>)
    ensures |r| == cols && forall i :: 0 <= i < cols ==> r[i] == 0.0
  {
    seq(cols, i => 0.0)
  }

  /** Row `a` is used up: the rows below move up, and the one after them starts empty. */
  ghost function Shift(w: Window, cols: nat): Window {
    Window(w.next, w.last, Zeros(cols))
  }

  lemma ShiftConserves(v: Valuation, w: Window, cols: nat, a: nat)
    requires Fair(v) && Sized(w, cols) && 1 <= a
    ensures Pending(v, Shift(w, cols), cols, a - 1, cols) == Pending(v, w, cols, a, 0)
  {
    if a >= 3 {
      WeightedZero(v, Zeros(cols), a - 3, cols);
    }
  }

  ghost function Start(cols: nat): (w: Window)
    requires cols > 0
    ensures Sized(w, cols)
  {
    Window(Zeros(cols)[cols - 1 := 1.0], Zeros(cols), Zeros(cols))
  }

  lemma StartPending(v: Valuation, cols: nat, a: nat)
    requires Fair(v) && cols > 0
    ensures Pending(v, Start(cols), cols, a, cols) == v(1.0, a, cols - 1)
  {
    WeightedZero(v, Zeros(cols), a, cols);
    assert Zeros(cols)[cols - 1 := 1.0] == Zeros(cols)[cols - 1 := Zeros(cols)[cols - 1] + 1.0];
    WeightedUpdate(v, Zeros(cols), a, cols, cols - 1, 1.0);
    if a >= 1 {
      WeightedZero(v, Zeros(cols), a - 1, cols);
    }
    if a >= 2 {
      WeightedZero(v, Zeros(cols), a - 2, cols);
    }
  }

  // ------------------------------------------------------------------- balance

  /** What is counted: what is pending and what was absorbed make up the start. */
  ghost predicate Balanced(v: Valuation, w: Window, cols: nat, a: nat, n: nat, absorbed: real, total: real)
    requires Sized(w, cols) && n <= cols
  {
    Pending(v, w, cols, a, n) + absorbed == total
  }

  /** A run's books: survivors of both sides and plain probability, each conserved. */
  ghost predicate InBalance(w: Window, cols: nat, a: nat, n: nat, attackers: real, defenders: real, absorbed: real,
                            goalA: real, goalD: real)
    requires Sized(w, cols) && n <= cols
  {
    && Balanced(Worthwhile(Attackers), w, cols, a, n, attackers, goalA)
    && Balanced(Worthwhile(Defenders), w, cols, a, n, defenders, goalD)
    && Balanced(Worthwhile(Mass), w, cols, a, n, absorbed, 1.0)
  }

  /** Where a battle ends, probability is worth its share of what is left. */
  lemma EndWorth(count: Count, x: real, a: nat, d: nat)
    requires a == 0 || d == 0
    ensures Worthwhile(count)(x, a, d) == Share(x, Payoff(count, a, d))
  {
    ExpectAtEnd(count, a, d);
  }

  lemma AbsorbBalanced(count: Count, w: Window, cols: nat, a: nat, d: nat, absorbed: real, total: real,
                                          gain: real)
    requires Sized(w, cols) && d < cols
    requires gain == Worthwhile(count)(w.cur[d], a, d)
    requires Balanced(Worthwhile(count), w, cols, a, d + 1, absorbed, total)
    ensures Balanced(Worthwhile(count), w, cols, a, d, absorbed + gain, total)
  {
    ConsumeCell(Worthwhile(count), w, cols, a, d);
  }

  lemma ShareOfZeroAndOne(x: real)
    ensures Share(x, 0.0) == 0.0 && Share(x, 1.0) == x
  {
  }

  lemma EmptyBalanced(count: Count, w: Window, cols: nat, a: nat, d: nat, absorbed: real, total: real)
    requires Sized(w, cols) && d < cols && w.cur[d] == 0.0
    requires Balanced(Worthwhile(count), w, cols, a, d + 1, absorbed, total)
    ensures Balanced(Worthwhile(count), w, cols, a, d, absorbed, total)
  {
    WorthwhileIsFair(count);
    ConsumeCell(Worthwhile(count), w, cols, a, d);
  }

  lemma SpreadBalanced(count: Count, w: Window, cols: nat, a: nat, d: nat, p: Odds,
                                          absorbed: real, total: real)
    requires Sized(w, cols) && 1 <= d < cols && 1 <= a && p == GetProbs(a, d) && OddsFit(a, d, p)
    requires Balanced(Worthwhile(count), w, cols, a, d + 1, absorbed, total)
    ensures Balanced(Worthwhile(count), Spread(w, cols, a, d, p), cols, a, d, absorbed, total)
  {
    WorthwhileIsFair(count);
    RoundKeepsWorth(count, w.cur[d], a, d, p);
    SpreadConserves(Worthwhile(count), w, cols, a, d, p);
  }

  lemma ShiftBalanced(count: Count, w: Window, cols: nat, a: nat, absorbed: real, total: real)
    requires Sized(w, cols) && 1 <= a
    requires Balanced(Worthwhile(count), w, cols, a, 0, absorbed, total)
    ensures Balanced(Worthwhile(count), Shift(w, cols), cols, a - 1, cols, absorbed, total)
  {
    WorthwhileIsFair(count);
    ShiftConserves(Worthwhile(count), w, cols, a);
  }

  lemma StartBalanced(count: Count, a0: nat, d0: nat)
    ensures Balanced(Worthwhile(count), Start(d0 + 1), d0 + 1, a0, d0 + 1, 0.0, Expect(count, a0, d0))
  {
    WorthwhileIsFair(count);
    StartPending(Worthwhile(count), d0 + 1, a0);
  }

  lemma StartInBalance(a0: nat, d0: nat)
    ensures InBalance(Start(d0 + 1), d0 + 1, a0, d0 + 1, 0.0, 0.0, 0.0, Expect(Attackers, a0, d0), Expect(Defenders, a0, d0))
  {
    StartBalanced(Attackers, a0, d0);
    StartBalanced(Defenders, a0, d0);
    StartBalanced(Mass, a0, d0);
    MassIsOne(a0, d0);
  }

  lemma EmptyInBalance(w: Window, cols: nat, a: nat, d: nat, attackers: real, defenders: real,
                                          absorbed: real, goalA: real, goalD: real)
    requires Sized(w, cols) && d < cols && w.cur[d] == 0.0
    requires InBalance(w, cols, a, d + 1, attackers, defenders, absorbed, goalA, goalD)
    ensures InBalance(w, cols, a, d, attackers, defenders, absorbed, goalA, goalD)
  {
    EmptyBalanced(Attackers, w, cols, a, d, attackers, goalA);
    EmptyBalanced(Defenders, w, cols, a, d, defenders, goalD);
    EmptyBalanced(Mass, w, cols, a, d, absorbed, 1.0);
  }

  /** A finished battle's probability moves from pending to the totals. */
  lemma AbsorbInBalance(w: Window, cols: nat, a: nat, d: nat, attackers: real, defenders: real,
                                           absorbed: real, goalA: real, goalD: real, gainA: real, gainD: real)
    requires Sized(w, cols) && d < cols && (a == 0 || d == 0)
    requires gainA == (if d == 0 then Share(w.cur[d], a as real) else 0.0)
    requires gainD == (if a == 0 then Share(w.cur[d], d as real) else 0.0)
    requires InBalance(w, cols, a, d + 1, attackers, defenders, absorbed, goalA, goalD)
    ensures InBalance(w, cols, a, d, attackers + gainA, defenders + gainD, absorbed + w.cur[d], goalA, goalD)
  {
    var m := w.cur[d];
    EndWorth(Attackers, m, a, d);
    EndWorth(Defenders, m, a, d);
    EndWorth(Mass, m, a, d);
    ShareOfZeroAndOne(m);
    AbsorbBalanced(Attackers, w, cols, a, d, attackers, goalA, gainA);
    AbsorbBalanced(Defenders, w, cols, a, d, defenders, goalD, gainD);
    AbsorbBalanced(Mass, w, cols, a, d, absorbed, 1.0, m);
  }

  lemma SpreadInBalance(w: Window, cols: nat, a: nat, d: nat, attackers: real, defenders: real,
                                           absorbed: real, goalA: real, goalD: real, p: Odds)
    requires Sized(w, cols) && 1 <= d < cols && 1 <= a && p == GetProbs(a, d) && OddsFit(a, d, p)
    requires InBalance(w, cols, a, d + 1, attackers, defenders, absorbed, goalA, goalD)
    ensures InBalance(Spread(w, cols, a, d, p), cols, a, d, attackers, defenders, absorbed, goalA, goalD)
  {
    SpreadBalanced(Attackers, w, cols, a, d, p, attackers, goalA);
    SpreadBalanced(Defenders, w, cols, a, d, p, defenders, goalD);
    SpreadBalanced(Mass, w, cols, a, d, p, absorbed, 1.0);
  }

  /** One row used up, or, after row 0, nothing left pending. */
  lemma RowInBalance(w: Window, cols: nat, a: nat, attackers: real, defenders: real, absorbed: real,
                                        goalA: real, goalD: real)
    requires Sized(w, cols)
    requires InBalance(w, cols, a, 0, attackers, defenders, absorbed, goalA, goalD)
    ensures a > 0 ==> InBalance(Shift(w, cols), cols, a - 1, cols, attackers, defenders, absorbed, goalA, goalD)
    ensures a == 0 ==> attackers == goalA
    ensures a == 0 ==> defenders == goalD
    ensures a == 0 ==> absorbed == 1.0
  {
    if a > 0 {
      ShiftBalanced(Attackers, w, cols, a, attackers, goalA);
      ShiftBalanced(Defenders, w, cols, a, defenders, goalD);
      ShiftBalanced(Mass, w, cols, a, absorbed, 1.0);
    }
  }
}
