/**
 Expected survivors of a battle fought to the end, by the backward recursion, and the
 bounds that rounding relies on.
 */
module BattleOutcome {

  datatype Odds = Odds(a2d0: real, a1d1: real, a0d2: real, a1d0: real, a0d1: real)

  datatype Remnants = Remnants(attackers: int, defenders: int)

  /** The odds of one round with the most dice each side may roll. */
  function GetProbs(a: nat, d: nat): Odds {
    var diceA := if a < 3 then a else 3;
    var diceD := if d < 2 then d else 2;
    if diceA == 3 && diceD == 2 then Odds(2890.0 / 7776.0, 2611.0 / 7776.0, 2275.0 / 7776.0, 0.0, 0.0)
    else if diceA == 2 && diceD == 2 then Odds(295.0 / 1296.0, 420.0 / 1296.0, 581.0 / 1296.0, 0.0, 0.0)
    else if diceA == 1 && diceD == 2 then Odds(0.0, 0.0, 0.0, 55.0 / 216.0, 161.0 / 216.0)
    else if diceA == 3 && diceD == 1 then Odds(0.0, 0.0, 0.0, 855.0 / 1296.0, 441.0 / 1296.0)
    else if diceA == 2 && diceD == 1 then Odds(0.0, 0.0, 0.0, 125.0 / 216.0, 91.0 / 216.0)
    else if diceA == 1 && diceD == 1 then Odds(0.0, 0.0, 0.0, 15.0 / 36.0, 21.0 / 36.0)
    else Odds(0.0, 0.0, 0.0, 0.0, 0.0)
  }

  /** A round's odds are those of two losses, or of one, and add up to 1. */
  lemma OddsAddUp(a: nat, d: nat)
    requires a >= 1 && d >= 1
    ensures var p := GetProbs(a, d);
      && p.a2d0 >= 0.0 && p.a1d1 >= 0.0 && p.a0d2 >= 0.0 && p.a1d0 >= 0.0 && p.a0d1 >= 0.0
      && (p.a2d0 > 0.0 <==> a >= 2 && d >= 2)
      && (p.a2d0 > 0.0 ==> p.a2d0 + p.a1d1 + p.a0d2 == 1.0)
      && (p.a2d0 == 0.0 ==> p.a1d0 + p.a0d1 == 1.0)
  {
  }

  // ------------------------------------------------------- backward recursion

  /** What is averaged over the ends of the battle: survivors of a side, or just 1. */
  datatype Count = Attackers | Defenders | Mass

  function Payoff(count: Count, a: nat, d: nat): real {
    match count
    case Attackers => a as real
    case Defenders => d as real
    case Mass => 1.0
  }

  function Mix3(p: real, q: real, r: real, x: real, y: real, z: real): real {
    p * x + q * y + r * z
  }

  function Mix2(p: real, q: real, x: real, y: real): real {
    p * x + q * y
  }

  /** The expectation from (a, d), by what the next round may lead to. */
  function Expect(count: Count, a: nat, d: nat): real
    decreases a + d
  {
    if a == 0 || d == 0 then Payoff(count, a, d)
    else
      var p := GetProbs(a, d);
      if p.a2d0 > 0.0 then
        Mix3(p.a2d0, p.a1d1, p.a0d2, Expect(count, a, d - 2), Expect(count, a - 1, d - 1), Expect(count, a - 2, d))
      else
        Mix2(p.a1d0, p.a0d1, Expect(count, a, d - 1), Expect(count, a - 1, d))
  }

  /** A table of what each position is worth, one row for each number of attackers. */
  type Worth = seq<seq<real>>

  ghost predicate Wide(w: Worth, cols: nat) {
    forall a :: 0 <= a < |w| ==> |w[a]| == cols
  }

  /** Cell (a, d) is worth the average of the cells one round leads to. */
  ghost predicate AverageOfNext(w: Worth, cols: nat, a: nat, d: nat, p: Odds)
    requires Wide(w, cols) && 1 <= a < |w| && 1 <= d < cols
  {
    if p.a2d0 > 0.0 then
      a >= 2 && d >= 2 &&
      w[a][d] == Mix3(p.a2d0, p.a1d1, p.a0d2, w[a][d - 2], w[a - 1][d - 1], w[a - 2][d])
    else w[a][d] == Mix2(p.a1d0, p.a0d1, w[a][d - 1], w[a - 1][d])
  }

  ghost predicate Harmonic(w: Worth, cols: nat) {
    Wide(w, cols) &&
    forall a, d :: 1 <= a < |w| && 1 <= d < cols ==> AverageOfNext(w, cols, a, d, GetProbs(a, d))
  }

  ghost function ExpectTable(count: Count, rows: nat, cols: nat): (w: Worth)
    ensures |w| == rows && Wide(w, cols)
    ensures forall a, d :: 0 <= a < rows && 0 <= d < cols ==> w[a][d] == Expect(count, a, d)
  {
    seq(rows, a requires 0 <= a < rows => seq(cols, d requires 0 <= d < cols => Expect(count, a, d)))
  }

  lemma ExpectStep(count: Count, a: nat, d: nat, p: Odds)
    requires a >= 1 && d >= 1 && p == GetProbs(a, d)
    ensures p.a2d0 > 0.0 ==> a >= 2 && d >= 2
    ensures p.a2d0 > 0.0 ==>
      Expect(count, a, d) == Mix3(p.a2d0, p.a1d1, p.a0d2,
                                  Expect(count, a, d - 2), Expect(count, a - 1, d - 1), Expect(count, a - 2, d))
    ensures p.a2d0 <= 0.0 ==>
      Expect(count, a, d) == Mix2(p.a1d0, p.a0d1, Expect(count, a, d - 1), Expect(count, a - 1, d))
  {
  }

  lemma ExpectCellHarmonic(count: Count, w: Worth, cols: nat, a: nat, d: nat, p: Odds)
    requires Wide(w, cols) && 1 <= a < |w| && 1 <= d < cols && p == GetProbs(a, d)
    requires forall b, e :: 0 <= b < |w| && 0 <= e < cols ==> w[b][e] == Expect(count, b, e)
    ensures AverageOfNext(w, cols, a, d, p)
  {
    ExpectStep(count, a, d, p);
  }

  lemma ExpectTableHarmonic(count: Count, rows: nat, cols: nat)
    ensures Harmonic(ExpectTable(count, rows, cols), cols)
  {
    var w := ExpectTable(count, rows, cols);
    forall a: nat, d: nat | 1 <= a < |w| && 1 <= d < cols
      ensures AverageOfNext(w, cols, a, d, GetProbs(a, d))
    {
      ExpectCellHarmonic(count, w, cols, a, d, GetProbs(a, d));
    }
  }

  /** Total probability is 1 from everywhere. */
  lemma {:induction false} MassIsOne(a: nat, d: nat)
    ensures Expect(Mass, a, d) == 1.0
    decreases a + d
  {
    if a > 0 && d > 0 {
      OddsAddUp(a, d);
      if GetProbs(a, d).a2d0 > 0.0 {
        MassIsOne(a, d - 2);
        MassIsOne(a - 1, d - 1);
        MassIsOne(a - 2, d);
      } else {
        MassIsOne(a, d - 1);
        MassIsOne(a - 1, d);
      }
    }
  }

  lemma ProductNonNegative(x: real, y: real)
    requires x >= 0.0 && y >= 0.0
    ensures x * y >= 0.0
  {
  }

  function Round(x: real): int { (x + 0.5).Floor }

  function Expected(a: nat, d: nat): Remnants {
    Remnants(Round(Expect(Attackers, a, d)), Round(Expect(Defenders, a, d)))
  }

  // ------------------------------------------------------------------ survivors

  lemma MixAtLeast(p: real, q: real, r: real, x: real, y: real, z: real, lo: real)
    requires p >= 0.0 && q >= 0.0 && r >= 0.0 && p + q + r == 1.0
    requires lo <= x && lo <= y && lo <= z
    ensures lo <= p * x + q * y + r * z
  {
    ProductNonNegative(p, x - lo);
    ProductNonNegative(q, y - lo);
    ProductNonNegative(r, z - lo);
    assert r == 1.0 - p - q;
  }

  lemma MixAtMost(p: real, q: real, r: real, x: real, y: real, z: real, hi: real)
    requires p >= 0.0 && q >= 0.0 && r >= 0.0 && p + q + r == 1.0
    requires x <= hi && y <= hi && z <= hi
    ensures p * x + q * y + r * z <= hi
  {
    ProductNonNegative(p, hi - x);
    ProductNonNegative(q, hi - y);
    ProductNonNegative(r, hi - z);
    assert r == 1.0 - p - q;
  }

  /** An average lies between the bounds of what is averaged. */
  lemma Mix3Bounds(p: real, q: real, r: real, x: real, y: real, z: real, lo: real, hi: real)
    requires p >= 0.0 && q >= 0.0 && r >= 0.0 && p + q + r == 1.0
    requires lo <= x <= hi && lo <= y <= hi && lo <= z <= hi
    ensures lo <= Mix3(p, q, r, x, y, z) <= hi
  {
    MixAtLeast(p, q, r, x, y, z, lo);
    MixAtMost(p, q, r, x, y, z, hi);
  }

  lemma Mix2Bounds(p: real, q: real, x: real, y: real, lo: real, hi: real)
    requires p >= 0.0 && q >= 0.0 && p + q == 1.0
    requires lo <= x <= hi && lo <= y <= hi
    ensures lo <= Mix2(p, q, x, y) <= hi
  {
    MixAtLeast(p, q, 0.0, x, y, lo, lo);
    MixAtMost(p, q, 0.0, x, y, hi, hi);
  }

  /** Bounds pass from the cells one round leads to back to the cell. */
  lemma AverageBounds(w: Worth, cols: nat, a: nat, d: nat, lo: real, hi: real)
    requires Harmonic(w, cols) && 1 <= a < |w| && 1 <= d < cols
    requires forall b, e :: 0 <= b <= a && 0 <= e <= d && b + e < a + d && b + e >= a + d - 2 ==> lo <= w[b][e] <= hi
    ensures lo <= w[a][d] <= hi
  {
    OddsAddUp(a, d);
    var p := GetProbs(a, d);
    assert AverageOfNext(w, cols, a, d, p);
    if p.a2d0 > 0.0 {
      Mix3Bounds(p.a2d0, p.a1d1, p.a0d2, w[a][d - 2], w[a - 1][d - 1], w[a - 2][d], lo, hi);
    } else {
      Mix2Bounds(p.a1d0, p.a0d1, w[a][d - 1], w[a - 1][d], lo, hi);
    }
  }

  lemma Mix3Sum(p: real, q: real, r: real, x: real, y: real, z: real, x': real, y': real, z': real)
    ensures Mix3(p, q, r, x + x', y + y', z + z') == Mix3(p, q, r, x, y, z) + Mix3(p, q, r, x', y', z')
  {
  }

  lemma Mix2Sum(p: real, q: real, x: real, y: real, x': real, y': real)
    ensures Mix2(p, q, x + x', y + y') == Mix2(p, q, x, y) + Mix2(p, q, x', y')
  {
  }

  ghost function SumTable(v: Worth, w: Worth, cols: nat): (s: Worth)
    requires |v| == |w| && Wide(v, cols) && Wide(w, cols)
    ensures |s| == |v| && Wide(s, cols)
    ensures forall a, d :: 0 <= a < |v| && 0 <= d < cols ==> s[a][d] == v[a][d] + w[a][d]
  {
    seq(|v|, a requires 0 <= a < |v| => seq(cols, d requires 0 <= d < cols => v[a][d] + w[a][d]))
  }

  lemma SumHarmonic(v: Worth, w: Worth, cols: nat)
    requires |v| == |w| && Harmonic(v, cols) && Harmonic(w, cols)
    ensures Harmonic(SumTable(v, w, cols), cols)
  {
    var s := SumTable(v, w, cols);
    forall a: nat, d: nat | 1 <= a < |s| && 1 <= d < cols
      ensures AverageOfNext(s, cols, a, d, GetProbs(a, d))
    {
      var p := GetProbs(a, d);
      assert AverageOfNext(v, cols, a, d, p) && AverageOfNext(w, cols, a, d, p);
      if p.a2d0 > 0.0 {
        Mix3Sum(p.a2d0, p.a1d1, p.a0d2, v[a][d - 2], v[a - 1][d - 1], v[a - 2][d],
                       w[a][d - 2], w[a - 1][d - 1], w[a - 2][d]);
      } else {
        Mix2Sum(p.a1d0, p.a0d1, v[a][d - 1], v[a - 1][d], w[a][d - 1], w[a - 1][d]);
      }
    }
  }

  /** The most armies there can be left to count: one side's, or everyone's. */
  datatype Cap = AttackersOnly | DefendersOnly | Everyone

  function Most(cap: Cap, a: nat, d: nat): real {
    match cap
    case AttackersOnly => a as real
    case DefendersOnly => d as real
    case Everyone => a as real + d as real
  }

  ghost predicate BorderBounds(w: Worth, cols: nat, lo: real, cap: Cap)
    requires Wide(w, cols)
  {
    forall b, e :: 0 <= b < |w| && 0 <= e < cols && (b == 0 || e == 0) && (b + e >= 1 || lo <= 0.0) ==>
      lo <= w[b][e] <= Most(cap, b, e)
  }

  /** Bounds that hold where battles end hold of every cell that leads there. */
  lemma {:induction false} HarmonicBounds(w: Worth, cols: nat, lo: real, cap: Cap, a: nat, d: nat)
    requires Harmonic(w, cols) && a < |w| && d < cols && lo <= 1.0
    requires lo > 0.0 ==> a + d >= 1 && cap == Everyone
    requires BorderBounds(w, cols, lo, cap)
    ensures lo <= w[a][d] <= Most(cap, a, d)
    decreases a + d
  {
    if a > 0 && d > 0 {
      forall b: nat, e: nat | b <= a && e <= d && b + e < a + d && b + e >= a + d - 2 && (b + e >= 1 || lo <= 0.0)
        ensures lo <= w[b][e] <= Most(cap, a, d)
      {
        HarmonicBounds(w, cols, lo, cap, b, e);
      }
      if a + d - 2 >= 1 || lo <= 0.0 {
        AverageBounds(w, cols, a, d, lo, Most(cap, a, d));
      } else {
        OneOnOne(w, cols, lo, 2.0);
      }
    }
  }

  lemma OneOnOne(w: Worth, cols: nat, lo: real, hi: real)
    requires Harmonic(w, cols) && 1 < |w| && 1 < cols
    requires lo <= w[1][0] <= hi && lo <= w[0][1] <= hi
    ensures lo <= w[1][1] <= hi
  {
    assert AverageOfNext(w, cols, 1, 1, GetProbs(1, 1));
  }

  lemma ExpectAtEnd(count: Count, a: nat, d: nat)
    requires a == 0 || d == 0
    ensures Expect(count, a, d) == Payoff(count, a, d)
  {
  }

  lemma AttackersBorder(rows: nat, cols: nat)
    ensures BorderBounds(ExpectTable(Attackers, rows, cols), cols, 0.0, AttackersOnly)
  {
    forall b: nat, e: nat | b < rows && e < cols && (b == 0 || e == 0)
      ensures ExpectTable(Attackers, rows, cols)[b][e] == b as real
    {
      ExpectAtEnd(Attackers, b, e);
    }
  }

  lemma DefendersBorder(rows: nat, cols: nat)
    ensures BorderBounds(ExpectTable(Defenders, rows, cols), cols, 0.0, DefendersOnly)
  {
    forall b: nat, e: nat | b < rows && e < cols && (b == 0 || e == 0)
      ensures ExpectTable(Defenders, rows, cols)[b][e] == e as real
    {
      ExpectAtEnd(Defenders, b, e);
    }
  }

  lemma EveryoneBorder(rows: nat, cols: nat)
    ensures BorderBounds(SumTable(ExpectTable(Attackers, rows, cols), ExpectTable(Defenders, rows, cols), cols),
                         cols, 1.0, Everyone)
  {
    var v, w := ExpectTable(Attackers, rows, cols), ExpectTable(Defenders, rows, cols);
    forall b: nat, e: nat | b < rows && e < cols && (b == 0 || e == 0)
      ensures SumTable(v, w, cols)[b][e] == b as real + e as real
    {
      ExpectAtEnd(Attackers, b, e);
      ExpectAtEnd(Defenders, b, e);
    }
  }

  lemma SideBounds(a: nat, d: nat)
    ensures 0.0 <= Expect(Attackers, a, d) <= a as real
    ensures 0.0 <= Expect(Defenders, a, d) <= d as real
  {
    ExpectTableHarmonic(Attackers, a + 1, d + 1);
    ExpectTableHarmonic(Defenders, a + 1, d + 1);
    AttackersBorder(a + 1, d + 1);
    DefendersBorder(a + 1, d + 1);
    HarmonicBounds(ExpectTable(Attackers, a + 1, d + 1), d + 1, 0.0, AttackersOnly, a, d);
    HarmonicBounds(ExpectTable(Defenders, a + 1, d + 1), d + 1, 0.0, DefendersOnly, a, d);
  }

  lemma SumOfBothHarmonic(rows: nat, cols: nat)
    ensures Harmonic(SumTable(ExpectTable(Attackers, rows, cols), ExpectTable(Defenders, rows, cols), cols), cols)
  {
    ExpectTableHarmonic(Attackers, rows, cols);
    ExpectTableHarmonic(Defenders, rows, cols);
    SumHarmonic(ExpectTable(Attackers, rows, cols), ExpectTable(Defenders, rows, cols), cols);
  }

  lemma SomeoneSurvives(a: nat, d: nat)
    requires a + d >= 1
    ensures Expect(Attackers, a, d) + Expect(Defenders, a, d) >= 1.0
  {
    SumOfBothHarmonic(a + 1, d + 1);
    EveryoneBorder(a + 1, d + 1);
    HarmonicBounds(SumTable(ExpectTable(Attackers, a + 1, d + 1), ExpectTable(Defenders, a + 1, d + 1), d + 1),
                   d + 1, 1.0, Everyone, a, d);
  }

  /** Neither side ends with more than it had, and someone is always left. */
  lemma SurvivorBounds(a: nat, d: nat)
    ensures 0.0 <= Expect(Attackers, a, d) <= a as real
    ensures 0.0 <= Expect(Defenders, a, d) <= d as real
    ensures a + d >= 1 ==> Expect(Attackers, a, d) + Expect(Defenders, a, d) >= 1.0
  {
    SideBounds(a, d);
    if a + d >= 1 {
      SomeoneSurvives(a, d);
    }
  }

  /** What is expected is rounded to the nearest number, halves up. */
  lemma RoundedToNearest(a: nat, d: nat)
    ensures var left := Expected(a, d);
      && -0.5 <= Expect(Attackers, a, d) - left.attackers as real < 0.5
      && -0.5 <= Expect(Defenders, a, d) - left.defenders as real < 0.5
  {
  }

  /** Rounded, at least one side still has an army, and neither has gained any. */
  lemma RoundedSurvivors(a: nat, d: nat)
    requires a + d >= 1
    ensures 0 <= Expected(a, d).attackers <= a
    ensures 0 <= Expected(a, d).defenders <= d
    ensures Expected(a, d).attackers >= 1 || Expected(a, d).defenders >= 1
  {
    SurvivorBounds(a, d);
  }
}
