/**
 Which side attacks always matters: exchanging the two sides of a battle changes how many
 attackers are expected to survive by at least one. So a lookup that exchanges them agrees
 with the direct computation exactly where it exchanges nothing.

 One army moved from the defence to the attack is worth `Gap`. Away from the borders `Gap`
 is an average of itself at smaller battles, so a profile that stays below it on two levels
 and along the borders stays below it everywhere.
 */
module BattleSides {
  import opened BattleOutcome
  import opened BattleProgram
  import opened BattleNumbers

  // ---------------------------------------------------------- one round, in weights

  function Survivors(a: nat, d: nat): real {
    Expect(Attackers, a, d)
  }

  lemma Borders(a: nat, d: nat)
    ensures Survivors(a, 0) == a as real && (d > 0 ==> Survivors(0, d) == 0.0)
  {
  }

  lemma RoundOfThree(a: nat, d: nat)
    requires a >= 3 && d >= 2
    ensures 7776.0 * Survivors(a, d)
         == 2890.0 * Survivors(a, d - 2) + 2611.0 * Survivors(a - 1, d - 1) + 2275.0 * Survivors(a - 2, d)
  {
    ExpectStep(Attackers, a, d, GetProbs(a, d));
  }

  lemma RoundOfTwo(d: nat)
    requires d >= 2
    ensures 7776.0 * Survivors(2, d) == 1770.0 * Survivors(2, d - 2) + 2520.0 * Survivors(1, d - 1)
  {
    ExpectStep(Attackers, 2, d, GetProbs(2, d));
    Borders(0, d);
  }

  lemma RoundOfOne(d: nat)
    requires d >= 2
    ensures 7776.0 * Survivors(1, d) == 1980.0 * Survivors(1, d - 1)
  {
    ExpectStep(Attackers, 1, d, GetProbs(1, d));
    Borders(0, d);
  }

  /** Against a single defender: a win leaves all, a loss takes one. */
  lemma RoundOfLast(a: nat)
    requires a >= 1
    ensures 7776.0 * Survivors(a, 1)
         == if a >= 3 then 5130.0 * a as real + 2646.0 * Survivors(a - 1, 1)
            else if a == 2 then 4500.0 * a as real + 3276.0 * Survivors(a - 1, 1)
            else 3240.0 * a as real
  {
    ExpectStep(Attackers, a, 1, GetProbs(a, 1));
    Borders(a, 1);
  }

  // ----------------------------------------------------------- small battles, by table

  ghost predicate Close(x: real, y: int, distance: nat) {
    -(distance as real) <= UNIT as real * x - y as real <= distance as real
  }

  /** The error of an entry is that of its own rounding and the average error of its successors. */
  lemma CloseByThree(a: nat, d: nat, v: int, x: int, y: int, z: int)
    requires a >= 3 && d >= 2 && Near(7776 * v, 2890 * x + 2611 * y + 2275 * z, 7776)
    requires Close(Survivors(a, d - 2), x, a + d - 1) && Close(Survivors(a - 1, d - 1), y, a + d - 1)
    requires Close(Survivors(a - 2, d), z, a + d - 1)
    ensures Close(Survivors(a, d), v, a + d)
  {
    RoundOfThree(a, d);
  }

  lemma CloseByTwo(d: nat, v: int, x: int, y: int)
    requires d >= 2 && Near(7776 * v, 1770 * x + 2520 * y, 7776)
    requires Close(Survivors(2, d - 2), x, d + 1) && Close(Survivors(1, d - 1), y, d + 1)
    ensures Close(Survivors(2, d), v, d + 2)
  {
    RoundOfTwo(d);
  }

  lemma CloseByOne(d: nat, v: int, x: int)
    requires d >= 2 && Near(7776 * v, 1980 * x, 7776) && Close(Survivors(1, d - 1), x, d)
    ensures Close(Survivors(1, d), v, d + 1)
  {
    RoundOfOne(d);
  }

  lemma CloseByLast(a: nat, v: int, y: int)
    requires a >= 1 && Close(Survivors(a - 1, 1), y, a) && (a == 1 ==> y == 0)
    requires Near(7776 * v, if a >= 3 then 5130 * (UNIT * a) + 2646 * y
                            else if a == 2 then 4500 * (UNIT * a) + 3276 * y else 3240 * (UNIT * a), 7776)
    ensures Close(Survivors(a, 1), v, a + 1)
  {
    RoundOfLast(a);
  }

  /** Entry `d` of row `a` is within a + d units of what it stands for. */
  ghost predicate IsClose(t: Table, a: nat, d: nat) {
    d < |t(a)| && Close(Survivors(a, d), t(a)[d], a + d)
  }

  /** A table that fits is close throughout. */
  lemma {:induction false} TableIsClose(t: Table, last: nat, a: nat, d: nat)
    requires TableFits(t, last) && a <= last && d < |t(a)|
    ensures IsClose(t, a, d)
    decreases a + d
  {
    assert BorderFits(t, a);
    if a == 0 || d == 0 {
      Borders(a, d);
    } else {
      assert EntryFits(t, a, d);
      if d == 1 {
        TableIsClose(t, last, a - 1, 1);
      } else if a == 1 {
        TableIsClose(t, last, 1, d - 1);
      } else {
        TableIsClose(t, last, a, d - 2);
        TableIsClose(t, last, a - 1, d - 1);
        if a >= 3 {
          TableIsClose(t, last, a - 2, d);
        }
      }
      EntryIsClose(t, last, a, d);
    }
  }

  /** An entry that fits close ones is close. */
  lemma EntryIsClose(t: Table, last: nat, a: nat, d: nat)
    requires TableFits(t, last) && 1 <= a <= last && 1 <= d && EntryFits(t, a, d)
    requires d == 1 ==> IsClose(t, a - 1, 1)
    requires d >= 2 && a == 1 ==> IsClose(t, a, d - 1)
    requires d >= 2 && a >= 2 ==> IsClose(t, a, d - 2) && IsClose(t, a - 1, d - 1)
    requires d >= 2 && a >= 3 ==> IsClose(t, a - 2, d)
    ensures IsClose(t, a, d)
  {
    assert BorderFits(t, 0) && BorderFits(t, a);
    if d == 1 {
      CloseByLast(a, t(a)[1], t(a - 1)[1]);
    } else if a == 1 {
      CloseByOne(d, t(a)[d], t(a)[d - 1]);
    } else if a == 2 {
      CloseByTwo(d, t(a)[d], t(a)[d - 2], t(a - 1)[d - 1]);
    } else {
      CloseByThree(a, d, t(a)[d], t(a)[d - 2], t(a - 1)[d - 1], t(a - 2)[d]);
    }
  }

  lemma RowIsClose(a: nat, d: nat)
    requires a <= LAST_ROW && d < |TableRow(a)|
    ensures Close(Survivors(a, d), TableRow(a)[d], a + d)
  {
    SmallBattlesFit();
    TableIsClose(SmallBattles(), LAST_ROW, a, d);
  }

  // ------------------------------------------------- one army from defence to attack

  /** What moving one army from the defence to the attack is worth, in surviving attackers. */
  function Gap(a: nat, d: nat): real {
    Survivors(a + 1, d) - Survivors(a, d + 1)
  }

  /** A gap is what the step between two neighbouring rows says, up to the distances of the entries. */
  lemma GapFromTable(a: nat, d: nat, bound: int)
    requires a < LAST_ROW && d < |TableRow(a + 1)| && d + 1 < |TableRow(a)| && Step(a, d) >= bound + 2 * (a + d + 1)
    ensures UNIT as real * Gap(a, d) >= bound as real
  {
    RowIsClose(a + 1, d);
    RowIsClose(a, d + 1);
  }

  lemma GapAverages(a: nat, d: nat)
    requires a >= 3 && d >= 2
    ensures 7776.0 * Gap(a, d) == 2890.0 * Gap(a, d - 2) + 2611.0 * Gap(a - 1, d - 1) + 2275.0 * Gap(a - 2, d)
  {
    RoundOfThree(a + 1, d);
    RoundOfThree(a, d + 1);
  }

  lemma OneAttackerLosesGround(d: nat)
    requires d >= 1
    ensures 0.0 <= Survivors(1, d + 1) <= Survivors(1, d)
  {
    RoundOfOne(d + 1);
    SurvivorBounds(1, d);
  }

  /** Against one defender the attack loses at most one army on average. */
  lemma {:induction false} OneDefender(a: nat)
    requires a >= 1
    ensures a as real - 1.0 <= Survivors(a, 1) <= a as real
  {
    SurvivorBounds(a, 1);
    RoundOfLast(a);
    if a > 1 {
      OneDefender(a - 1);
    }
  }

  lemma GapAtOneDefender(a: nat)
    requires a >= 1
    ensures Gap(a, 1) >= 0.0
  {
    OneDefender(a);
    RoundOfLast(a + 1);
    if a >= 3 {
      RoundOfThree(a, 2);
      Borders(a, 0);
      OneDefender(a - 1);
      SurvivorBounds(a - 2, 2);
    } else if a == 2 {
      RoundOfTwo(2);
      RoundOfLast(2);
      RoundOfLast(1);
      Borders(2, 0);
    } else {
      RoundOfOne(2);
      RoundOfLast(1);
    }
  }

  lemma GapAtTwoAttackers(d: nat)
    requires d >= 2 && Gap(2, d - 2) >= 0.0 && Gap(1, d - 1) >= 0.0
    ensures Gap(2, d) >= 0.0
  {
    RoundOfThree(3, d);
    RoundOfTwo(d + 1);
    SurvivorBounds(1, d);
  }

  lemma GapAtOneAttacker(d: nat)
    requires d >= 2
    ensures Gap(1, d) >= 0.0
  {
    RoundOfTwo(d);
    RoundOfOne(d + 1);
    OneAttackerLosesGround(d - 1);
    SurvivorBounds(2, d - 2);
  }

  /** It is never worth less than nothing. */
  lemma {:induction false} GapIsNotNegative(a: nat, d: nat)
    ensures Gap(a, d) >= 0.0
    decreases a + d
  {
    if d == 0 {
      Borders(a + 1, 0);
      SurvivorBounds(a, 1);
    } else if a == 0 {
      Borders(0, d + 1);
      SurvivorBounds(1, d);
    } else if d == 1 {
      GapAtOneDefender(a);
    } else if a == 1 {
      GapAtOneAttacker(d);
    } else if a == 2 {
      GapIsNotNegative(2, d - 2);
      GapIsNotNegative(1, d - 1);
      GapAtTwoAttackers(d);
    } else {
      GapIsNotNegative(a, d - 2);
      GapIsNotNegative(a - 1, d - 1);
      GapIsNotNegative(a - 2, d);
      GapAverages(a, d);
    }
  }

  // --------------------------------------------------- large attacks on few defenders

  lemma NineOnFew(a: nat)
    requires a == 9
    ensures 8.483 <= Survivors(a, 1) <= 8.4843 && Survivors(a, 2) <= 7.47
  {
    LargeAttacks();
    RowIsClose(a, 1);
    RowIsClose(a, 2);
  }

  lemma TenOnTwo(a: nat)
    requires a == 10
    ensures Survivors(a, 2) <= 8.47
  {
    LargeAttacks();
    RowIsClose(a, 2);
  }

  lemma GapOfTenOrEleven(a: nat)
    requires a == 10 || a == 11
    ensures Gap(a, 2) >= 1.75
  {
    LargeAttacks();
    GapFromTable(a, 2, 175000);
  }

  lemma {:induction false} LossToOne(a: nat)
    requires a >= 9
    ensures a as real - 0.517 <= Survivors(a, 1) <= a as real - 0.5157
  {
    if a == 9 {
      NineOnFew(a);
    } else {
      LossToOne(a - 1);
      RoundOfLast(a);
    }
  }

  lemma {:induction false} LossToTwo(a: nat)
    requires a >= 9
    ensures Survivors(a, 2) <= a as real - 1.53
  {
    if a == 9 {
      NineOnFew(a);
    } else if a == 10 {
      TenOnTwo(a);
    } else {
      LossToTwo(a - 2);
      LossToOne(a - 1);
      RoundOfThree(a, 2);
      Borders(a, 0);
    }
  }

  lemma GapAtFew(a: nat)
    requires a >= 9
    ensures Gap(a, 0) >= 1.5157 && Gap(a, 1) >= 2.013
  {
    Borders(a + 1, 0);
    LossToOne(a);
    LossToOne(a + 1);
    LossToTwo(a);
  }

  lemma {:induction false} GapAtTwo(a: nat)
    requires a >= 10
    ensures Gap(a, 2) >= 1.75
  {
    if a <= 11 {
      GapOfTenOrEleven(a);
    } else {
      GapAtTwo(a - 2);
      GapAtFew(a - 1);
      GapAtFew(a);
      GapAverages(a, 2);
    }
  }

  // ------------------------------------------------------------------- the profile

  function Decay(k: int): (r: real)
    ensures r > 0.0
    decreases if k < 0 then -k else k
  {
    if k == 0 then 1.0 else if k > 0 then 0.8 * Decay(k - 1) else 1.25 * Decay(k + 1)
  }

  lemma DecayStep(k: int)
    ensures Decay(k + 1) == 0.8 * Decay(k)
  {
  }

  /** What `Gap` stays above, by half the lead of the attack. */
  function Profile(k: int): real {
    1.75 - 0.75 * Decay(k)
  }

  lemma ProfileAverages(k: int)
    ensures 7776.0 * Profile(k) <= 2890.0 * Profile(k + 1) + 2611.0 * Profile(k) + 2275.0 * Profile(k - 1)
  {
    DecayStep(k);
    DecayStep(k - 1);
  }

  lemma {:induction false} ProfileFallsBelowZero(k: int)
    requires k <= -4
    ensures Profile(k) <= 0.0 && Decay(k) >= 2.4
    decreases -k
  {
    if k < -4 {
      ProfileFallsBelowZero(k + 1);
    } else {
      assert Decay(-3) == 1.25 * Decay(-2) == 1.5625 * Decay(-1);
    }
  }

  /** The steps of the first levels are no less than the profile. */
  lemma ProfileNearCentre(k: int)
    requires k >= -3
    ensures UNIT as real * Profile(k) <= LeastStep(k) as real
  {
    assert Decay(-3) == 1.25 * Decay(-2) == 1.5625 * Decay(-1);
    assert Decay(2) == 0.8 * Decay(1);
  }

  // ------------------------------------------------------------ the first two levels

  lemma GapAtFirstLevel(a: nat, d: nat, k: int)
    requires (a + d == 18 && a - d == 2 * k && 1 <= d <= 12) || (a + d == 13 && a - d == 2 * k + 1 && 1 <= d <= 9)
    ensures Gap(a, d) >= Profile(k)
  {
    if a + d == 18 {
      StepsOfEighteen(a, d, k);
    } else {
      StepsOfThirteen(a, d, k);
    }
    GapFromTable(a, d, LeastStep(k));
    ProfileNearCentre(k);
  }

  lemma FirstLevels(a: nat, d: nat, k: int)
    requires a >= 1 && d >= 1 && ((a + d == 18 && a - d == 2 * k) || (a + d == 13 && a - d == 2 * k + 1))
    ensures Gap(a, d) >= Profile(k)
  {
    if k <= -4 {
      ProfileFallsBelowZero(k);
      GapIsNotNegative(a, d);
    } else {
      GapAtFirstLevel(a, d, k);
    }
  }

  lemma AverageAbove(a: nat, d: nat, k: int)
    requires a >= 3 && d >= 2
    requires Gap(a, d - 2) >= Profile(k + 1) && Gap(a - 1, d - 1) >= Profile(k) && Gap(a - 2, d) >= Profile(k - 1)
    ensures Gap(a, d) >= Profile(k)
  {
    GapAverages(a, d);
    ProfileAverages(k);
  }

  lemma GapAtTheEdge(a: nat, d: nat, k: int)
    requires a >= 1 && d >= 1 && 2 * k <= a - d <= 2 * k + 1 && a + d >= 13 && (a <= 2 || d <= 2)
    ensures Gap(a, d) >= Profile(k)
  {
    if a <= 2 {
      ProfileFallsBelowZero(k);
      GapIsNotNegative(a, d);
    } else if d == 1 {
      GapAtFew(a);
    } else {
      GapAtTwo(a);
    }
  }

  type Gaps = (nat, nat) -> real

  type Bounds = int -> real

  ghost predicate Above(gap: Gaps, bound: Bounds, a: nat, d: nat, k: int) {
    gap(a, d) >= bound(k)
  }

  /** From the first two levels on, with `k` half the lead of the attack. */
  predicate FromFirstLevels(a: int, d: int, k: int) {
    a >= 1 && d >= 1 && ((a - d == 2 * k && a + d >= 18) || (a - d == 2 * k + 1 && a + d >= 13))
  }

  predicate AtTheStart(a: int, d: int, k: int) {
    FromFirstLevels(a, d, k) && (a + d == 13 || a + d == 18 || a <= 2 || d <= 2)
  }

  ghost predicate StartsAbove(gap: Gaps, bound: Bounds, a: nat, d: nat, k: int) {
    AtTheStart(a, d, k) ==> Above(gap, bound, a, d, k)
  }

  /** The three gaps that average to the one at (a, d) are above their bounds. */
  ghost predicate ComesAbove(gap: Gaps, bound: Bounds, a: nat, d: nat, k: int) {
    && a >= 3 && d >= 3 && Above(gap, bound, a, d - 2, k + 1)
    && Above(gap, bound, a - 1, d - 1, k) && Above(gap, bound, a - 2, d, k - 1)
  }

  ghost predicate StaysAbove(gap: Gaps, bound: Bounds, a: nat, d: nat, k: int) {
    ComesAbove(gap, bound, a, d, k) ==> Above(gap, bound, a, d, k)
  }

  /** What is above a bound at the start, and where it is above it before, is above it throughout. */
  lemma {:induction false} AboveThroughout(gap: Gaps, bound: Bounds, a: nat, d: nat, k: int)
    requires forall b: nat, e: nat, l: int :: StartsAbove(gap, bound, b, e, l)
    requires forall b: nat, e: nat, l: int :: StaysAbove(gap, bound, b, e, l)
    requires FromFirstLevels(a, d, k)
    ensures Above(gap, bound, a, d, k)
    decreases a + d
  {
    if AtTheStart(a, d, k) {
      assert StartsAbove(gap, bound, a, d, k);
    } else {
      AboveThroughout(gap, bound, a, d - 2, k + 1);
      AboveThroughout(gap, bound, a - 1, d - 1, k);
      AboveThroughout(gap, bound, a - 2, d, k - 1);
      assert StaysAbove(gap, bound, a, d, k);
    }
  }

  lemma GapStartsAbove(a: nat, d: nat, k: int)
    requires AtTheStart(a, d, k)
    ensures Gap(a, d) >= Profile(k)
  {
    if a + d == 13 || a + d == 18 {
      FirstLevels(a, d, k);
    } else {
      GapAtTheEdge(a, d, k);
    }
  }

  /** From those levels on the profile stays below. */
  lemma GapAboveProfile(a: nat, d: nat, k: int)
    requires FromFirstLevels(a, d, k)
    ensures Gap(a, d) >= Profile(k)
  {
    var gap: Gaps := (b: nat, e: nat) => Gap(b, e);
    var bound: Bounds := (l: int) => Profile(l);
    forall b: nat, e: nat, l: int
      ensures StartsAbove(gap, bound, b, e, l)
    {
      if AtTheStart(b, e, l) {
        GapStartsAbove(b, e, l);
      }
    }
    forall b: nat, e: nat, l: int
      ensures StaysAbove(gap, bound, b, e, l)
    {
      GapStaysAbove(gap, bound, b, e, l);
    }
    AboveThroughout(gap, bound, a, d, k);
  }

  lemma GapStaysAbove(gap: Gaps, bound: Bounds, a: nat, d: nat, k: int)
    requires gap == ((b: nat, e: nat) => Gap(b, e)) && bound == ((l: int) => Profile(l))
    ensures StaysAbove(gap, bound, a, d, k)
  {
    if ComesAbove(gap, bound, a, d, k) {
      AverageAbove(a, d, k);
    }
  }

  lemma EvenCentreIsWide(m: nat)
    requires m >= 1
    ensures Gap(m, m) >= 1.0
  {
    if m <= 8 {
      StepsOfEvenSides(m);
      GapFromTable(m, m, UNIT);
    } else {
      GapAboveProfile(m, m, 0);
    }
  }

  lemma OddCentreIsWide(m: nat, n: nat)
    requires m >= 1 && n == m + 1
    ensures Gap(n, m) >= 1.0
  {
    if m <= 5 {
      StepsOfOneAhead(m);
      GapFromTable(n, m, UNIT);
    } else {
      GapAboveProfile(n, m, 0);
    }
  }

  // ------------------------------------------------------------------- exchanging sides

  /** Armies moved over to the attack one by one never lose it survivors. */
  lemma {:induction false} MovingOverHelps(a: nat, d: nat, moved: nat)
    ensures Survivors(a + moved, d) >= Survivors(a, d + moved)
    decreases moved
  {
    if moved > 0 {
      MovingOverHelps(a, d + 1, moved - 1);
      GapIsNotNegative(a + moved - 1, d);
    }
  }

  lemma OddLead(a: nat, d: nat, m: nat, moved: nat)
    requires d >= 1 && m == d + moved && a == m + 1 + moved
    ensures Survivors(a, d) - Survivors(d, a) >= 1.0
  {
    EvenCentreIsWide(m);
    MovingOverHelps(m + 1, d, moved);
    MovingOverHelps(d, m + 1, moved);
  }

  lemma EvenLead(a: nat, d: nat, m: nat, moved: nat)
    requires d >= 1 && m == d + moved && a == m + 2 + moved
    ensures Survivors(a, d) - Survivors(d, a) >= 1.0
  {
    OddCentreIsWide(m, m + 1);
    GapIsNotNegative(m, m + 1);
    MovingOverHelps(m + 2, d, moved);
    MovingOverHelps(d, m + 2, moved);
  }

  /** The larger side had better attack: with the sides exchanged an attacker less survives. */
  lemma LargerSideAttacks(a: nat, d: nat)
    requires a > d >= 1
    ensures Survivors(a, d) - Survivors(d, a) >= 1.0
  {
    var moved := (a - d - 1) / 2;
    if a == d + 1 + 2 * moved {
      OddLead(a, d, d + moved, moved);
    } else {
      EvenLead(a, d, d + moved, moved);
    }
  }

  /** Rounded expectations tell the two sides apart. */
  lemma SidesMatter(a: nat, d: nat)
    requires a >= 1 && d >= 1 && a != d
    ensures Expected(a, d).attackers != Expected(d, a).attackers
  {
    if a > d {
      LargerSideAttacks(a, d);
    } else {
      LargerSideAttacks(d, a);
    }
  }

  /** The emitted lookup agrees with the direct function exactly outside its table and for equal sides. */
  lemma LookupAgreesExactly(attackers: nat, defenders: nat)
    ensures Looked(attackers, defenders) == Expected(attackers, defenders)
       <==> attackers == defenders || !(1 <= attackers <= TABLE_SIZE && 1 <= defenders <= TABLE_SIZE)
  {
    if attackers >= 1 && defenders >= 1 && attackers != defenders {
      SidesMatter(attackers, defenders);
    }
  }
}
