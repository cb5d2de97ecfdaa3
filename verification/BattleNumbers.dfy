/**
 Expected surviving attackers of small battles, in units of 1/100000 and rounded: row `a`
 of the table is for `a` attackers, position `d` in it for `d` defenders. Every entry is
 within one unit of the average of the entries that a round of its battle leads to.
 */
module BattleNumbers {
  const UNIT: int := 100000
  const LAST_ROW: nat := 18

  function TableRow(a: nat): (row: seq<int>)
    requires a <= LAST_ROW
    ensures |row| == (if a <= 6 then 14 else 20 - a) && row[0] == UNIT * a
  {
    match a
    case 0 => [0, 0, 0, 0, 0, 0, 0, 0, 0, 0, 0, 0, 0, 0]
    case 1 => [100000, 41667, 10610, 2702, 688, 175, 45, 11, 3, 1, 0, 0, 0, 0]
    case 2 => [200000, 133295, 59028, 33779, 14312, 7912, 3314, 1815, 758, 414, 173, 94, 39, 21]
    case 3 => [300000, 243274, 159358, 111025, 70770, 46120, 28972, 18257, 11378, 7040, 4368, 2675, 1655, 1007]
    case 4 => [400000, 346670, 247618, 192233, 133495, 97522, 66070, 46504, 30907, 21225, 13901, 9383, 6076, 4049]
    case 5 =>
      [500000, 447825, 348855, 282064, 214907, 163149, 121093, 88161, 63949, 45203, 32172, 22250, 15592, 10604]
    case 6 =>
      [600000, 548218, 445808, 377127, 299454, 240854, 185405, 143781, 107552, 81119, 59218, 43696, 31257, 22660]
    case 7 => [700000, 648352, 546302, 473179, 392542, 324141, 262192, 208517, 164433, 126835, 97763, 73533, 55568]
    case 8 => [800000, 748398, 645455, 571917, 486380, 414829, 343849, 284277, 229275, 184599, 145125, 114218]
    case 9 => [900000, 848413, 745615, 670483, 583994, 507338, 433044, 365017, 304505, 249754, 203757]
    case 10 => [1000000, 948418, 845373, 770170, 681620, 603695, 524279, 452943, 384494, 324592]
    case 11 => [1100000, 1048420, 945421, 869670, 780834, 700520, 619603, 543186, 471455]
    case 12 => [1200000, 1148421, 1045351, 969595, 879945, 799163, 715643, 637579]
    case 13 => [1300000, 1248421, 1145365, 1069425, 979696, 897873, 813726]
    case 14 => [1400000, 1348421, 1245345, 1169407, 1079371, 997385]
    case 15 => [1500000, 1448421, 1345349, 1269351, 1179294]
    case 16 => [1600000, 1548421, 1445343, 1369347]
    case 17 => [1700000, 1648421, 1545344]
    case 18 => [1800000, 1748421]
  }

  ghost predicate Near(x: int, y: int, distance: int) {
    -distance <= x - y <= distance
  }

  /** Entry `d` of a row is the rounded average of its successors; the weights are 7776ths. */
  ghost predicate CellFits(p2: seq<int>, p1: seq<int>, row: seq<int>, a: nat, d: nat)
    requires 1 <= d < |row| && |row| <= |p1| && (a >= 2 ==> |row| <= |p2|)
  {
    Near(7776 * row[d],
         if d >= 2 && a >= 3 then 2890 * row[d - 2] + 2611 * p1[d - 1] + 2275 * p2[d]
         else if d >= 2 && a == 2 then 1770 * row[d - 2] + 2520 * p1[d - 1] + 3486 * p2[d]
         else if d >= 2 then 1980 * row[d - 1] + 5796 * p1[d]
         else if a >= 3 then 5130 * row[d - 1] + 2646 * p1[d]
         else if a == 2 then 4500 * row[d - 1] + 3276 * p1[d]
         else 3240 * row[d - 1] + 4536 * p1[d],
         7776)
  }

  /** A table by rows, whose first row has no attackers and so no survivors. */
  type Table = nat -> seq<int>

  ghost predicate EntryFits(t: Table, a: nat, d: nat) {
    && 1 <= a && 1 <= d < |t(a)| && |t(a)| <= |t(a - 1)| && (a >= 2 ==> |t(a)| <= |t(a - 2)|)
    && CellFits(if a >= 2 then t(a - 2) else [], t(a - 1), t(a), a, d)
  }

  ghost predicate BorderFits(t: Table, a: nat) {
    && |t(a)| > 0 && t(a)[0] == UNIT * a
    && (a == 0 ==> forall d :: 0 <= d < |t(a)| ==> t(a)[d] == 0)
  }

  /** Every entry up to row `last` follows from those before it. */
  ghost predicate TableFits(t: Table, last: nat) {
    && (forall a :: 0 <= a <= last ==> BorderFits(t, a))
    && forall a, d :: 1 <= a <= last && 1 <= d < |t(a)| ==> EntryFits(t, a, d)
  }

  function SmallBattles(): Table {
    (a: nat) => if a <= LAST_ROW then TableRow(a) else []
  }

  ghost predicate NumbersFit(a: nat, d: nat)
    requires 1 <= a <= LAST_ROW && 1 <= d < |TableRow(a)|
  {
    CellFits(if a >= 2 then TableRow(a - 2) else [], TableRow(a - 1), TableRow(a), a, d)
  }

  lemma RowsToTwoFit(a: nat, d: nat)
    requires 1 <= a <= 2 && 1 <= d < |TableRow(a)|
    ensures NumbersFit(a, d)
  {
  }

  lemma RowThreeFits(d: nat)
    requires 1 <= d < |TableRow(3)|
    ensures NumbersFit(3, d)
  {
  }

  lemma RowFourFits(d: nat)
    requires 1 <= d < |TableRow(4)|
    ensures NumbersFit(4, d)
  {
  }

  lemma RowFiveFits(d: nat)
    requires 1 <= d < |TableRow(5)|
    ensures NumbersFit(5, d)
  {
  }

  lemma RowSixFits(d: nat)
    requires 1 <= d < |TableRow(6)|
    ensures NumbersFit(6, d)
  {
  }

  lemma RowsToEightFit(a: nat, d: nat)
    requires 7 <= a <= 8 && 1 <= d < |TableRow(a)|
    ensures NumbersFit(a, d)
  {
  }

  lemma RowsToTenFit(a: nat, d: nat)
    requires 9 <= a <= 10 && 1 <= d < |TableRow(a)|
    ensures NumbersFit(a, d)
  {
  }

  lemma RowsToThirteenFit(a: nat, d: nat)
    requires 11 <= a <= 13 && 1 <= d < |TableRow(a)|
    ensures NumbersFit(a, d)
  {
  }

  lemma LastRowsFit(a: nat, d: nat)
    requires 14 <= a <= 18 && 1 <= d < |TableRow(a)|
    ensures NumbersFit(a, d)
  {
  }

  lemma AllNumbersFit(a: nat, d: nat)
    requires 1 <= a <= LAST_ROW && 1 <= d < |TableRow(a)|
    ensures NumbersFit(a, d)
  {
    if a <= 2 {
      RowsToTwoFit(a, d);
    } else if a == 3 {
      RowThreeFits(d);
    } else if a == 4 {
      RowFourFits(d);
    } else if a == 5 {
      RowFiveFits(d);
    } else if a == 6 {
      RowSixFits(d);
    } else if a <= 8 {
      RowsToEightFit(a, d);
    } else if a <= 10 {
      RowsToTenFit(a, d);
    } else if a <= 13 {
      RowsToThirteenFit(a, d);
    } else {
      LastRowsFit(a, d);
    }
  }

  lemma FirstRowIsBlank(d: nat)
    requires d < |TableRow(0)|
    ensures TableRow(0)[d] == 0
  {
  }

  /** The whole table fits. */
  lemma SmallBattlesFit()
    ensures TableFits(SmallBattles(), LAST_ROW)
  {
    forall a: nat | a <= LAST_ROW
      ensures BorderFits(SmallBattles(), a)
    {
      forall d: nat | d < |TableRow(0)|
        ensures TableRow(0)[d] == 0
      {
        FirstRowIsBlank(d);
      }
    }
    forall a: nat, d: nat | 1 <= a <= LAST_ROW && 1 <= d < |TableRow(a)|
      ensures EntryFits(SmallBattles(), a, d)
    {
      AllNumbersFit(a, d);
    }
  }

  // ------------------------------------------------------- neighbouring rows compared

  /** How much more row `a + 1` has for `d` defenders than row `a` for one more. */
  function Step(a: nat, d: nat): int
    requires a < LAST_ROW && d < |TableRow(a + 1)| && d + 1 < |TableRow(a)|
  {
    TableRow(a + 1)[d] - TableRow(a)[d + 1]
  }

  /** The least step that is used, by half the lead of the attack. */
  function LeastStep(k: int): int {
    if k >= 3 then 175000
    else if k == 2 then 127000
    else if k == 1 then 115000
    else if k == 0 then 100000
    else if k == -1 then 81500
    else if k == -2 then 58000
    else 29000
  }

  lemma StepsOfEighteen(a: nat, d: nat, k: int)
    requires a + d == 18 && 1 <= d <= 12 && a - d == 2 * k
    ensures Step(a, d) >= LeastStep(k) + 2 * (a + d + 1)
  {
  }

  lemma StepsOfThirteen(a: nat, d: nat, k: int)
    requires a + d == 13 && 1 <= d <= 9 && a - d == 2 * k + 1
    ensures Step(a, d) >= LeastStep(k) + 2 * (a + d + 1)
  {
  }

  lemma StepsOfEvenSides(m: nat)
    requires 1 <= m <= 8
    ensures Step(m, m) >= UNIT + 2 * (m + m + 1)
  {
  }

  lemma StepsOfOneAhead(m: nat)
    requires 1 <= m <= 5
    ensures Step(m + 1, m) >= UNIT + 2 * (m + 1 + m + 1)
  {
  }

  lemma LargeAttacks()
    ensures TableRow(9)[1] == 848413 && TableRow(9)[2] == 745615 && TableRow(10)[2] == 845373
    ensures Step(10, 2) >= 175026 && Step(11, 2) >= 175028
  {
  }
}
