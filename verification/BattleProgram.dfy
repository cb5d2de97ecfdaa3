/**
 The forward program for expected survivors, on its buffer of three rows, and the table
 generator and lookup built on it.
 */
module BattleProgram {
  import opened BattleOutcome
  import opened BattleWindow

  // ----------------------------------------------------------------- the buffer

  /** Where the buffer keeps cell `d` of a slot; row `a` is in slot a modulo 3. */
  function At(cols: nat, slot: nat, d: nat): (i: nat)
    requires d < cols && slot < 3
    ensures i == slot * cols + d < 3 * cols
  {
    if slot == 0 then d else if slot == 1 then cols + d else 2 * cols + d
  }

  function Row(st: seq<real>, cols: nat, slot: nat): (r: seq<real>)
    requires |st| == 3 * cols && slot < 3
    ensures |r| == cols
  {
    if slot == 0 then st[..cols] else if slot == 1 then st[cols..2 * cols] else st[2 * cols..]
  }

  /** The slots of rows a-1 and a-2, when row `a` is in `slot`. */
  function Next(slot: nat): (r: nat)
    requires slot < 3
    ensures r < 3
  {
    if slot == 0 then 2 else slot - 1
  }

  function Last(slot: nat): (r: nat)
    requires slot < 3
    ensures r < 3
  {
    if slot == 2 then 0 else slot + 1
  }

  lemma SlotsOfRows(a: nat)
    ensures a >= 1 ==> (a - 1) % 3 == Next(a % 3)
    ensures a >= 2 ==> (a - 2) % 3 == Last(a % 3)
  {
  }

  lemma SlotCycle(slot: nat)
    requires slot < 3
    ensures Next(Next(slot)) == Last(slot) && Last(Next(slot)) == slot
    ensures Last(Last(slot)) == Next(slot) && Next(Last(slot)) == slot
  {
  }

  /** The three live rows, when the row being consumed is in `slot`. */
  ghost function View(st: seq<real>, cols: nat, slot: nat): (w: Window)
    requires |st| == 3 * cols && slot < 3
    ensures BattleWindow.Sized(w, cols)
  {
    Window(Row(st, cols, slot), Row(st, cols, Next(slot)), Row(st, cols, Last(slot)))
  }

  ghost predicate NonNegative(st: seq<real>) {
    forall i :: 0 <= i < |st| ==> st[i] >= 0.0
  }

  lemma RowUpdate(st: seq<real>, cols: nat, slot: nat, other: nat, d: nat, x: real)
    requires |st| == 3 * cols && d < cols && slot < 3 && other < 3
    ensures Row(st[At(cols, slot, d) := x], cols, other)
         == if other == slot then Row(st, cols, slot)[d := x] else Row(st, cols, other)
  {
  }

  /** Adds `x` to a cell of one slot of the buffer. */
  method AddTo(dp: array<real>, cols: nat, slot: nat, d: nat, x: real)
    requires dp.Length == 3 * cols && d < cols && slot < 3 && x >= 0.0 && NonNegative(dp[..])
    modifies dp
    ensures NonNegative(dp[..])
    ensures Row(dp[..], cols, slot) == old(Row(dp[..], cols, slot))[d := old(Row(dp[..], cols, slot))[d] + x]
    ensures Row(dp[..], cols, Next(slot)) == old(Row(dp[..], cols, Next(slot)))
    ensures Row(dp[..], cols, Last(slot)) == old(Row(dp[..], cols, Last(slot)))
  {
    ghost var st := dp[..];
    var i := At(cols, slot, d);
    dp[i] := dp[i] + x;
    assert dp[..] == st[i := st[i] + x];
    assert Row(st, cols, slot)[d] == st[i];
    forall other: nat | other < 3
      ensures Row(dp[..], cols, other)
           == if other == slot then Row(st, cols, slot)[d := st[i] + x] else Row(st, cols, other)
    {
      RowUpdate(st, cols, slot, other, d, st[i] + x);
    }
  }

  /** Hands the probability of cell (a, d) on in the buffer itself. */
  method SpreadInPlace(dp: array<real>, cols: nat, a: nat, d: nat, p: Odds)
    requires dp.Length == 3 * cols && 1 <= d < cols && a >= 1 && OddsFit(a, d, p) && NonNegative(dp[..])
    requires p.a2d0 >= 0.0 && p.a1d1 >= 0.0 && p.a0d2 >= 0.0 && p.a1d0 >= 0.0 && p.a0d1 >= 0.0
    modifies dp
    ensures NonNegative(dp[..])
    ensures View(dp[..], cols, a % 3) == Spread(old(View(dp[..], cols, a % 3)), cols, a, d, p)
  {
    SlotsOfRows(a);
    if p.a2d0 > 0.0 {
      // The program's own guards on the cells two rows away always hold here.
      assert d >= 2 && a >= 2;
      SpreadTwoLosses(dp, cols, a % 3, (a - 1) % 3, (a - 2) % 3, d, p);
    } else {
      SpreadOneLoss(dp, cols, a % 3, (a - 1) % 3, d, p);
    }
  }

  lemma CellOfView(st: seq<real>, cols: nat, slot: nat, d: nat)
    requires |st| == 3 * cols && slot < 3 && d < cols
    ensures st[At(cols, slot, d)] == View(st, cols, slot).cur[d]
  {
  }

  method SpreadTwoLosses(dp: array<real>, cols: nat, slot: nat, next: nat, last: nat, d: nat, p: Odds)
    requires dp.Length == 3 * cols && 2 <= d < cols && NonNegative(dp[..])
    requires slot < 3 && next == Next(slot) && last == Last(slot)
    requires p.a2d0 >= 0.0 && p.a1d1 >= 0.0 && p.a0d2 >= 0.0
    modifies dp
    ensures NonNegative(dp[..])
    ensures View(dp[..], cols, slot) == TwoLosses(old(View(dp[..], cols, slot)), cols, d, p)
  {
    ghost var w := View(dp[..], cols, slot);
    var m := At(cols, slot, d);
    CellOfView(dp[..], cols, slot, d);
    ProductNonNegative(dp[m], p.a2d0);
    ProductNonNegative(dp[m], p.a1d1);
    ProductNonNegative(dp[m], p.a0d2);
    var x, y, z := Share(dp[m], p.a2d0), Share(dp[m], p.a1d1), Share(dp[m], p.a0d2);
    AddThree(dp, cols, slot, next, last, d, x, y, z);
    ShareTwoLosses(w, cols, d, p, x, y, z);
  }

  lemma ShareTwoLosses(w: Window, cols: nat, d: nat, p: Odds, x: real, y: real, z: real)
    requires BattleWindow.Sized(w, cols) && 2 <= d < cols
    requires x == Share(w.cur[d], p.a2d0) && y == Share(w.cur[d], p.a1d1) && z == Share(w.cur[d], p.a0d2)
    ensures TwoLosses(w, cols, d, p)
         == Window(w.cur[d - 2 := w.cur[d - 2] + x], w.next[d - 1 := w.next[d - 1] + y], w.last[d := w.last[d] + z])
  {
  }

  method AddThree(dp: array<real>, cols: nat, slot: nat, next: nat, last: nat, d: nat, x: real, y: real, z: real)
    requires dp.Length == 3 * cols && 2 <= d < cols && NonNegative(dp[..])
    requires slot < 3 && next == Next(slot) && last == Last(slot) && x >= 0.0 && y >= 0.0 && z >= 0.0
    modifies dp
    ensures NonNegative(dp[..])
    ensures var w := old(View(dp[..], cols, slot));
            View(dp[..], cols, slot)
              == Window(w.cur[d - 2 := w.cur[d - 2] + x], w.next[d - 1 := w.next[d - 1] + y], w.last[d := w.last[d] + z])
  {
    SlotCycle(slot);
    AddTwo(dp, cols, slot, next, d - 2, x, d - 1, y);
    AddTo(dp, cols, last, d, z);
  }

  method SpreadOneLoss(dp: array<real>, cols: nat, slot: nat, next: nat, d: nat, p: Odds)
    requires dp.Length == 3 * cols && 1 <= d < cols && NonNegative(dp[..])
    requires slot < 3 && next == Next(slot)
    requires p.a1d0 >= 0.0 && p.a0d1 >= 0.0
    modifies dp
    ensures NonNegative(dp[..])
    ensures View(dp[..], cols, slot) == OneLoss(old(View(dp[..], cols, slot)), cols, d, p)
  {
    ghost var w := View(dp[..], cols, slot);
    var m := At(cols, slot, d);
    CellOfView(dp[..], cols, slot, d);
    ProductNonNegative(dp[m], p.a1d0);
    ProductNonNegative(dp[m], p.a0d1);
    var x, y := Share(dp[m], p.a1d0), Share(dp[m], p.a0d1);
    AddTwo(dp, cols, slot, next, d - 1, x, d, y);
    ShareOneLoss(w, cols, d, p, x, y);
  }

  lemma ShareOneLoss(w: Window, cols: nat, d: nat, p: Odds, x: real, y: real)
    requires BattleWindow.Sized(w, cols) && 1 <= d < cols
    requires x == Share(w.cur[d], p.a1d0) && y == Share(w.cur[d], p.a0d1)
    ensures OneLoss(w, cols, d, p) == Window(w.cur[d - 1 := w.cur[d - 1] + x], w.next[d := w.next[d] + y], w.last)
  {
  }

  method AddTwo(dp: array<real>, cols: nat, slot: nat, next: nat, d: nat, x: real, e: nat, y: real)
    requires dp.Length == 3 * cols && d < cols && e < cols && NonNegative(dp[..])
    requires slot < 3 && next == Next(slot) && x >= 0.0 && y >= 0.0
    modifies dp
    ensures NonNegative(dp[..])
    ensures var w := old(View(dp[..], cols, slot));
            View(dp[..], cols, slot) == Window(w.cur[d := w.cur[d] + x], w.next[e := w.next[e] + y], w.last)
  {
    SlotCycle(slot);
    AddTo(dp, cols, slot, d, x);
    AddTo(dp, cols, next, e, y);
  }

  /** Clears the slot of row `a`, which row a-3 will use. */
  method ClearSlot(dp: array<real>, cols: nat, slot: nat)
    requires dp.Length == 3 * cols && NonNegative(dp[..]) && slot < 3
    modifies dp
    ensures NonNegative(dp[..])
    ensures View(dp[..], cols, Next(slot)) == Shift(old(View(dp[..], cols, slot)), cols)
  {
    ghost var st := dp[..];
    forall d | 0 <= d < cols {
      dp[At(cols, slot, d)] := 0.0;
    }
    assert Row(dp[..], cols, slot) == Zeros(cols) by {
      forall d | 0 <= d < cols ensures Row(dp[..], cols, slot)[d] == 0.0 {
        assert Row(dp[..], cols, slot)[d] == dp[At(cols, slot, d)];
      }
    }
    assert Row(dp[..], cols, Next(slot)) == Row(st, cols, Next(slot));
    assert Row(dp[..], cols, Last(slot)) == Row(st, cols, Last(slot));
  }

  /** Consumes cell (a, d): skips it, absorbs a finished battle, or plays one round. */
  method ConsumeOne(dp: array<real>, cols: nat, a: nat, d: nat, attackers0: real, defenders0: real,
                    ghost absorbed0: real, ghost goalA: real, ghost goalD: real, ghost w0: Window)
    returns (attackers: real, defenders: real, ghost absorbed: real, ghost w: Window)
    requires dp.Length == 3 * cols && NonNegative(dp[..]) && d < cols && w0 == View(dp[..], cols, a % 3)
    requires InBalance(w0, cols, a, d + 1, attackers0, defenders0, absorbed0, goalA, goalD)
    modifies dp
    ensures NonNegative(dp[..]) && w == View(dp[..], cols, a % 3)
    ensures InBalance(w, cols, a, d, attackers, defenders, absorbed, goalA, goalD)
  {
    attackers, defenders, absorbed, w := attackers0, defenders0, absorbed0, w0;
    var mass := dp[At(cols, a % 3, d)];
    assert mass == w.cur[d];
    if mass <= 0.0 {
      EmptyInBalance(w, cols, a, d, attackers, defenders, absorbed, goalA, goalD);
    } else if a == 0 {
      var gain := Share(mass, d as real);
      ShareOfZeroAndOne(mass);
      AbsorbInBalance(w, cols, a, d, attackers, defenders, absorbed, goalA, goalD, 0.0, gain);
      defenders := defenders + gain;
      absorbed := absorbed + mass;
    } else if d == 0 {
      var gain := Share(mass, a as real);
      AbsorbInBalance(w, cols, a, d, attackers, defenders, absorbed, goalA, goalD, gain, 0.0);
      attackers := attackers + gain;
      absorbed := absorbed + mass;
    } else {
      w := PlayRound(dp, cols, a, d, attackers, defenders, absorbed, goalA, goalD, w);
    }
  }

  method PlayRound(dp: array<real>, cols: nat, a: nat, d: nat, ghost attackers: real, ghost defenders: real,
                   ghost absorbed: real, ghost goalA: real, ghost goalD: real, ghost w0: Window)
    returns (ghost w: Window)
    requires dp.Length == 3 * cols && NonNegative(dp[..]) && 1 <= d < cols && 1 <= a && w0 == View(dp[..], cols, a % 3)
    requires InBalance(w0, cols, a, d + 1, attackers, defenders, absorbed, goalA, goalD)
    modifies dp
    ensures NonNegative(dp[..]) && w == View(dp[..], cols, a % 3)
    ensures InBalance(w, cols, a, d, attackers, defenders, absorbed, goalA, goalD)
  {
    var p := GetProbs(a, d);
    OddsAddUp(a, d);
    SpreadInBalance(w0, cols, a, d, attackers, defenders, absorbed, goalA, goalD, p);
    SpreadInPlace(dp, cols, a, d, p);
    w := Spread(w0, cols, a, d, p);
  }

  /** The books with `a` rows to go: in balance before the next, and closed after the last. */
  ghost predicate RowsLeft(w: Window, cols: nat, a: nat, attackers: real, defenders: real, absorbed: real, goalA: real, goalD: real) {
    if a > 0 then BattleWindow.Sized(w, cols) && InBalance(w, cols, a - 1, cols, attackers, defenders, absorbed, goalA, goalD)
    else attackers == goalA && defenders == goalD && absorbed == 1.0
  }

  /** Consumes row `a`, from the most defenders down, and clears its slot. */
  method ConsumeRow(dp: array<real>, cols: nat, a: nat, attackers0: real, defenders0: real, ghost absorbed0: real,
                    ghost goalA: real, ghost goalD: real, ghost w0: Window)
    returns (attackers: real, defenders: real, ghost absorbed: real, ghost w: Window)
    requires dp.Length == 3 * cols && NonNegative(dp[..]) && w0 == View(dp[..], cols, a % 3)
    requires RowsLeft(w0, cols, a + 1, attackers0, defenders0, absorbed0, goalA, goalD)
    modifies dp
    ensures NonNegative(dp[..]) && w == View(dp[..], cols, Next(a % 3))
    ensures RowsLeft(w, cols, a, attackers, defenders, absorbed, goalA, goalD)
  {
    attackers, defenders, absorbed, w := attackers0, defenders0, absorbed0, w0;
    for d := cols downto 0
      invariant NonNegative(dp[..]) && w == View(dp[..], cols, a % 3)
      invariant InBalance(w, cols, a, d, attackers, defenders, absorbed, goalA, goalD)
    {
      attackers, defenders, absorbed, w := ConsumeOne(dp, cols, a, d, attackers, defenders, absorbed, goalA, goalD, w);
    }
    RowInBalance(w, cols, a, attackers, defenders, absorbed, goalA, goalD);
    ClearSlot(dp, cols, a % 3);
    w := Shift(w, cols);
  }

  /** Consumes every row, from the most attackers down. */
  method ConsumeAll(dp: array<real>, cols: nat, initialA: nat, ghost goalA: real, ghost goalD: real, ghost w0: Window)
    returns (attackers: real, defenders: real, ghost absorbed: real)
    requires dp.Length == 3 * cols && NonNegative(dp[..]) && w0 == View(dp[..], cols, initialA % 3)
    requires RowsLeft(w0, cols, initialA + 1, 0.0, 0.0, 0.0, goalA, goalD)
    modifies dp
    ensures attackers == goalA && defenders == goalD && absorbed == 1.0
  {
    attackers, defenders, absorbed := 0.0, 0.0, 0.0;
    ghost var w := w0;
    for a := initialA + 1 downto 0
      invariant NonNegative(dp[..]) && (a > 0 ==> w == View(dp[..], cols, (a - 1) % 3))
      invariant RowsLeft(w, cols, a, attackers, defenders, absorbed, goalA, goalD)
    {
      SlotsOfRows(a);
      attackers, defenders, absorbed, w :=
        ConsumeRow(dp, cols, a, attackers, defenders, absorbed, goalA, goalD, w);
    }
  }

  /**
   The forward program. At every cell, pending probability weighted by what it is worth,
   plus what was absorbed, is the expectation sought; so the result is `Expected`.
   */
  method ComputeExpectedRemnants(initialA: nat, initialD: nat) returns (r: Remnants)
    ensures r == Expected(initialA, initialD)
  {
    var cols := initialD + 1;
    var dp := new real[3 * cols](i => 0.0);
    ghost var zero := dp[..];
    dp[At(cols, initialA % 3, initialD)] := 1.0;
    assert dp[..] == zero[At(cols, initialA % 3, initialD) := 1.0];
    StartInBalance(initialA, initialD);
    StartView(zero, cols, initialA % 3);
    ghost var absorbed;
    var expAttackers, expDefenders;
    expAttackers, expDefenders, absorbed :=
      ConsumeAll(dp, cols, initialA, Expect(Attackers, initialA, initialD), Expect(Defenders, initialA, initialD), Start(cols));
    r := Remnants(Round(expAttackers), Round(expDefenders));
  }

  lemma StartView(zero: seq<real>, cols: nat, slot: nat)
    requires cols > 0 && slot < 3 && |zero| == 3 * cols && forall i :: 0 <= i < |zero| ==> zero[i] == 0.0
    ensures View(zero[At(cols, slot, cols - 1) := 1.0], cols, slot) == Start(cols)
  {
    RowUpdate(zero, cols, slot, slot, cols - 1, 1.0);
    RowUpdate(zero, cols, slot, Next(slot), cols - 1, 1.0);
    RowUpdate(zero, cols, slot, Last(slot), cols - 1, 1.0);
    assert Row(zero, cols, slot) == Zeros(cols);
    assert Row(zero, cols, Next(slot)) == Zeros(cols);
    assert Row(zero, cols, Last(slot)) == Zeros(cols);
  }

  // ---------------------------------------------------------- the emitted table

  const TABLE_SIZE: nat := 64

  datatype Tables = Tables(attackers: seq<seq<int>>, defenders: seq<seq<int>>)

  ghost predicate TablesMatch(t: Tables) {
    && |t.attackers| == TABLE_SIZE == |t.defenders|
    && (forall i :: 0 <= i < TABLE_SIZE ==> |t.attackers[i]| == TABLE_SIZE == |t.defenders[i]|)
    && (forall i, j :: 0 <= i < TABLE_SIZE && 0 <= j < TABLE_SIZE ==>
          t.attackers[i][j] == Expected(j + 1, i + 1).attackers && t.defenders[i][j] == Expected(j + 1, i + 1).defenders)
  }

  /** The generator: the outer loop, so the row, is the number of defenders. */
  method GenerateTables() returns (t: Tables)
    ensures TablesMatch(t)
    ensures forall i, j :: 0 <= i < TABLE_SIZE && 0 <= j < TABLE_SIZE ==>
              0 <= t.attackers[i][j] < 256 && 0 <= t.defenders[i][j] < 256
  {
    var attackers: seq<seq<int>>, defenders: seq<seq<int>> := [], [];
    for initialD := 1 to TABLE_SIZE + 1
      invariant |attackers| == initialD - 1 == |defenders|
      invariant forall i :: 0 <= i < initialD - 1 ==> |attackers[i]| == TABLE_SIZE == |defenders[i]|
      invariant forall i, j :: 0 <= i < initialD - 1 && 0 <= j < TABLE_SIZE ==>
                  attackers[i][j] == Expected(j + 1, i + 1).attackers && defenders[i][j] == Expected(j + 1, i + 1).defenders
    {
      var rowA: seq<int>, rowD: seq<int> := [], [];
      for initialA := 1 to TABLE_SIZE + 1
        invariant |rowA| == initialA - 1 == |rowD|
        invariant forall j :: 0 <= j < initialA - 1 ==>
                    rowA[j] == Expected(j + 1, initialD).attackers && rowD[j] == Expected(j + 1, initialD).defenders
      {
        var r := ComputeExpectedRemnants(initialA, initialD);
        rowA := rowA + [r.attackers];
        rowD := rowD + [r.defenders];
      }
      attackers := attackers + [rowA];
      defenders := defenders + [rowD];
    }
    t := Tables(attackers, defenders);
    forall i, j | 0 <= i < TABLE_SIZE && 0 <= j < TABLE_SIZE
      ensures 0 <= t.attackers[i][j] < 256 && 0 <= t.defenders[i][j] < 256
    {
      RoundedSurvivors(j + 1, i + 1);
    }
  }

  /** Battles the table covers are looked up with the two sides exchanged. */
  function Looked(attackers: int, defenders: int): Remnants
    requires attackers >= 0 && defenders >= 0
  {
    if 1 <= attackers <= TABLE_SIZE && 1 <= defenders <= TABLE_SIZE then Expected(defenders, attackers)
    else Expected(attackers, defenders)
  }

  /** The emitted lookup indexes by attackers first, so inside the table it is transposed. */
  method LookupExpectedRemnants(t: Tables, attackers: nat, defenders: nat) returns (r: Remnants)
    requires TablesMatch(t)
    ensures r == Looked(attackers, defenders)
  {
    if attackers >= 1 && attackers <= TABLE_SIZE && defenders >= 1 && defenders <= TABLE_SIZE {
      return Remnants(t.attackers[attackers - 1][defenders - 1], t.defenders[attackers - 1][defenders - 1]);
    }
    r := ComputeExpectedRemnants(attackers, defenders);
  }

  /** Two armies on one: the direct computation has the attacker win, the table repels it. */
  lemma LookupDiffersFromCompute()
    ensures Expected(2, 1) == Remnants(1, 0)
    ensures Looked(2, 1) == Remnants(0, 2)
  {
    assert Expect(Attackers, 1, 1) == 15.0 / 36.0 && Expect(Defenders, 1, 1) == 21.0 / 36.0;
    assert Expect(Attackers, 2, 1) == 125.0 / 216.0 * 2.0 + 91.0 / 216.0 * (15.0 / 36.0);
    assert Expect(Defenders, 2, 1) == 91.0 / 216.0 * (21.0 / 36.0);
    assert Expect(Attackers, 1, 2) == 55.0 / 216.0 * (15.0 / 36.0);
    assert Expect(Defenders, 1, 2) == 55.0 / 216.0 * (21.0 / 36.0) + 161.0 / 216.0 * 2.0;
  }
}
