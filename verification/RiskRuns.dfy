/**
 Whole games of Risk: every reachable state satisfies the invariant, and a game with a
 round cap ends, whatever the players do, exactly for the caps the verdict can reach.
 */
module RiskRuns {
  import opened Options
  import opened RiskRules
  import opened RiskInvariant

  // --------------------------------------------------------------------- runs

  ghost predicate Step(s: State, action: Action, after: State) {
    && Shape(s) && |s.board.neighbors| == NUM_TERRITORIES
    && Legal(s, action)
    && (action.RollDice? ==> RollReady(s))
    && after == Apply(s, action)
  }

  /** A finite game: the states after each of `actions`, from the start. */
  ghost predicate Game(board: Board, players: nat, states: seq<State>, actions: seq<Action>) {
    && |states| == |actions| + 1
    && states[0] == Initial(board, players)
    && forall i :: 0 <= i < |actions| ==> Step(states[i], actions[i], states[i + 1])
  }

  lemma StepKeepsTable(s: State, action: Action)
    requires Inv(s) && Legal(s, action) && (action.RollDice? ==> RollReady(s))
    ensures Apply(s, action).players == s.players && Apply(s, action).board == s.board
  {
  }

  lemma StepIsSafe(s: State, action: Action, after: State)
    requires Inv(s) && Step(s, action, after)
    ensures Inv(after) && after.players == s.players && after.board == s.board
  {
    StepKeepsInv(s, action);
    StepKeepsTable(s, action);
  }

  lemma GameKeepsInv(board: Board, players: nat, states: seq<State>, actions: seq<Action>, i: nat)
    requires ValidBoard(board) && 2 <= players <= 6
    requires Game(board, players, states, actions) && i < |states|
    ensures Inv(states[i]) && states[i].players == players && states[i].board == board
  {
    InitialInv(board, players);
    for j := 0 to i
      invariant Inv(states[j]) && states[j].players == players && states[j].board == board
    {
      StepIsSafe(states[j], actions[j], states[j + 1]);
    }
  }

  /**
   Safety of every run. After any legal game the invariant holds: claimed land has an
   army, dice are to be rolled exactly when a defence is queued, a queued battle joins two
   owners, and whatever legal action comes next can be applied.
   */
  lemma ReachableIsSafe(board: Board, players: nat, states: seq<State>, actions: seq<Action>, next: Action)
    requires ValidBoard(board) && 2 <= players <= 6
    requires Game(board, players, states, actions)
    ensures
      var s := states[|actions|];
      && Inv(s)
      && (forall t :: 0 <= t < NUM_TERRITORIES && s.territories[t].owner != -1 ==> s.territories[t].units >= 1)
      && (s.current == -1 <==> s.defense.Some?)
      && (s.defense.Some? ==> s.attack.Some?)
      && (s.attack.Some? ==>
            && !s.placing
            && s.territories[s.attack.value.source].owner != s.territories[s.attack.value.target].owner
            && s.attack.value.dice < s.territories[s.attack.value.source].units)
      && (Legal(s, next) && next.RollDice? ==> RollReady(s))
  {
    GameKeepsInv(board, players, states, actions, |actions|);
  }

  // ----------------------------------------------------------------- counting

  lemma {:induction false} SumUpdate(xs: seq<int>, i: nat, x: int)
    requires i < |xs|
    ensures Sum(xs[i := x]) == Sum(xs) - xs[i] + x
  {
    var ys := xs[i := x];
    if i == |xs| - 1 {
      assert ys[..|xs| - 1] == xs[..|xs| - 1];
    } else {
      assert ys[..|xs| - 1] == xs[..|xs| - 1][i := x];
      SumUpdate(xs[..|xs| - 1], i, x);
    }
  }

  lemma {:induction false} SumBelow(xs: seq<int>, ys: seq<int>, zs: seq<int>)
    requires |xs| == |ys| == |zs|
    requires forall i :: 0 <= i < |xs| ==> zs[i] <= xs[i] + ys[i]
    ensures Sum(zs) <= Sum(xs) + Sum(ys)
  {
    if xs != [] {
      var n := |xs| - 1;
      SumBelow(xs[..n], ys[..n], zs[..n]);
    }
  }

  /** Changing two territories changes the total by what they change. */
  lemma ArmiesAfterTwo(before: seq<Territory>, after: seq<Territory>, i: nat, j: nat)
    requires |before| == |after| && i < |before| && j < |before| && i != j
    requires forall t :: 0 <= t < |before| && t != i && t != j ==> after[t] == before[t]
    ensures Armies(after) - Armies(before)
         == (after[i].units + after[j].units) - (before[i].units + before[j].units)
  {
    var us := UnitsOf(before);
    SumUpdate(us, i, after[i].units);
    SumUpdate(us[i := after[i].units], j, after[j].units);
    assert UnitsOf(after) == us[i := after[i].units][j := after[j].units];
  }

  /** A roll takes exactly `Comparisons` armies off the board, conquest or not. */
  lemma RollRemovesComparisons(s: State, attacker: AttackerDice, defender: DefenderDice)
    requires Inv(s) && Legal(s, RollDice(attacker, defender))
    ensures RollReady(s)
    ensures Armies(ApplyRoll(s, attacker, defender).territories) == Armies(s.territories) - Comparisons(s)
  {
    RollOutcome(s, attacker, defender);
    ArmiesAfterTwo(s.territories, ApplyRoll(s, attacker, defender).territories,
                   s.attack.value.source, s.attack.value.target);
  }

  /** Placing reinforcements never creates armies; saturation can only lose some. */
  lemma ReinforceConserves(s: State, placed: Placement)
    requires Inv(s) && !s.placing && s.attack.None? && LegalReinforce(s, placed)
    ensures var after := ApplyReinforce(s, placed);
            && Armies(after.territories) + Sum(after.reserves) <= Armies(s.territories) + Sum(s.reserves)
            && Sum(after.reserves) < Sum(s.reserves)
            && ((forall t :: 0 <= t < NUM_TERRITORIES ==> s.territories[t].units + placed[t] <= MAX_UNITS)
                  ==> Armies(after.territories) == Armies(s.territories) + s.reserves[s.current])
  {
    var after := ApplyReinforce(s, placed);
    SumUpdate(s.reserves, s.current, s.reserves[s.current] - Sum(placed));
    SumBelow(UnitsOf(s.territories), placed, UnitsOf(after.territories));
    if forall t :: 0 <= t < NUM_TERRITORIES ==> s.territories[t].units + placed[t] <= MAX_UNITS {
      SumExact(UnitsOf(s.territories), placed, UnitsOf(after.territories));
    }
  }

  lemma {:induction false} SumExact(xs: seq<int>, ys: seq<int>, zs: seq<int>)
    requires |xs| == |ys| == |zs|
    requires forall i :: 0 <= i < |xs| ==> zs[i] == xs[i] + ys[i]
    ensures Sum(zs) == Sum(xs) + Sum(ys)
  {
    if xs != [] {
      var n := |xs| - 1;
      SumExact(xs[..n], ys[..n], zs[..n]);
    }
  }

  // -------------------------------------------------------------- termination

  /** Whose turn it is, also while a battle is being resolved. */
  function Mover(s: State): int
    requires Inv(s)
  {
    if s.attack.Some? then s.territories[s.attack.value.source].owner else s.current
  }

  function Stage(s: State): nat {
    if s.attack.None? then 2 else if s.defense.None? then 1 else 0
  }

  /** While the cap has not been reached, the turn count has not wrapped. */
  ghost predicate BelowCap(s: State, maxRounds: int)
    requires Inv(s)
  {
    !s.placing ==> InitialReserves(s.players) <= s.turns <= maxRounds + InitialReserves(s.players)
  }

  ghost function Phase(s: State): nat { if s.placing then 1 else 0 }

  ghost function Left(s: State, maxRounds: int): (n: nat)
    requires Inv(s) && BelowCap(s, maxRounds)
  {
    if s.placing then
      PlacedBound(s);
      s.players * InitialReserves(s.players) - s.placements
    else maxRounds + InitialReserves(s.players) - s.turns
  }

  lemma PlacedBound(s: State)
    requires Inv(s) && s.placing
    ensures s.placements < s.players * InitialReserves(s.players)
  {
    ProductGrows(s.turns + 1, InitialReserves(s.players), s.players);
    ProductStep(s.turns, s.players);
  }

  lemma {:induction false} ProductGrows(a: nat, b: nat, n: nat)
    requires a <= b
    ensures n * a <= n * b
    decreases b
  {
    if a < b {
      ProductGrows(a, b - 1, n);
      ProductStep(b - 1, n);
    }
  }

  /** In play the rounds are the turns taken since placement, up to the largest int. */
  lemma RoundsIsTurns(s: State)
    requires Inv(s)
    ensures s.placing ==> Rounds(s) == 0
    ensures !s.placing && InitialReserves(s.players) <= s.turns <= INT_MAX + InitialReserves(s.players) ==>
      Rounds(s) == s.turns - InitialReserves(s.players)
    ensures RoundsOverflow(s) <==> !s.placing && 0 <= s.turns - 0x8000_0000 < InitialReserves(s.players)
  {
    if !s.placing {
      DivideProduct(s.players, InitialReserves(s.players));
    }
  }

  lemma DivideProduct(n: nat, r: nat)
    requires 2 <= n <= 6
    ensures (n * r) / n == r
  {
    assert n == 2 || n == 3 || n == 4 || n == 5 || n == 6;
  }

  ghost function Total(s: State): (n: nat)
    requires Inv(s)
  {
    SumNonNegative(UnitsOf(s.territories));
    SumNonNegative(s.reserves);
    Armies(s.territories) + Sum(s.reserves)
  }

  ghost function Unplaced(s: State): (n: nat)
    requires Inv(s)
  {
    SumNonNegative(s.reserves);
    Sum(s.reserves)
  }

  /**
   The measure every legal action lowers: placements left, then (rounds left, seats left
   in the round, armies and reserves, reserves, battle stage), lexicographically.
   */
  ghost predicate Lower(s: State, after: State, maxRounds: int)
    requires Inv(s) && Inv(after) && BelowCap(s, maxRounds) && BelowCap(after, maxRounds)
  {
    || Phase(after) < Phase(s)
    || (Phase(after) == Phase(s)
        && (|| Left(after, maxRounds) < Left(s, maxRounds)
            || (!s.placing && Left(after, maxRounds) == Left(s, maxRounds)
                && (|| Mover(s) < Mover(after)
                    || (Mover(after) == Mover(s)
                        && (|| Total(after) < Total(s)
                            || (Total(after) == Total(s)
                                && (|| Unplaced(after) < Unplaced(s)
                                    || (Unplaced(after) == Unplaced(s) && Stage(after) < Stage(s))))))))))
  }

  lemma PlaceLowers(s: State, t: int, maxRounds: int)
    requires Inv(s) && Legal(s, InitialPlace(t)) && maxRounds > 0
    ensures Inv(ApplyPlace(s, t)) && BelowCap(s, maxRounds) && BelowCap(ApplyPlace(s, t), maxRounds)
    ensures Lower(s, ApplyPlace(s, t), maxRounds)
  {
    PlaceKeepsInv(s, t);
    PlacedBound(s);
  }

  lemma PlayerMoveLowers(s: State, reinforce: Option<Placement>, attack: Option<QueuedAttack>, maxRounds: int)
    requires Inv(s) && BelowCap(s, maxRounds) && Legal(s, PlayerMove(reinforce, attack))
    ensures var after := Apply(s, PlayerMove(reinforce, attack));
            Inv(after) && BelowCap(after, maxRounds) && Lower(s, after, maxRounds)
  {
    StepKeepsInv(s, PlayerMove(reinforce, attack));
    if reinforce.Some? {
      ReinforceConserves(s, reinforce.value);
    }
  }

  lemma RollLowers(s: State, attacker: AttackerDice, defender: DefenderDice, maxRounds: int)
    requires Inv(s) && BelowCap(s, maxRounds) && Legal(s, RollDice(attacker, defender))
    ensures RollReady(s)
    ensures var after := ApplyRoll(s, attacker, defender);
            Inv(after) && BelowCap(after, maxRounds) && Lower(s, after, maxRounds)
  {
    RollKeepsInv(s, attacker, defender);
    RollRemovesComparisons(s, attacker, defender);
  }

  /** Ending a turn: the move goes on to a later seat, or a turn is counted. */
  lemma FortifyMovesOn(s: State, source: int, target: int, units: int)
    requires Inv(s) && LegalFortify(s, source, target, units)
    ensures var after := ApplyFortify(s, source, target, units);
      && !after.placing && after.attack.None? && after.players == s.players
      && (if s.current < after.current then after.turns == s.turns else after.turns == (s.turns + 1) % 0x1_0000_0000)
  {
  }

  lemma NotOverIsBelow(s: State, maxRounds: int)
    requires Inv(s) && BelowCap(s, maxRounds) && !s.placing && 0 < maxRounds <= INT_MAX && !Over(s, maxRounds)
    ensures s.turns < maxRounds + InitialReserves(s.players)
  {
    RoundsIsTurns(s);
  }

  lemma MovingOnLowers(s: State, after: State, maxRounds: int)
    requires Inv(s) && Inv(after) && BelowCap(s, maxRounds) && maxRounds <= INT_MAX
    requires !s.placing && !after.placing && s.attack.None? && after.attack.None? && after.players == s.players
    requires s.turns < maxRounds + InitialReserves(s.players)
    requires if s.current < after.current then after.turns == s.turns else after.turns == (s.turns + 1) % 0x1_0000_0000
    ensures BelowCap(after, maxRounds) && Lower(s, after, maxRounds)
  {
  }

  lemma FortifyLowers(s: State, source: int, target: int, units: int, maxRounds: int)
    requires Inv(s) && BelowCap(s, maxRounds) && LegalFortify(s, source, target, units)
    requires 0 < maxRounds <= INT_MAX && !Over(s, maxRounds)
    ensures var after := ApplyFortify(s, source, target, units);
            Inv(after) && BelowCap(after, maxRounds) && Lower(s, after, maxRounds)
  {
    FortifyKeepsInv(s, source, target, units);
    FortifyMovesOn(s, source, target, units);
    NotOverIsBelow(s, maxRounds);
    MovingOnLowers(s, ApplyFortify(s, source, target, units), maxRounds);
  }

  lemma StepLowers(s: State, action: Action, maxRounds: int)
    requires Inv(s) && BelowCap(s, maxRounds) && Legal(s, action)
    requires 0 < maxRounds <= INT_MAX && !Over(s, maxRounds)
    ensures action.RollDice? ==> RollReady(s)
    ensures var after := Apply(s, action);
            Inv(after) && BelowCap(after, maxRounds) && Lower(s, after, maxRounds)
  {
    LegalRollIsReady(s, action);
    match action
    case InitialPlace(t) => PlaceLowers(s, t, maxRounds);
    case PlayerMove(reinforce, attack) => PlayerMoveLowers(s, reinforce, attack, maxRounds);
    case QueueDefense(dice) => StepKeepsInv(s, action);
    case RollDice(attacker, defender) => RollLowers(s, attacker, defender, maxRounds);
    case Fortify(source, target, units) => FortifyLowers(s, source, target, units, maxRounds);
  }

  /** An endless game, taken past any verdict. */
  ghost predicate EndlessRun(board: Board, players: nat, run: nat -> State, actions: nat -> Action) {
    && run(0) == Initial(board, players)
    && forall i: nat :: Step(run(i), actions(i), run(i + 1))
  }

  lemma {:induction false} RunReachesOver(board: Board, players: nat, run: nat -> State, actions: nat -> Action,
                                          maxRounds: int, i: nat) returns (n: nat)
    requires EndlessRun(board, players, run, actions)
    requires Inv(run(i)) && run(i).players == players && BelowCap(run(i), maxRounds)
    requires 0 < maxRounds <= INT_MAX
    ensures Inv(run(n)) && Over(run(n), maxRounds)
    decreases Phase(run(i)), Left(run(i), maxRounds), players - Mover(run(i)), Total(run(i)), Unplaced(run(i)), Stage(run(i))
  {
    var s := run(i);
    if Over(s, maxRounds) {
      n := i;
    } else {
      assert Step(s, actions(i), run(i + 1));
      StepLowers(s, actions(i), maxRounds);
      StepKeepsTable(s, actions(i));
      n := RunReachesOver(board, players, run, actions, maxRounds, i + 1);
    }
  }

  // ------------------------------------------------- caps that are never reached

  /** Some legal way to pass time: place while placing, then end every turn at once. */
  ghost function Idle(s: State): (action: Action)
    requires Inv(s) && s.attack.None?
    ensures Legal(s, action) && !action.RollDice? && Apply(s, action).attack.None?
  {
    if s.placing then
      SomePlaceIsLegal(s);
      var t :| LegalPlace(s, t);
      InitialPlace(t)
    else Fortify(0, 0, 0)
  }

  lemma SomePlaceIsLegal(s: State)
    requires Inv(s) && s.placing
    ensures exists t :: LegalPlace(s, t)
  {
    if s.placements < NUM_TERRITORIES {
      var t :| t in Owned(s.territories, -1);
      assert LegalPlace(s, t);
    } else {
      assert OwnsLand(s.territories, s.current);
      var t :| 0 <= t < NUM_TERRITORIES && s.territories[t].owner == s.current;
      assert LegalPlace(s, t);
    }
  }

  ghost predicate Contested(s: State)
    requires Inv(s)
  {
    s.attack.None? && (!s.placing ==> OwnsLand(s.territories, 0) && OwnsLand(s.territories, 1))
  }

  lemma IdleKeepsContested(s: State)
    requires Inv(s) && Contested(s)
    ensures Inv(Apply(s, Idle(s))) && Contested(Apply(s, Idle(s)))
  {
    StepKeepsInv(s, Idle(s));
    StepKeepsTable(s, Idle(s));
    if s.placing {
      ProductStep(s.turns, s.players);
      PlaceKeepsSeats(s, Idle(s).territory);
    }
  }

  ghost function IdleState(board: Board, players: nat, i: nat): (s: State)
    requires ValidBoard(board) && 2 <= players <= 6
    ensures Inv(s) && Contested(s) && s.players == players
  {
    if i == 0 then
      InitialInv(board, players);
      Initial(board, players)
    else
      var s := IdleState(board, players, i - 1);
      IdleKeepsContested(s);
      StepKeepsTable(s, Idle(s));
      Apply(s, Idle(s))
  }

  lemma ContestedNotOver(s: State, maxRounds: int)
    requires Inv(s) && Contested(s)
    requires maxRounds <= 0 || (BelowCap(s, maxRounds) && s.turns < maxRounds + InitialReserves(s.players) && maxRounds <= INT_MAX)
    ensures !Over(s, maxRounds)
  {
    RoundsIsTurns(s);
    if s.placing && s.placements < NUM_TERRITORIES {
      var t :| t in Owned(s.territories, -1);
      forall seat | 0 <= seat < s.players
        ensures !Wins(s.territories, seat)
      {
        assert s.territories[t].owner != seat;
      }
    } else {
      assert s.placing ==> 1 < s.placements;
      assert OwnsLand(s.territories, 0) && OwnsLand(s.territories, 1);
      var t :| 0 <= t < NUM_TERRITORIES && s.territories[t].owner == 0;
      var u :| 0 <= u < NUM_TERRITORIES && s.territories[u].owner == 1;
      forall seat | 0 <= seat < s.players
        ensures !Wins(s.territories, seat)
      {
        assert s.territories[t].owner != seat || s.territories[u].owner != seat;
      }
    }
  }

  ghost predicate EveryRunEnds(board: Board, players: nat, maxRounds: int)
    requires 2 <= players <= 6
  {
    forall run: nat -> State, actions: nat -> Action :: EndlessRun(board, players, run, actions) ==>
      exists n: nat :: 0 < run(n).players && Over(run(n), maxRounds)
  }

  ghost predicate IdleRun(run: nat -> State, players: nat) {
    forall i: nat :: IdlesOn(run(i), run(i + 1), players)
  }

  ghost predicate IdlesOn(s: State, after: State, players: nat) {
    Inv(s) && Contested(s) && s.players == players && after == Apply(s, Idle(s))
  }

  lemma IdleIsEndless(board: Board, players: nat) returns (run: nat -> State, actions: nat -> Action)
    requires ValidBoard(board) && 2 <= players <= 6
    ensures EndlessRun(board, players, run, actions) && IdleRun(run, players)
  {
    run := (i: nat) => IdleState(board, players, i);
    actions := (i: nat) => Idle(IdleState(board, players, i));
    forall i: nat
      ensures Step(run(i), actions(i), run(i + 1)) && IdlesOn(run(i), run(i + 1), players)
    {
      assert run(i + 1) == Apply(run(i), Idle(run(i)));
    }
  }

  /** A game must end, whatever is played, exactly when it has a positive cap. */
  lemma CapEndsEveryRun(board: Board, players: nat, maxRounds: int)
    requires ValidBoard(board) && 2 <= players <= 6 && maxRounds <= INT_MAX
    ensures EveryRunEnds(board, players, maxRounds) <==> 0 < maxRounds
  {
    InitialInv(board, players);
    if 0 < maxRounds {
      forall run: nat -> State, actions: nat -> Action | EndlessRun(board, players, run, actions)
        ensures exists n: nat :: 0 < run(n).players && Over(run(n), maxRounds)
      {
        var n := RunReachesOver(board, players, run, actions, maxRounds, 0);
      }
    } else {
      var run, actions := IdleIsEndless(board, players);
      forall n: nat
        ensures 0 < run(n).players && !Over(run(n), maxRounds)
      {
        assert IdlesOn(run(n), run(n + 1), players);
        ContestedNotOver(run(n), maxRounds);
      }
    }
  }

  // ------------------------------------------------- the subtraction behind the rounds

  /** A legal game whose verdict was not in before its last state. */
  ghost predicate OpenGame(board: Board, players: nat, states: seq<State>, actions: seq<Action>, maxRounds: int) {
    && Game(board, players, states, actions)
    && forall j :: 0 <= j < |actions| ==> Inv(states[j]) && !Over(states[j], maxRounds)
  }

  ghost predicate NeverOverflows(board: Board, players: nat, maxRounds: int) {
    forall states: seq<State>, actions: seq<Action> :: OpenGame(board, players, states, actions, maxRounds) ==>
      0 < states[|actions|].players && !RoundsOverflow(states[|actions|])
  }

  ghost predicate IdleBelow(s: State, players: nat, turns: nat) {
    Inv(s) && s.players == players && s.turns < turns && BelowCap(s, INT_MAX)
  }

  ghost predicate IdlesUntil(run: nat -> State, players: nat, turns: nat, i: nat, n: nat) {
    forall j :: i <= j < n ==> IdleBelow(run(j), players, turns)
  }

  lemma IdlesFromEarlier(run: nat -> State, players: nat, turns: nat, i: nat, n: nat)
    requires IdleBelow(run(i), players, turns) && IdlesUntil(run, players, turns, i + 1, n)
    ensures IdlesUntil(run, players, turns, i, n)
  {
  }

  /** One pass on the way to `turns` goes down the measure and counts at most one turn. */
  lemma IdleStepLowers(s: State, after: State, players: nat, turns: nat)
    requires IdlesOn(s, after, players) && IdleBelow(s, players, turns) && turns <= 0x8000_0000
    ensures IdleBelow(after, players, turns + 1) && Lower(s, after, INT_MAX)
  {
    StepKeepsTable(s, Idle(s));
    ContestedNotOver(s, INT_MAX);
    StepLowers(s, Idle(s), INT_MAX);
    OneTurnAtMost(s, Idle(s));
  }

  lemma OneTurnAtMost(s: State, action: Action)
    requires Inv(s) && Legal(s, action) && (action.RollDice? ==> RollReady(s))
    ensures Apply(s, action).turns <= s.turns + 1
  {
  }

  /** Passing for ever counts turns one by one, up to any number a game without a verdict can reach. */
  lemma {:induction false} IdleReaches(run: nat -> State, players: nat, turns: nat, i: nat) returns (n: nat)
    requires IdleRun(run, players) && InitialReserves(players) < turns <= 0x8000_0000
    requires IdleBelow(run(i), players, turns + 1)
    ensures Inv(run(n)) && run(n).turns == turns
    ensures IdlesUntil(run, players, turns, i, n)
    decreases Phase(run(i)), Left(run(i), INT_MAX), players - Mover(run(i)), Total(run(i)), Unplaced(run(i)), Stage(run(i))
  {
    if run(i).turns == turns {
      n := i;
    } else {
      assert IdlesOn(run(i), run(i + 1), players);
      IdleStepLowers(run(i), run(i + 1), players, turns);
      n := IdleReaches(run, players, turns, i + 1);
      IdlesFromEarlier(run, players, turns, i, n);
    }
  }

  /**
   Until the verdict, the subtraction that counts rounds stays within an int exactly for
   the positive caps that leave room for the rounds of placement.
   */
  lemma SubtractionIsSafe(board: Board, players: nat, maxRounds: int)
    requires ValidBoard(board) && 2 <= players <= 6 && maxRounds <= INT_MAX
    ensures NeverOverflows(board, players, maxRounds) <==> 0 < maxRounds <= INT_MAX - InitialReserves(players)
  {
    if 0 < maxRounds <= INT_MAX - InitialReserves(players) {
      forall states: seq<State>, actions: seq<Action> | OpenGame(board, players, states, actions, maxRounds)
        ensures 0 < states[|actions|].players && !RoundsOverflow(states[|actions|])
      {
        GameKeepsInv(board, players, states, actions, |actions|);
        RoundsStayInRange(board, players, states, actions, maxRounds, |actions|);
        RoundsIsTurns(states[|actions|]);
      }
    } else {
      IdleOverflows(board, players, maxRounds);
    }
  }

  lemma IdleOverflows(board: Board, players: nat, maxRounds: int)
    requires ValidBoard(board) && 2 <= players <= 6
    requires maxRounds <= 0 || INT_MAX - InitialReserves(players) < maxRounds <= INT_MAX
    ensures !NeverOverflows(board, players, maxRounds)
  {
    var run, actions := IdleIsEndless(board, players);
    InitialInv(board, players);
    var n := IdleReaches(run, players, 0x8000_0000, 0);
    assert IdlesOn(run(n), run(n + 1), players);
    var states := seq(n + 1, i requires 0 <= i => run(i));
    var played := seq(n, i requires 0 <= i => actions(i));
    forall j | 0 <= j < n
      ensures Step(states[j], played[j], states[j + 1]) && Inv(states[j]) && !Over(states[j], maxRounds)
    {
      assert Step(run(j), actions(j), run(j + 1)) && IdlesOn(run(j), run(j + 1), players);
      ContestedNotOver(states[j], maxRounds);
    }
    assert OpenGame(board, players, states, played, maxRounds);
    RoundsIsTurns(states[n]);
  }

  lemma StepStaysBelow(s: State, action: Action, after: State, maxRounds: int)
    requires Inv(s) && Step(s, action, after) && BelowCap(s, maxRounds)
    requires 0 < maxRounds <= INT_MAX && !Over(s, maxRounds)
    ensures Inv(after) && BelowCap(after, maxRounds)
  {
    StepLowers(s, action, maxRounds);
  }

  lemma OpenStatesStayBelow(board: Board, players: nat, states: seq<State>, actions: seq<Action>,
          maxRounds: int, i: nat)
    requires ValidBoard(board) && 2 <= players <= 6
    requires Game(board, players, states, actions) && i < |states| && 0 < maxRounds <= INT_MAX
    requires forall j :: 0 <= j < i ==> Inv(states[j]) && !Over(states[j], maxRounds)
    ensures Inv(states[i]) && states[i].players == players && BelowCap(states[i], maxRounds)
  {
    InitialInv(board, players);
    for j := 0 to i
      invariant Inv(states[j]) && BelowCap(states[j], maxRounds)
    {
      StepStaysBelow(states[j], actions[j], states[j + 1], maxRounds);
    }
    GameKeepsInv(board, players, states, actions, i);
  }

  /** Up to its end, a capped game never shows a negative round, nor one past the cap. */
  lemma RoundsStayInRange(board: Board, players: nat, states: seq<State>, actions: seq<Action>, maxRounds: int,
          i: nat)
    requires ValidBoard(board) && 2 <= players <= 6
    requires Game(board, players, states, actions) && i < |states| && 0 < maxRounds <= INT_MAX
    requires forall j :: 0 <= j < i ==> Inv(states[j]) && !Over(states[j], maxRounds)
    ensures Inv(states[i]) && BelowCap(states[i], maxRounds)
    ensures 0 <= Rounds(states[i]) <= maxRounds
  {
    OpenStatesStayBelow(board, players, states, actions, maxRounds, i);
    RoundsIsTurns(states[i]);
  }

  // ------------------------------------------------------------- turns in a round

  /** The step passes the move on: a placement, or the fortify that ends a turn. */
  predicate EndsTurn(action: Action) {
    action.InitialPlace? || action.Fortify?
  }

  /** The step hands the move to `seat`. */
  predicate StartsTurn(action: Action, after: State, seat: int) {
    EndsTurn(action) && after.current == seat
  }

  /** How many of the steps from `lo` up to `hi` start a turn of `seat`. */
  function TurnsStarted(states: seq<State>, actions: seq<Action>, lo: nat, hi: nat, seat: int): (n: nat)
    requires lo <= hi <= |actions| && |states| == |actions| + 1
    decreases hi
  {
    if lo == hi then 0
    else TurnsStarted(states, actions, lo, hi - 1, seat) + (if StartsTurn(actions[hi - 1], states[hi], seat) then 1 else 0)
  }

  /** Within a turn the mover stays and no turn is counted. */
  lemma TurnGoesOn(s: State, action: Action, after: State)
    requires Inv(s) && Step(s, action, after) && !EndsTurn(action)
    ensures Inv(after) && Mover(after) == Mover(s) && after.turns == s.turns
  {
    StepKeepsInv(s, action);
    if action.RollDice? {
      RollOutcome(s, action.attacker, action.defender);
    }
  }

  /** A placement goes to the next seat, and counts a turn where the seats wrap. */
  lemma PlacementPasses(s: State, action: Action, after: State)
    requires Inv(s) && Step(s, action, after) && action.InitialPlace?
    ensures Inv(after) && Mover(s) == s.current && Mover(after) == after.current
    ensures after.turns == s.turns ==> after.current == s.current + 1
    ensures after.turns != s.turns ==> after.current == 0 && s.current == s.players - 1
  {
    PlaceKeepsInv(s, action.territory);
  }

  /** Passing the move on skips only landless seats, and counts a turn exactly where the seats wrap. */
  lemma TurnPasses(s: State, action: Action, after: State, seat: int)
    requires Inv(s) && Step(s, action, after) && EndsTurn(action)
    requires 0 <= seat < s.players && OwnsLand(after.territories, seat)
    ensures Inv(after) && Mover(s) == s.current && Mover(after) == after.current
    ensures after.turns == s.turns ==> s.current < after.current && !(s.current < seat < after.current)
    ensures after.turns != s.turns ==> after.current <= seat <= s.current
  {
    if action.InitialPlace? {
      PlacementPasses(s, action, after);
    } else {
      FortifyPasses(s, action, after, seat);
    }
  }

  lemma FortifyPasses(s: State, action: Action, after: State, seat: int)
    requires Inv(s) && Step(s, action, after) && action.Fortify?
    requires 0 <= seat < s.players && OwnsLand(after.territories, seat)
    ensures Inv(after) && Mover(s) == s.current && Mover(after) == after.current
    ensures after.turns == s.turns ==> s.current < after.current && !(s.current < seat < after.current)
    ensures after.turns != s.turns ==> after.current <= seat <= s.current
  {
    FortifyKeepsInv(s, action.source, action.target, action.units);
    FortifyMovesOn(s, action.source, action.target, action.units);
    var moved := if action.units <= 1 then s
      else s.(territories := Add(Remove(s.territories, action.source, action.units), action.target, action.units));
    assert after == NextPlayer(moved);
    NextSeatIsNextLanded(moved);
  }

  /** A legal stretch, of placement or of play, that begins and ends with counting a turn, and counts none between. */
  ghost predicate IsRound(board: Board, players: nat, states: seq<State>, actions: seq<Action>, lo: nat, hi: nat) {
    && Game(board, players, states, actions) && lo < hi < |actions|
    && states[lo + 1].turns != states[lo].turns
    && states[hi + 1].turns != states[hi].turns
    && forall t :: lo < t < hi ==> states[t + 1].turns == states[t].turns
  }

  /** Within a round `started` turns of `seat` began: one once the move has come to it or past it. */
  ghost predicate InRound(s: State, players: nat, seat: int, started: nat) {
    Inv(s) && s.players == players && started == if seat <= Mover(s) then 1 else 0
  }

  /** What holds in a round before step `t`. */
  ghost predicate InRoundAt(states: seq<State>, actions: seq<Action>, lo: nat, t: nat, players: nat, seat: int)
    requires |states| == |actions| + 1 && lo <= t <= |actions|
  {
    InRound(states[t], players, seat, TurnsStarted(states, actions, lo, t, seat))
  }

  /** Step `t` is legal and leaves `seat` some land; a turn is counted at both ends of the round. */
  ghost predicate StepCounts(states: seq<State>, actions: seq<Action>, t: nat, seat: int, lo: nat, hi: nat)
    requires |states| == |actions| + 1 && t < |actions|
  {
    && Step(states[t], actions[t], states[t + 1]) && OwnsLand(states[t + 1].territories, seat)
    && (states[t + 1].turns != states[t].turns <==> t == lo || t == hi)
  }

  lemma RoundOpens(states: seq<State>, actions: seq<Action>, lo: nat, hi: nat, players: nat, seat: int)
    requires |states| == |actions| + 1 && lo < |actions| && StepCounts(states, actions, lo, seat, lo, hi)
    requires Inv(states[lo]) && states[lo].players == players && 0 <= seat < players
    ensures InRoundAt(states, actions, lo, lo + 1, players, seat)
  {
    FirstOfRound(states[lo], actions[lo], states[lo + 1], seat);
  }

  lemma RoundGoesOn(states: seq<State>, actions: seq<Action>, lo: nat, t: nat, hi: nat, players: nat, seat: int)
    requires |states| == |actions| + 1 && lo < t < |actions| && t < hi && StepCounts(states, actions, t, seat, lo, hi)
    requires InRoundAt(states, actions, lo, t, players, seat) && 0 <= seat < players
    ensures InRoundAt(states, actions, lo, t + 1, players, seat)
  {
    NextOfRound(states[t], actions[t], states[t + 1], seat, players, TurnsStarted(states, actions, lo, t, seat));
  }

  lemma RoundCloses(states: seq<State>, actions: seq<Action>, lo: nat, hi: nat, players: nat, seat: int)
    requires |states| == |actions| + 1 && lo < hi < |actions| && StepCounts(states, actions, hi, seat, lo, hi)
    requires InRoundAt(states, actions, lo, hi, players, seat) && 0 <= seat < players
    ensures TurnsStarted(states, actions, lo, hi, seat) == 1
  {
    LastOfRound(states[hi], actions[hi], states[hi + 1], seat);
  }

  lemma {:induction false} RoundUpTo(states: seq<State>, actions: seq<Action>, lo: nat, n: nat, hi: nat,
          players: nat, seat: int)
    requires |states| == |actions| + 1 && lo < n <= hi <= |actions| && 0 <= seat < players
    requires Inv(states[lo]) && states[lo].players == players
    requires forall t :: lo <= t < n ==> StepCounts(states, actions, t, seat, lo, hi)
    ensures InRoundAt(states, actions, lo, n, players, seat)
    decreases n
  {
    if n == lo + 1 {
      RoundOpens(states, actions, lo, hi, players, seat);
    } else {
      RoundUpTo(states, actions, lo, n - 1, hi, players, seat);
      RoundGoesOn(states, actions, lo, n - 1, hi, players, seat);
    }
  }

  lemma RoundSteps(board: Board, players: nat, states: seq<State>, actions: seq<Action>, lo: nat, hi: nat, seat: int)
    requires IsRound(board, players, states, actions, lo, hi)
    requires forall t :: lo < t <= hi + 1 ==> OwnsLand(states[t].territories, seat)
    ensures forall t :: lo <= t <= hi ==> StepCounts(states, actions, t, seat, lo, hi)
  {
    forall t | lo <= t <= hi
      ensures StepCounts(states, actions, t, seat, lo, hi)
    {
      assert Step(states[t], actions[t], states[t + 1]) && OwnsLand(states[t + 1].territories, seat);
    }
  }

  /** Between two counted turns, in placement and in play, every seat that keeps some land starts exactly one turn. */
  lemma EachSurvivorMovesOnce(board: Board, players: nat, states: seq<State>, actions: seq<Action>, lo: nat,
          hi: nat, seat: int)
    requires ValidBoard(board) && 2 <= players <= 6 && 0 <= seat < players
    requires IsRound(board, players, states, actions, lo, hi)
    requires forall t :: lo < t <= hi + 1 ==> OwnsLand(states[t].territories, seat)
    ensures TurnsStarted(states, actions, lo, hi, seat) == 1
  {
    GameKeepsInv(board, players, states, actions, lo);
    RoundSteps(board, players, states, actions, lo, hi, seat);
    RoundUpTo(states, actions, lo, hi, hi, players, seat);
    RoundCloses(states, actions, lo, hi, players, seat);
  }

  lemma FirstOfRound(s: State, action: Action, after: State, seat: int)
    requires Inv(s) && Step(s, action, after) && after.turns != s.turns
    requires 0 <= seat < s.players && OwnsLand(after.territories, seat)
    ensures Inv(after) && after.players == s.players
    ensures StartsTurn(action, after, seat) <==> seat <= Mover(after)
  {
    StepKeepsTable(s, action);
    if !EndsTurn(action) {
      TurnGoesOn(s, action, after);
    }
    TurnPasses(s, action, after, seat);
  }

  lemma NextOfRound(s: State, action: Action, after: State, seat: int, players: nat, started: nat)
    requires InRound(s, players, seat, started) && Step(s, action, after) && after.turns == s.turns
    requires 0 <= seat < s.players && OwnsLand(after.territories, seat)
    ensures InRound(after, players, seat, started + if StartsTurn(action, after, seat) then 1 else 0)
  {
    StepKeepsTable(s, action);
    if EndsTurn(action) {
      TurnPasses(s, action, after, seat);
    } else {
      TurnGoesOn(s, action, after);
    }
  }

  lemma LastOfRound(s: State, action: Action, after: State, seat: int)
    requires Inv(s) && Step(s, action, after) && after.turns != s.turns
    requires 0 <= seat < s.players && OwnsLand(after.territories, seat)
    ensures seat <= Mover(s)
  {
    if !EndsTurn(action) {
      TurnGoesOn(s, action, after);
    }
    TurnPasses(s, action, after, seat);
  }

  lemma PlacementWinsNothing(s: State, t: int, seat: int)
    requires Inv(s) && Legal(s, InitialPlace(t)) && seat >= 0
    ensures !Wins(ApplyPlace(s, t).territories, seat)
  {
    var after := ApplyPlace(s, t);
    if s.placements > 0 {
      PlaceKeepsSeats(s, t);
      var other := if seat == 0 then 1 else 0;
      assert OwnsLand(after.territories, other);
      var u :| 0 <= u < NUM_TERRITORIES && after.territories[u].owner == other;
    } else {
      var u := if t == 0 then 1 else 0;
      AllUnclaimed(s, u);
      assert after.territories[u] == s.territories[u];
    }
  }

  /** Before the first placement nobody owns anything. */
  lemma AllUnclaimed(s: State, u: int)
    requires Inv(s) && s.placing && s.placements == 0 && OnBoard(u)
    ensures s.territories[u].owner == -1
  {
    if 0 <= s.territories[u].owner < s.players {
      assert OwnsLand(s.territories, s.territories[u].owner);
    }
  }

  /** A move never makes a player win, the mover or another: only a roll of the dice does. */
  lemma OnlyRollsWin(s: State, action: Action, seat: int)
    requires Inv(s) && Legal(s, action) && !action.RollDice?
    ensures Wins(Apply(s, action).territories, seat) ==> Wins(s.territories, seat)
  {
    var after := Apply(s, action);
    if action.InitialPlace? {
      if seat >= 0 {
        PlacementWinsNothing(s, action.territory, seat);
      }
    } else {
      assert forall t :: 0 <= t < NUM_TERRITORIES ==> after.territories[t].owner == s.territories[t].owner;
      if Wins(after.territories, seat) {
        assert forall t :: 0 <= t < NUM_TERRITORIES ==> s.territories[t].owner == seat;
      }
    }
  }
}
