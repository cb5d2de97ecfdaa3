/**
 The invariant of every reachable state of Risk, and the proof that every legal
 action keeps it. It is what makes the unchecked transitions safe.
 */
module RiskInvariant {
  import opened Options
  import opened RiskRules

  /** The most a turn's reinforcement or a starting pile can be. */
  const MAX_RESERVES: nat := 1014

  ghost predicate Common(s: State) {
    && ValidBoard(s.board)
    && Shape(s)
    && s.turns < 0x1_0000_0000
    && (forall p :: 0 <= p < s.players ==> 0 <= s.reserves[p] <= MAX_RESERVES)
    // Land is empty exactly while nobody owns it.
    && (forall t :: 0 <= t < NUM_TERRITORIES ==> -1 <= s.territories[t].owner < s.players)
    && (forall t :: 0 <= t < NUM_TERRITORIES ==> (s.territories[t].owner == -1 <==> s.territories[t].units == 0))
  }

  /** Initial placement: the seats place in turn, first every territory, then on their own. */
  ghost predicate Placing(s: State)
    requires Shape(s)
  {
    var start := InitialReserves(s.players);
    && s.attack.None? && s.defense.None? && s.firstAttack
    && 0 <= s.current < s.players
    && s.turns < start
    && s.placements == s.turns * s.players + s.current
    && (forall p :: 0 <= p < s.players ==> s.reserves[p] == start - s.turns - (if p < s.current then 1 else 0))
    && |Owned(s.territories, -1)| == (if s.placements < NUM_TERRITORIES then NUM_TERRITORIES - s.placements else 0)
    && (forall p :: 0 <= p < s.players ==> (OwnsLand(s.territories, p) <==> p < s.placements))
  }

  /** A queued battle joins two owners, with enough armies behind its dice. */
  ghost predicate BattleQueued(s: State, q: QueuedAttack)
    requires Shape(s)
  {
    && OnBoard(q.source) && OnBoard(q.target)
    && s.territories[q.source].owner != s.territories[q.target].owner
    && 1 <= q.dice <= 3 && q.dice < s.territories[q.source].units
    && 0 <= q.move
    && !s.firstAttack
    && match s.defense
       case None => s.current == s.territories[q.target].owner
       case Some(d) => s.current == -1 && 1 <= d <= 2 && d <= s.territories[q.target].units
  }

  ghost predicate Playing(s: State)
    requires Shape(s)
  {
    && s.placements == s.players * InitialReserves(s.players)
    && (forall t :: 0 <= t < NUM_TERRITORIES ==> s.territories[t].owner != -1)
    && match s.attack
       case None => s.defense.None? && 0 <= s.current < s.players && OwnsLand(s.territories, s.current)
       case Some(q) => BattleQueued(s, q)
  }

  ghost predicate Inv(s: State) {
    Common(s) && if s.placing then Placing(s) else Playing(s)
  }

  // ------------------------------------------------------------ initial state

  lemma AllLandOwnedByNobody(territories: seq<Territory>)
    requires |territories| == NUM_TERRITORIES
    requires forall t :: 0 <= t < NUM_TERRITORIES ==> territories[t].owner == -1
    ensures |Owned(territories, -1)| == NUM_TERRITORIES
  {
    IndicesCount(NUM_TERRITORIES);
    assert Owned(territories, -1) == Indices(NUM_TERRITORIES);
  }

  function Indices(n: nat): set<int> {
    set t {:trigger OnBoard(t)} | 0 <= t < n
  }

  lemma {:induction false} IndicesCount(n: nat)
    ensures |Indices(n)| == n
  {
    if n > 0 {
      IndicesCount(n - 1);
      assert Indices(n) == Indices(n - 1) + {n - 1};
    }
  }

  lemma InitialInv(board: Board, players: nat)
    requires ValidBoard(board) && 2 <= players <= 6
    ensures Inv(Initial(board, players))
  {
    AllLandOwnedByNobody(Initial(board, players).territories);
  }

  // ---------------------------------------------------------------- placement

  /** During placement the seat to move has an army left to place. */
  lemma PlacingHasReserves(s: State)
    requires Inv(s) && s.placing
    ensures s.reserves[s.current] > 0
  {
  }

  /** Giving territory `t` to a new owner moves `t` between the owners' sets. */
  lemma OwnedAfterGift(territories: seq<Territory>, t: int, given: Territory, seat: int)
    requires 0 <= t < |territories|
    ensures Owned(territories[t := given], seat)
         == (if given.owner == seat then Owned(territories, seat) + {t} else Owned(territories, seat) - {t})
  {
  }

  /** Seat `p` holds land after one placement on `t` exactly when it did, or just placed there. */
  lemma OwnsLandAfterPlace(s: State, t: int, after: seq<Territory>, p: int)
    requires Shape(s) && OnBoard(t) && 0 <= p
    requires s.territories[t].owner == -1 || s.territories[t].owner == s.current
    requires after == s.territories[t := Territory(s.current, SaturatingAdd(s.territories[t].units, 1))]
    ensures OwnsLand(after, p) <==> OwnsLand(s.territories, p) || p == s.current
  {
    if OwnsLand(s.territories, p) && p != s.current {
      var u :| 0 <= u < NUM_TERRITORIES && s.territories[u].owner == p;
      assert after[u].owner == p;
    }
    if p == s.current {
      assert after[t].owner == p;
    }
    if OwnsLand(after, p) && p != s.current {
      var u :| 0 <= u < NUM_TERRITORIES && after[u].owner == p;
      assert u != t && s.territories[u].owner == p;
    }
  }

  lemma UnownedAfterPlace(s: State, t: int, after: seq<Territory>)
    requires Inv(s) && s.placing && LegalPlace(s, t)
    requires after == s.territories[t := Territory(s.current, SaturatingAdd(s.territories[t].units, 1))]
    ensures var k := s.placements + 1;
            |Owned(after, -1)| == (if k < NUM_TERRITORIES then NUM_TERRITORIES - k else 0)
  {
    OwnedAfterGift(s.territories, t, after[t], -1);
    if s.placements < NUM_TERRITORIES {
      assert t in Owned(s.territories, -1);
    } else {
      assert Owned(s.territories, -1) == {};
    }
  }

  lemma PlaceKeepsLand(s: State, t: int)
    requires Inv(s) && s.placing && LegalPlace(s, t)
    ensures Common(ApplyPlace(s, t).(reserves := s.reserves, turns := s.turns))
  {
  }

  lemma NoneUnowned(territories: seq<Territory>)
    requires |Owned(territories, -1)| == 0
    ensures forall t :: 0 <= t < |territories| ==> territories[t].owner != -1
  {
    forall t | 0 <= t < |territories|
      ensures territories[t].owner != -1
    {
      assert t !in Owned(territories, -1);
    }
  }

  lemma ProductStep(turns: nat, players: nat)
    ensures (turns + 1) * players == turns * players + players == players * (turns + 1)
  {
  }

  lemma PlaceKeepsSeats(s: State, t: int)
    requires Inv(s) && Legal(s, InitialPlace(t))
    ensures var after := ApplyPlace(s, t);
            forall p :: 0 <= p < s.players ==> (OwnsLand(after.territories, p) <==> p < after.placements)
  {
    var after := ApplyPlace(s, t);
    forall p | 0 <= p < s.players
      ensures OwnsLand(after.territories, p) <==> p < after.placements
    {
      OwnsLandAfterPlace(s, t, after.territories, p);
      if s.turns > 0 {
        ProductStep(s.turns - 1, s.players);
      }
    }
  }

  lemma PlaceKeepsPlacing(s: State, t: int)
    requires Inv(s) && Legal(s, InitialPlace(t)) && ApplyPlace(s, t).placing
    ensures Placing(ApplyPlace(s, t))
  {
    UnownedAfterPlace(s, t, ApplyPlace(s, t).territories);
    PlaceKeepsSeats(s, t);
    ProductStep(s.turns, s.players);
  }

  lemma PlaceEndsInPlay(s: State, t: int)
    requires Inv(s) && Legal(s, InitialPlace(t)) && !ApplyPlace(s, t).placing
    ensures Playing(ApplyPlace(s, t))
  {
    var after := ApplyPlace(s, t);
    UnownedAfterPlace(s, t, after.territories);
    PlaceKeepsSeats(s, t);
    ProductStep(s.turns, s.players);
    NoneUnowned(after.territories);
  }

  lemma PlaceKeepsCommon(s: State, t: int)
    requires Inv(s) && Legal(s, InitialPlace(t))
    ensures Common(ApplyPlace(s, t))
  {
    PlaceKeepsLand(s, t);
    TurnReinforcementsBound(s.board, ApplyPlace(s, t).territories, 0);
  }

  lemma PlaceKeepsInv(s: State, t: int)
    requires Inv(s) && Legal(s, InitialPlace(t))
    ensures Inv(ApplyPlace(s, t))
  {
    PlaceKeepsCommon(s, t);
    if ApplyPlace(s, t).placing {
      PlaceKeepsPlacing(s, t);
    } else {
      PlaceEndsInPlay(s, t);
    }
  }

  /**
   Placement ends with every army placed: all the reserves are spent, and seat 0 starts
   the first turn with its reinforcements.
   */
  lemma PlacementEndsEmpty(s: State, t: int)
    requires Inv(s) && Legal(s, InitialPlace(t))
    requires !ApplyPlace(s, t).placing
    ensures var after := ApplyPlace(s, t);
            && s.current == s.players - 1 && s.reserves[s.current] == 1
            && (forall p :: 0 <= p < s.players - 1 ==> s.reserves[p] == 0)
            && after.current == 0
            && after.placements == s.players * InitialReserves(s.players)
            && after.reserves == seq(s.players, i => 0)[0 := TurnReinforcements(s.board, after.territories, 0)]
            && (forall u :: 0 <= u < NUM_TERRITORIES ==> after.territories[u].owner != -1)
  {
    PlaceKeepsInv(s, t);
  }

  // ------------------------------------------------------------ reinforcement

  lemma {:induction false} ContinentBonusBound(continents: seq<Continent>, mine: set<int>)
    ensures ContinentBonus(continents, mine) <= BonusTotal(continents)
  {
    if continents != [] {
      ContinentBonusBound(continents[1..], mine);
    }
  }

  lemma TurnReinforcementsBound(board: Board, territories: seq<Territory>, seat: int)
    requires ValidBoard(board) && |territories| == NUM_TERRITORIES
    ensures 3 <= TurnReinforcements(board, territories, seat) <= MAX_RESERVES
  {
    var mine := Owned(territories, seat);
    ContinentBonusBound(board.continents, mine);
    IndicesCount(NUM_TERRITORIES);
    SubsetCount(mine, Indices(NUM_TERRITORIES));
  }

  lemma {:induction false} SubsetCount<T>(a: set<T>, b: set<T>)
    requires a <= b
    ensures |a| <= |b|
  {
    if |a| > 0 {
      var x :| x in a;
      SubsetCount(a - {x}, b - {x});
    }
  }

  // --------------------------------------------------------------- next seat

  /** How many seats on from `seat`, going round, `p` sits. */
  function Ahead(seat: int, p: int, players: nat): int {
    if seat <= p then p - seat else p + players - seat
  }

  lemma {:induction false} FirstLandedIsFirst(s: State, seat: int, limit: nat, witnessSeat: int)
    requires 0 <= seat < s.players && 0 <= witnessSeat < s.players
    requires OwnsLand(s.territories, witnessSeat) && Ahead(seat, witnessSeat, s.players) <= limit < s.players
    ensures var next := FirstLanded(s, seat, limit);
            && OwnsLand(s.territories, next)
            && forall p :: 0 <= p < s.players && Ahead(seat, p, s.players) < Ahead(seat, next, s.players)
                 ==> !OwnsLand(s.territories, p)
    decreases limit
  {
    if !OwnsLand(s.territories, seat) {
      assert seat != witnessSeat;
      FirstLandedIsFirst(s, SeatAfter(seat, s.players), limit - 1, witnessSeat);
    }
  }

  /**
   The mover changes to the next seat that owns land: every seat skipped on the way
   round owns none. So between two wraps the landed seats move once each, in order.
   */
  lemma NextSeatIsNextLanded(s: State)
    requires Common(s) && 0 <= s.current < s.players
    requires exists p :: 0 <= p < s.players && OwnsLand(s.territories, p)
    ensures var next := NextSeat(s);
            && OwnsLand(s.territories, next)
            && (s.current < next ==> forall p :: s.current < p < next ==> !OwnsLand(s.territories, p))
            && (next <= s.current ==> forall p :: s.current < p < s.players || 0 <= p < next
                                        ==> !OwnsLand(s.territories, p))
  {
    var p :| 0 <= p < s.players && OwnsLand(s.territories, p);
    FirstLandedIsFirst(s, SeatAfter(s.current, s.players), s.players - 1, p);
  }

  lemma SomeSeatOwnsLand(s: State)
    requires Common(s) && !s.placing && forall t :: 0 <= t < NUM_TERRITORIES ==> s.territories[t].owner != -1
    ensures exists p :: 0 <= p < s.players && OwnsLand(s.territories, p)
  {
    assert OwnsLand(s.territories, s.territories[0].owner);
  }

  lemma NextPlayerKeepsInv(s: State)
    requires Inv(s) && !s.placing && s.attack.None?
    ensures Inv(NextPlayer(s))
  {
    SomeSeatOwnsLand(s);
    NextSeatIsNextLanded(s);
    TurnReinforcementsBound(s.board, s.territories, NextSeat(s));
  }

  // ------------------------------------------------------------- player moves

  lemma {:induction false} SumNonNegative(xs: seq<int>)
    requires forall i :: 0 <= i < |xs| ==> xs[i] >= 0
    ensures Sum(xs) >= 0
    ensures forall i :: 0 <= i < |xs| ==> xs[i] <= Sum(xs)
  {
    if xs != [] {
      SumNonNegative(xs[..|xs| - 1]);
      forall i | 0 <= i < |xs|
        ensures xs[i] <= Sum(xs)
      {
        if i < |xs| - 1 {
          assert xs[i] == xs[..|xs| - 1][i];
        }
      }
    }
  }

  lemma ReinforceKeepsInv(s: State, placed: Placement)
    requires Inv(s) && !s.placing && s.attack.None? && LegalReinforce(s, placed)
    ensures Inv(ApplyReinforce(s, placed))
    ensures ApplyReinforce(s, placed).reserves[s.current] == 0
  {
    var after := ApplyReinforce(s, placed);
    var t :| 0 <= t < NUM_TERRITORIES && s.territories[t].owner == s.current;
    assert after.territories[t].owner == s.current;
  }

  lemma AttackKeepsInv(s: State, q: QueuedAttack)
    requires Inv(s) && !s.placing && s.attack.None? && LegalAttack(s, q)
    ensures Inv(ApplyAttack(s, q))
  {
  }

  /** A legal attack stays legal once a reinforcement of the same move has been placed. */
  lemma AttackSurvivesReinforce(s: State, placed: Placement, q: QueuedAttack)
    requires Inv(s) && !s.placing && s.attack.None?
    requires LegalReinforce(s, placed) && LegalAttack(s, q)
    ensures LegalAttack(ApplyReinforce(s, placed), q)
  {
  }

  // -------------------------------------------------------------------- rolls

  /**
   One roll. Exactly `Comparisons` armies fall; a conquering roll costs the attacker
   none, so the move into the target lies between the dice and all but one, and both
   territories keep an army.
   */
  lemma RollOutcome(s: State, attacker: AttackerDice, defender: DefenderDice)
    requires Inv(s) && s.attack.Some? && s.defense.Some?
    ensures RollReady(s)
    ensures
      var q := s.attack.value;
      var lost := DefenderLosses(s, attacker, defender);
      var before := s.territories;
      var after := ApplyRoll(s, attacker, defender).territories;
      && after[q.source].owner == before[q.source].owner
      && after[q.source].units >= 1 && after[q.target].units >= 1
      && after[q.source].units + after[q.target].units
         == before[q.source].units + before[q.target].units - Comparisons(s)
      && (forall t :: 0 <= t < NUM_TERRITORIES && t != q.source && t != q.target ==> after[t] == before[t])
      && (lost < before[q.target].units ==>
            && after[q.target].owner == before[q.target].owner
            && after[q.target].units == before[q.target].units - lost
            && after[q.source].units == before[q.source].units - (Comparisons(s) - lost))
      && (lost == before[q.target].units ==>
            && lost == Comparisons(s)
            && after[q.target].owner == before[q.source].owner
            && q.dice <= after[q.target].units <= before[q.source].units - 1
            && (q.move == 0 ==> after[q.target].units == q.dice)
            && (q.dice <= q.move <= before[q.source].units - 1 ==> after[q.target].units == q.move)
            && (q.move >= before[q.source].units - 1 ==> after[q.source].units == 1))
  {
  }

  lemma RollKeepsInv(s: State, attacker: AttackerDice, defender: DefenderDice)
    requires Inv(s) && Legal(s, RollDice(attacker, defender))
    ensures RollReady(s) && Inv(ApplyRoll(s, attacker, defender))
  {
    RollOutcome(s, attacker, defender);
    var after := ApplyRoll(s, attacker, defender);
    assert after.territories[s.attack.value.source].owner == after.current;
  }

  lemma FortifyKeepsInv(s: State, source: int, target: int, units: int)
    requires Inv(s) && LegalFortify(s, source, target, units)
    ensures Inv(ApplyFortify(s, source, target, units))
  {
    if units <= 1 {
      NextPlayerKeepsInv(s);
    } else {
      var moved := s.(territories := Add(Remove(s.territories, source, units), target, units));
      assert moved.territories[source].owner == s.current;
      NextPlayerKeepsInv(moved);
    }
  }

  // -------------------------------------------------------------- every action

  lemma LegalRollIsReady(s: State, action: Action)
    requires Inv(s) && Legal(s, action)
    ensures action.RollDice? ==> RollReady(s)
  {
  }

  /** Every legal action keeps the invariant. */
  lemma StepKeepsInv(s: State, action: Action)
    requires Inv(s) && Legal(s, action)
    ensures action.RollDice? ==> RollReady(s)
    ensures Inv(Apply(s, action))
  {
    LegalRollIsReady(s, action);
    match action
    case InitialPlace(t) => PlaceKeepsInv(s, t);
    case PlayerMove(reinforce, attack) =>
      if reinforce.Some? {
        ReinforceKeepsInv(s, reinforce.value);
        if attack.Some? {
          AttackSurvivesReinforce(s, reinforce.value, attack.value);
          AttackKeepsInv(ApplyReinforce(s, reinforce.value), attack.value);
        }
      } else {
        AttackKeepsInv(s, attack.value);
      }
    case QueueDefense(dice) =>
    case RollDice(attacker, defender) => RollKeepsInv(s, attacker, defender);
    case Fortify(source, target, units) => FortifyKeepsInv(s, source, target, units);
  }
}
