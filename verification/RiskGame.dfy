/**
 The game object: arrays and counters updated in place, each method proved to do what
 the transition functions of `RiskRules` say. The asserts are the program's own.
 */
module RiskGame {
  import opened Arithmetic
  import opened Options
  import opened RiskRules
  import opened RiskInvariant

  datatype Outcome = Ongoing | Won(seat: int)

  // --------------------------------------------------------------- sorted dice

  predicate Descending(xs: seq<int>) {
    forall i, j :: 0 <= i < j < |xs| ==> xs[i] >= xs[j]
  }

  lemma {:induction false} InsertSplits(x: int, xs: seq<int>) returns (k: nat)
    ensures k <= |xs| && Insert(x, xs) == xs[..k] + [x] + xs[k..]
    ensures (forall i :: 0 <= i < k ==> xs[i] > x) && (k < |xs| ==> xs[k] <= x)
  {
    if xs == [] || x >= xs[0] {
      k := 0;
    } else {
      var j := InsertSplits(x, xs[1..]);
      k := j + 1;
      assert xs[..k] == [xs[0]] + xs[1..][..j];
      assert xs[k..] == xs[1..][j..];
      forall i | 0 <= i < k ensures xs[i] > x {
        if i > 0 {
          assert xs[i] == xs[1..][i - 1];
        }
      }
    }
  }

  lemma InsertSorts(x: int, xs: seq<int>)
    requires Descending(xs)
    ensures Descending(Insert(x, xs))
  {
    var k := InsertSplits(x, xs);
  }

  lemma {:induction false} InsertKeepsAll(x: int, xs: seq<int>)
    ensures multiset(Insert(x, xs)) == multiset(xs) + multiset{x}
  {
    if xs != [] && x < xs[0] {
      InsertKeepsAll(x, xs[1..]);
      assert xs == [xs[0]] + xs[1..];
    }
  }

  /** Sorting dice puts them in descending order and loses none. */
  lemma {:induction false} SortDescendingSorts(xs: seq<int>)
    ensures Descending(SortDescending(xs)) && multiset(SortDescending(xs)) == multiset(xs)
  {
    if xs != [] {
      SortDescendingSorts(xs[1..]);
      InsertSorts(xs[0], SortDescending(xs[1..]));
      InsertKeepsAll(xs[0], SortDescending(xs[1..]));
      assert xs == [xs[0]] + xs[1..];
    }
  }

  function Positives(xs: seq<int>): nat {
    if xs == [] then 0 else (if xs[0] > 0 then 1 else 0) + Positives(xs[1..])
  }

  lemma {:induction false} InsertPositives(x: int, xs: seq<int>)
    ensures Positives(Insert(x, xs)) == Positives(xs) + (if x > 0 then 1 else 0)
  {
    if xs != [] && x < xs[0] {
      InsertPositives(x, xs[1..]);
    }
  }

  lemma {:induction false} SortPositives(xs: seq<int>)
    ensures Positives(SortDescending(xs)) == Positives(xs)
  {
    if xs != [] {
      SortPositives(xs[1..]);
      InsertPositives(xs[0], SortDescending(xs[1..]));
    }
  }

  lemma {:induction false} LegalDicePositives(xs: seq<int>, used: int)
    requires LegalDice(xs, used) && 0 <= used <= |xs|
    ensures Positives(xs) == used
  {
    if xs != [] {
      LegalDicePositives(xs[1..], if used == 0 then 0 else used - 1);
    }
  }

  lemma {:induction false} SortedPositivesFirst(xs: seq<int>, i: nat)
    requires Descending(xs) && i < |xs|
    ensures xs[i] > 0 <==> i < Positives(xs)
  {
    if i == 0 {
      if xs[0] <= 0 {
        NoPositives(xs);
      }
    } else {
      if xs[0] <= 0 {
        NoPositives(xs);
      } else {
        SortedPositivesFirst(xs[1..], i - 1);
      }
    }
  }

  lemma {:induction false} NoPositives(xs: seq<int>)
    requires forall i :: 0 <= i < |xs| ==> xs[i] <= 0
    ensures Positives(xs) == 0
  {
    if xs != [] {
      NoPositives(xs[1..]);
    }
  }

  /** Once sorted, the dice in use come first: a zero marks the end of them. */
  lemma UsedDiceComeFirst(xs: seq<int>, used: int, i: nat)
    requires LegalDice(xs, used) && 0 <= used <= |xs| && i < |xs|
    ensures SortDescending(xs)[i] != 0 <==> i < used
  {
    SortDescendingSorts(xs);
    SortPositives(xs);
    LegalDicePositives(xs, used);
    var sorted := SortDescending(xs);
    assert sorted[i] in multiset(xs);
    SortedPositivesFirst(sorted, i);
  }

  // ---------------------------------------------------------------------- winner

  /** Whoever owns all of the land, if it is one seat. */
  method WinnerOf(land: seq<Territory>) returns (outcome: Outcome)
    requires land != [] && forall t :: 0 <= t < |land| ==> land[t].owner >= -1
    ensures outcome.Won? ==> Wins(land, outcome.seat)
    ensures outcome.Ongoing? ==> forall seat :: !Wins(land, seat)
  {
    var seen := -1;
    for i := 0 to |land|
      invariant i == 0 ==> seen == -1
      invariant i > 0 ==> seen >= 0
      invariant forall t :: 0 <= t < i ==> land[t].owner == seen
    {
      var owner := land[i].owner;
      if owner == -1 || (seen != -1 && owner != seen) {
        assert land[i].owner == owner && (i > 0 ==> land[0].owner == seen);
        return Ongoing;
      }
      seen := owner;
    }
    outcome := Won(seen);
  }

  // ---------------------------------------------------------------- the object

  class RiskState {
    const board: Board
    const players: nat
    const reserves: array<int>
    const territories: array<Territory>
    var placing: bool
    var placements: nat
    var firstAttack: bool
    var current: int
    var turns: nat
    var attack: Option<QueuedAttack>
    var defense: Option<int>

    ghost predicate Sized() {
      && ValidBoard(board) && 2 <= players <= 6
      && reserves.Length == players && territories.Length == NUM_TERRITORIES
    }

    ghost function Value(): State
      reads this, reserves, territories
    {
      State(board, players, reserves[..], territories[..], placing, placements, firstAttack,
            current, turns, attack, defense)
    }

    constructor (board: Board, players: nat)
      requires ValidBoard(board) && 2 <= players <= 6
      ensures Sized() && fresh(reserves) && fresh(territories)
      ensures Value() == Initial(board, players)
    {
      this.board, this.players := board, players;
      reserves := new int[players](i => InitialReserves(players));
      territories := new Territory[NUM_TERRITORIES](i => Territory(-1, 0));
      placing, placements, firstAttack, current, turns, attack, defense := true, 0, true, 0, 0, None, None;
    }

    /** The territories of `seat`, and the territories with an army to spare. */
    method OwnershipMasks(seat: int) returns (mine: set<int>, strong: set<int>)
      requires Sized()
      ensures mine == Owned(territories[..], seat)
      ensures forall t :: t in strong <==> 0 <= t < NUM_TERRITORIES && territories[t].units > 1
    {
      mine, strong := {}, {};
      for i := 0 to territories.Length
        invariant forall t :: t in mine <==> 0 <= t < i && territories[t].owner == seat
        invariant forall t :: t in strong <==> 0 <= t < i && territories[t].units > 1
      {
        if territories[i].owner == seat {
          mine := mine + {i};
        }
        if territories[i].units > 1 {
          strong := strong + {i};
        }
      }
    }

    method AddTurnStartReinforcements()
      requires Sized() && 0 <= current < players
      modifies reserves
      ensures Value() == StartTurn(old(Value()))
    {
      var mine, strong := OwnershipMasks(current);
      reserves[current] := if |mine| / 3 < 3 then 3 else |mine| / 3;
      ghost var base := reserves[current];
      for c := 0 to |board.continents|
        invariant reserves[current] + ContinentBonus(board.continents[c..], mine)
               == base + ContinentBonus(board.continents, mine)
        invariant forall p :: 0 <= p < players && p != current ==> reserves[p] == old(reserves[p])
      {
        assert board.continents[c..][1..] == board.continents[c + 1..];
        if board.continents[c].members <= mine {
          reserves[current] := reserves[current] + board.continents[c].bonus;
        }
      }
      assert reserves[..] == old(reserves[..])[current := TurnReinforcements(board, territories[..], current)];
    }

    /** Whether anyone on the map is `seat`. */
    method SeatOwnsLand(seat: int) returns (found: bool)
      requires Sized()
      ensures found <==> OwnsLand(territories[..], seat)
    {
      found := false;
      for i := 0 to territories.Length
        invariant found <==> exists t :: 0 <= t < i && territories[t].owner == seat
      {
        found := found || territories[i].owner == seat;
      }
    }

    /** Moves on to the next seat with land; the search ends because someone has some. */
    method SkipEliminated(ghost landedSeat: int)
      requires Sized() && 0 <= current < players
      requires 0 <= landedSeat < players && OwnsLand(territories[..], landedSeat)
      modifies this`current
      ensures Value() == old(Value()).(current := NextSeat(old(Value())))
    {
      ghost var s := Value();
      ghost var limit := players - 1;
      current := SeatAfter(current, players);
      var landed := SeatOwnsLand(current);
      while !landed
        invariant 0 <= current < players && 0 <= limit < players
        invariant landed == OwnsLand(s.territories, current)
        invariant FirstLanded(s, current, limit) == NextSeat(s)
        invariant Ahead(current, landedSeat, players) <= limit
        decreases limit
      {
        current := SeatAfter(current, players);
        limit := limit - 1;
        landed := SeatOwnsLand(current);
      }
    }

    /** Passes the move on, counting a round where the seats wrap. */
    method NextPlayer()
      requires Sized() && Common(Value()) && 0 <= current < players
      requires exists p :: 0 <= p < players && OwnsLand(territories[..], p)
      modifies this, reserves
      ensures Value() == RiskRules.NextPlayer(old(Value()))
    {
      ghost var p :| 0 <= p < players && OwnsLand(territories[..], p);
      var previous := current;
      SkipEliminated(p);
      if current <= previous {
        turns := (turns + 1) % 0x1_0000_0000;
      }
      AddTurnStartReinforcements();
      firstAttack := true;
    }

    method InitialPlace(t: int)
      requires Sized() && Inv(Value()) && placing && LegalPlace(Value(), t)
      modifies this, reserves, territories
      ensures Value() == ApplyPlace(old(Value()), t)
    {
      territories[t] := Territory(current, SaturatingAdd(territories[t].units, 1));
      reserves[current] := reserves[current] - 1;
      current := SeatAfter(current, players);
      if current == 0 {
        turns := (turns + 1) % 0x1_0000_0000;
        if reserves[0] == 0 {
          placing := false;
          AddTurnStartReinforcements();
        }
      }
      placements := placements + 1;
    }

    method ReinforceWithReserves(placed: Placement)
      requires Sized() && Inv(Value()) && !placing && attack.None? && LegalReinforce(Value(), placed)
      modifies reserves, territories
      ensures Value() == ApplyReinforce(old(Value()), placed)
    {
      ghost var s := Value();
      for i := 0 to NUM_TERRITORIES
        invariant PlacedUpTo(s, placed, i, territories[..], reserves[..])
      {
        PlaceOneMore(s, placed, i, territories[..], reserves[..]);
        PlaceOne(i, placed[i]);
      }
      assert placed[..NUM_TERRITORIES] == placed;
      assert territories[..] == Reinforced(s.territories, placed);
    }

    /** The first `i` territories have their share, and the mover's reserves are down by it. */
    ghost predicate PlacedUpTo(s: State, placed: Placement, i: nat, land: seq<Territory>, left: seq<int>)
      requires Shape(s) && 0 <= s.current < s.players && i <= NUM_TERRITORIES
    {
      && |land| == NUM_TERRITORIES && |placed| == NUM_TERRITORIES
      && (forall t :: 0 <= t < i ==>
            land[t] == Territory(s.territories[t].owner, SaturatingAdd(s.territories[t].units, placed[t])))
      && (forall t :: i <= t < NUM_TERRITORIES ==> land[t] == s.territories[t])
      && left == s.reserves[s.current := s.reserves[s.current] - Sum(placed[..i])]
    }

    lemma PlaceOneMore(s: State, placed: Placement, i: nat, land: seq<Territory>, left: seq<int>)
      requires Shape(s) && 0 <= s.current < s.players && LegalReinforce(s, placed) && i < NUM_TERRITORIES
      requires PlacedUpTo(s, placed, i, land, left)
      ensures placed[i] > 0 ==> land[i].owner == s.current && left[s.current] >= placed[i]
      ensures PlacedUpTo(s, placed, i + 1,
                         land[i := Territory(land[i].owner, SaturatingAdd(land[i].units, placed[i]))],
                         left[s.current := left[s.current] - placed[i]])
    {
      PrefixSum(placed, i + 1);
      assert placed[..i + 1][..i] == placed[..i];
    }

    /** One territory's share of a reinforcement. */
    method PlaceOne(i: nat, add: Unsigned16)
      requires Sized() && 0 <= current < players && i < NUM_TERRITORIES
      requires add > 0 ==> territories[i].owner == current && reserves[current] >= add
      modifies reserves, territories
      ensures territories[..] == old(territories[..])[i := Territory(old(territories[i]).owner, SaturatingAdd(old(territories[i]).units, add))]
      ensures reserves[..] == old(reserves[..])[current := old(reserves[current]) - add]
    {
      if add > 0 {
        assert territories[i].owner == current;
        assert reserves[current] >= add;
        territories[i] := Territory(territories[i].owner, SaturatingAdd(territories[i].units, add));
        reserves[current] := reserves[current] - add;
      }
    }

    lemma PrefixSum(placed: seq<int>, n: nat)
      requires n <= |placed| && forall i :: 0 <= i < |placed| ==> placed[i] >= 0
      ensures Sum(placed[..n]) <= Sum(placed)
      decreases |placed|
    {
      if n < |placed| {
        var shorter := placed[..|placed| - 1];
        assert shorter[..n] == placed[..n];
        PrefixSum(shorter, n);
      } else {
        assert placed[..n] == placed;
      }
    }

    method FortifyToMoveUnits(source: int, target: int, units: int)
      requires Sized() && Inv(Value()) && LegalFortify(Value(), source, target, units)
      modifies this, reserves, territories
      ensures Value() == ApplyFortify(old(Value()), source, target, units)
    {
      SomeSeatOwnsLand(Value());
      if units <= 1 {
        NextPlayer();
        return;
      }
      assert 0 <= source < territories.Length;
      assert 0 <= target < territories.Length;
      assert units > 0;
      assert territories[source].units >= units;
      ghost var s := Value();
      territories[source] := Territory(territories[source].owner, territories[source].units - units);
      territories[target] := Territory(territories[target].owner, SaturatingAdd(territories[target].units, units));
      assert territories[..] == Add(Remove(s.territories, source, units), target, units);
      assert OwnsLand(territories[..], current) by { assert territories[..][source].owner == current; }
      NextPlayer();
    }

    method Attack(q: QueuedAttack)
      requires Sized() && Inv(Value()) && !placing && attack.None? && LegalAttack(Value(), q)
      modifies this
      ensures Value() == ApplyAttack(old(Value()), q)
    {
      assert q.source != q.target;
      assert 0 <= q.source < territories.Length;
      assert 0 <= q.target < territories.Length;
      assert 1 <= q.dice <= 3;
      assert territories[q.source].units > q.dice;
      assert attack.None?;
      assert defense.None?;
      attack := Some(q);
      current := territories[q.target].owner;
      firstAttack := false;
    }

    /** Compares the sorted dice pair by pair and takes the losses off the two territories. */
    method TakeLosses(source: int, target: int, dice: int, answered: int, attacker: seq<int>, defender: seq<int>)
      requires Sized() && OnBoard(source) && OnBoard(target) && source != target
      requires |attacker| == 3 && |defender| == 2 && 1 <= dice <= 3 && 1 <= answered <= 2
      requires forall i :: 0 <= i < 3 ==> (attacker[i] != 0 <==> i < dice)
      requires forall i :: 0 <= i < 2 ==> (defender[i] != 0 <==> i < answered)
      requires dice < territories[source].units && answered <= territories[target].units
      modifies territories
      ensures var pairs := Min(dice, answered);
              var lost := AttackerWins(attacker, defender, pairs);
              territories[..] == Remove(Remove(old(territories[..]), source, pairs - lost), target, lost)
    {
      ghost var before := territories[..];
      ghost var pairs := Min(dice, answered);
      var i := 0;
      while i < 2
        invariant 0 <= i <= pairs
        invariant territories[..] == Remove(Remove(before, source, i - AttackerWins(attacker, defender, i)),
                                            target, AttackerWins(attacker, defender, i))
      {
        if attacker[i] == 0 || defender[i] == 0 {
          break;
        }
        if attacker[i] > defender[i] {
          territories[target] := Territory(territories[target].owner, territories[target].units - 1);
        } else {
          territories[source] := Territory(territories[source].owner, territories[source].units - 1);
        }
        i := i + 1;
      }
    }

    /** Moves armies into a territory that has just lost its last one. */
    method Conquer(q: QueuedAttack)
      requires Sized() && OnBoard(q.source) && OnBoard(q.target) && q.source != q.target
      requires 1 <= q.dice && 0 <= q.move && 1 <= territories[q.source].units && territories[q.target].units == 0
      modifies territories
      ensures var land := old(territories[..]);
              var moved := ConquestMove(q, land[q.source].units);
              territories[..] == land[q.source := Territory(land[q.source].owner, land[q.source].units - moved)]
                                     [q.target := Territory(land[q.source].owner, SaturatingAdd(0, moved))]
    {
      var most := territories[q.source].units - 1;
      var least := Min(q.dice, most);
      assert least <= most;
      var asked := if q.move == 0 then least else q.move;
      var moved := if asked < least then least else if most < asked then most else asked;
      territories[q.source] := Territory(territories[q.source].owner, territories[q.source].units - moved);
      territories[q.target] := Territory(territories[q.source].owner, SaturatingAdd(territories[q.target].units, moved));
    }

    method ResolveAttackRolls(attacker: AttackerDice, defender: DefenderDice)
      requires Sized() && Inv(Value()) && Legal(Value(), RollDice(attacker, defender))
      modifies this, territories
      ensures old(RollReady(Value())) && Value() == ApplyRoll(old(Value()), attacker, defender)
    {
      assert attack.Some?;
      assert defense.Some?;
      var q := attack.value;
      ghost var s := Value();
      var sortedAttacker, sortedDefender := SortDescending(attacker), SortDescending(defender);
      assert forall i: nat :: i < 3 ==> (sortedAttacker[i] != 0 <==> i < q.dice) by {
        forall i: nat | i < 3 ensures sortedAttacker[i] != 0 <==> i < q.dice {
          UsedDiceComeFirst(attacker, q.dice, i);
        }
      }
      assert forall i: nat :: i < 2 ==> (sortedDefender[i] != 0 <==> i < defense.value) by {
        forall i: nat | i < 2 ensures sortedDefender[i] != 0 <==> i < defense.value {
          UsedDiceComeFirst(defender, defense.value, i);
        }
      }
      TakeLosses(q.source, q.target, q.dice, defense.value, sortedAttacker, sortedDefender);
      if territories[q.target].units == 0 {
        Conquer(q);
      }
      assert territories[..] == ApplyRoll(s, attacker, defender).territories;
      current := territories[q.source].owner;
      attack := None;
      defense := None;
    }

    /** The whole transition, in place. */
    method ApplyActionInPlace(action: Action)
      requires Sized() && Inv(Value()) && Legal(Value(), action)
      modifies this, reserves, territories
      ensures old(action.RollDice? ==> RollReady(Value()))
      ensures Value() == Apply(old(Value()), action) && Inv(Value())
    {
      StepKeepsInv(Value(), action);
      match action
      case InitialPlace(t) => InitialPlace(t);
      case PlayerMove(reinforce, q) =>
        assert !placing;
        assert 0 <= current < players;
        Move(reinforce, q);
      case QueueDefense(dice) =>
        assert defense.None?;
        assert attack.Some?;
        defense := Some(dice);
        current := -1;
      case RollDice(attacker, defender) => ResolveAttackRolls(attacker, defender);
      case Fortify(source, target, units) => FortifyToMoveUnits(source, target, units);
    }

    /** Reserves first, then the attack that rides along. */
    method Move(reinforce: Option<Placement>, q: Option<QueuedAttack>)
      requires Sized() && Inv(Value()) && Legal(Value(), PlayerMove(reinforce, q))
      modifies this, reserves, territories
      ensures Value() == Apply(old(Value()), PlayerMove(reinforce, q))
    {
      if reinforce.Some? {
        ReinforceKeepsInv(Value(), reinforce.value);
        if q.Some? {
          AttackSurvivesReinforce(Value(), reinforce.value, q.value);
        }
        ReinforceWithReserves(reinforce.value);
      }
      if q.Some? {
        Attack(q.value);
      }
    }

    /** The reinforcement part of the legality oracle: a scan that sums what is placed. */
    method CheckReinforce(placed: Placement) returns (ok: bool)
      requires Sized() && 0 <= current < players
      ensures ok <==> LegalReinforce(Value(), placed)
    {
      if reserves[current] == 0 || !firstAttack {
        return false;
      }
      var sum: int := 0;
      for i := 0 to NUM_TERRITORIES
        invariant sum == Sum(placed[..i])
        invariant forall t :: 0 <= t < i && placed[t] != 0 ==> territories[t].owner == current
      {
        assert placed[..i + 1][..i] == placed[..i];
        if placed[i] != 0 {
          if territories[i].owner != current {
            return false;
          }
          sum := sum + placed[i];
        }
      }
      assert placed[..NUM_TERRITORIES] == placed;
      ok := sum == reserves[current];
    }

    /** The winner is whoever owns the whole map; any unowned or second-owner land means none yet. */
    method CurrentState() returns (outcome: Outcome)
      requires Sized() && Common(Value())
      ensures outcome.Won? ==> Wins(territories[..], outcome.seat)
      ensures outcome.Ongoing? ==> forall seat :: !Wins(territories[..], seat)
    {
      outcome := WinnerOf(territories[..]);
    }
  }
}
