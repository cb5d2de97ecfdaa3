/**
 What every action does, told by the board before it and the board after it, for all legal
 actions: which armies fall and move, which territory changes hands, what a turn starts with.
 */
module RiskEffects {
  import opened Options
  import opened RiskRules
  import opened RiskInvariant
  import opened RiskRuns
  import RiskGame

  // ------------------------------------------------------------------------ the start

  /** Nobody owns anything, seat 0 begins, and every seat has five armies less for each one that plays. */
  lemma StartEffect(board: Board, players: nat)
    requires ValidBoard(board) && 2 <= players <= 6
    ensures var s := Initial(board, players);
      && s.current == 0 && s.placing && s.placements == 0 && s.attack.None? && s.defense.None?
      && |s.territories| == 42 && (forall t :: 0 <= t < 42 ==> s.territories[t] == Territory(-1, 0))
      && |s.reserves| == players && (forall p :: 0 <= p < players ==> s.reserves[p] == 50 - 5 * players)
  {
  }

  // ------------------------------------------------------------------- turn starts

  /** The seat owns every territory of the continent. */
  predicate WhollyOwned(land: seq<Territory>, continent: Continent, seat: int) {
    forall t :: t in continent.members ==> t < |land| && land[t].owner == seat
  }

  /** The bonuses of the continents, nothing for one that is not wholly owned. */
  function WholeBonuses(land: seq<Territory>, continents: seq<Continent>, seat: int): (bonuses: seq<int>)
    ensures |bonuses| == |continents|
    ensures forall c :: 0 <= c < |continents| ==>
      bonuses[c] == if WhollyOwned(land, continents[c], seat) then continents[c].bonus else 0
  {
    seq(|continents|, c requires 0 <= c < |continents| =>
      if WhollyOwned(land, continents[c], seat) then continents[c].bonus else 0)
  }

  lemma {:induction false} SumFromFront(x: int, xs: seq<int>)
    ensures Sum([x] + xs) == x + Sum(xs)
  {
    if xs == [] {
      assert [x] + xs == [x] && [x][..0] == [];
    } else {
      var n := |xs| - 1;
      assert ([x] + xs)[..n + 1] == [x] + xs[..n];
      SumFromFront(x, xs[..n]);
    }
  }

  lemma {:induction false} BonusIsSum(land: seq<Territory>, continents: seq<Continent>, seat: int)
    ensures ContinentBonus(continents, Owned(land, seat)) == Sum(WholeBonuses(land, continents, seat))
  {
    if continents != [] {
      var rest := continents[1..];
      BonusIsSum(land, rest, seat);
      var first := if WhollyOwned(land, continents[0], seat) then continents[0].bonus else 0;
      assert continents[0].members <= Owned(land, seat) <==> WhollyOwned(land, continents[0], seat);
      assert WholeBonuses(land, continents, seat) == [first] + WholeBonuses(land, rest, seat);
      SumFromFront(first, WholeBonuses(land, rest, seat));
    }
  }

  /** A seat's share for a turn: a third of its land, at least three, and every whole continent. */
  predicate StartsWith(s: State, seat: int, reserve: int) {
    var lands := |set t | 0 <= t < |s.territories| && s.territories[t].owner == seat|;
    var third := reserve - Sum(WholeBonuses(s.territories, s.board.continents, seat));
    if lands < 9 then third == 3 else 3 * third <= lands < 3 * third + 3
  }

  /** The reinforcements of a turn are the third and the bonuses, of the land the seat has. */
  lemma ReinforcementsCount(s: State, seat: int)
    ensures StartsWith(s, seat, TurnReinforcements(s.board, s.territories, seat))
  {
    BonusIsSum(s.territories, s.board.continents, seat);
    assert Owned(s.territories, seat) == set t | 0 <= t < |s.territories| && s.territories[t].owner == seat;
  }

  // --------------------------------------------------------------------- placements

  /** One army on the territory, which is then the mover's; one less in reserve; the next seat's turn. */
  lemma PlacementEffect(s: State, t: int)
    requires Inv(s) && Legal(s, InitialPlace(t))
    ensures var after := Apply(s, InitialPlace(t));
      && after.territories[t].owner == s.current
      && after.territories[t].units == (if s.territories[t].units == MAX_UNITS then MAX_UNITS else s.territories[t].units + 1)
      && (forall u :: 0 <= u < NUM_TERRITORIES && u != t ==> after.territories[u] == s.territories[u])
      && after.current == (if s.current == s.players - 1 then 0 else s.current + 1)
      && after.placements == s.placements + 1
      && (after.placing ==> forall p :: 0 <= p < s.players ==>
            after.reserves[p] == if p == s.current then s.reserves[p] - 1 else s.reserves[p])
      && (!after.placing ==> StartsWith(after, 0, after.reserves[0]))
  {
    PlaceKeepsInv(s, t);
    ReinforcementsCount(Apply(s, InitialPlace(t)), 0);
  }

  // ------------------------------------------------------------------- player moves

  /** Every army lands where it was placed, and the mover's reserve is spent. */
  lemma ReinforcementEffect(s: State, placed: Placement, attack: Option<QueuedAttack>)
    requires Inv(s) && Legal(s, PlayerMove(Some(placed), attack))
    ensures var after := Apply(s, PlayerMove(Some(placed), attack));
      && (forall t :: 0 <= t < NUM_TERRITORIES ==>
            && after.territories[t].owner == s.territories[t].owner
            && after.territories[t].units
               == if s.territories[t].units + placed[t] <= MAX_UNITS then s.territories[t].units + placed[t] else MAX_UNITS)
      && (forall p :: 0 <= p < s.players ==> after.reserves[p] == if p == s.current then 0 else s.reserves[p])
      && (attack.None? ==> after.current == s.current && after.attack.None? && after.firstAttack == s.firstAttack)
  {
  }

  /** The attack waits for the owner of its target, and no more reserves are placed this turn. */
  lemma AttackEffect(s: State, reinforce: Option<Placement>, q: QueuedAttack)
    requires Inv(s) && Legal(s, PlayerMove(reinforce, Some(q)))
    ensures var after := Apply(s, PlayerMove(reinforce, Some(q)));
      && after.attack == Some(q) && after.defense.None? && !after.firstAttack
      && after.current == s.territories[q.target].owner
      && (reinforce.None? ==> after.territories == s.territories && after.reserves == s.reserves)
  {
  }

  /** The defence is noted and the dice are next; nothing else changes. */
  lemma DefenceEffect(s: State, dice: int)
    requires Inv(s) && Legal(s, QueueDefense(dice))
    ensures var after := Apply(s, QueueDefense(dice));
      && after.defense == Some(dice) && after.current == -1 && after.attack == s.attack
      && after.territories == s.territories && after.reserves == s.reserves && after.turns == s.turns
  {
  }

  // -------------------------------------------------------------------------- rolls

  /** Highest first. */
  predicate Falling(xs: seq<int>) {
    forall i, j :: 0 <= i < j < |xs| ==> xs[i] >= xs[j]
  }

  lemma TailOf(xs: seq<int>)
    requires xs != []
    ensures multiset(xs[1..]) == multiset(xs) - multiset{xs[0]}
  {
    assert xs == [xs[0]] + xs[1..];
  }

  lemma SameFirst(xs: seq<int>, ys: seq<int>)
    requires Falling(xs) && Falling(ys) && multiset(xs) == multiset(ys) && xs != [] && ys != []
    ensures xs[0] == ys[0]
  {
    assert xs[0] in multiset(ys) && ys[0] in multiset(xs);
    var i :| 0 <= i < |ys| && ys[i] == xs[0];
    var j :| 0 <= j < |xs| && xs[j] == ys[0];
  }

  lemma {:induction false} FallingIsUnique(xs: seq<int>, ys: seq<int>)
    requires Falling(xs) && Falling(ys) && multiset(xs) == multiset(ys)
    ensures xs == ys
  {
    assert |multiset(xs)| == |xs| && |multiset(ys)| == |ys|;
    if xs != [] {
      SameFirst(xs, ys);
      TailOf(xs);
      TailOf(ys);
      FallingIsUnique(xs[1..], ys[1..]);
      assert xs == [xs[0]] + xs[1..] && ys == [ys[0]] + ys[1..];
    }
  }

  /** The comparisons, among the first `pairs`, in which the attacker's die is higher. */
  function Higher(a: seq<int>, d: seq<int>, pairs: nat): (wins: set<int>)
    requires pairs <= |a| && pairs <= |d|
    ensures forall i :: i in wins <==> 0 <= i < pairs && a[i] > d[i]
  {
    set i | 0 <= i < pairs && a[i] > d[i]
  }

  lemma {:induction false} WinsAreHigher(a: seq<int>, d: seq<int>, pairs: nat)
    requires pairs <= |a| && pairs <= |d|
    ensures AttackerWins(a, d, pairs) == |Higher(a, d, pairs)|
  {
    if pairs > 0 {
      WinsAreHigher(a, d, pairs - 1);
      var before, wins := Higher(a, d, pairs - 1), Higher(a, d, pairs);
      assert wins == if a[pairs - 1] > d[pairs - 1] then before + {pairs - 1} else before;
    }
  }

  /** `a` and `d` are the dice of a roll, highest first. */
  predicate Ordered(a: seq<int>, d: seq<int>, attacker: AttackerDice, defender: DefenderDice) {
    Falling(a) && Falling(d) && multiset(a) == multiset(attacker) && multiset(d) == multiset(defender)
  }

  lemma OrderedIsSorted(a: seq<int>, d: seq<int>, attacker: AttackerDice, defender: DefenderDice)
    requires Ordered(a, d, attacker, defender)
    ensures a == SortDescending(attacker) && d == SortDescending(defender)
  {
    RiskGame.SortDescendingSorts(attacker);
    RiskGame.SortDescendingSorts(defender);
    FallingIsUnique(a, SortDescending(attacker));
    FallingIsUnique(d, SortDescending(defender));
  }

  /** How many armies move into a conquered territory that `left` armies may be spared for. */
  predicate MovesIn(q: QueuedAttack, left: int, moved: int) {
    if q.move <= q.dice then moved == q.dice
    else if q.move <= left then moved == q.move
    else moved == left
  }

  /** The two territories of a battle in which the attacker's side is higher `lost` times out of `pairs`. */
  predicate BattleCosts(q: QueuedAttack, source: Territory, target: Territory, pairs: int, lost: int,
                        sourceAfter: Territory, targetAfter: Territory) {
    && sourceAfter.owner == source.owner
    && (lost < target.units ==>
          && sourceAfter.units == source.units - (pairs - lost)
          && targetAfter.owner == target.owner && targetAfter.units == target.units - lost)
    && (lost == target.units ==>
          && targetAfter.owner == source.owner && MovesIn(q, source.units - 1, targetAfter.units)
          && sourceAfter.units == source.units - targetAfter.units)
  }

  /**
   A roll. With both sides' dice highest first, each compared pair costs the defender an army
   where the attacker's die is higher, and the attacker one where it is not. The territory is
   conquered exactly when its last army falls.
   */
  lemma RollEffect(s: State, attacker: AttackerDice, defender: DefenderDice, a: seq<int>, d: seq<int>)
    requires Inv(s) && Legal(s, RollDice(attacker, defender)) && Ordered(a, d, attacker, defender)
    ensures RollReady(s) && |a| == 3 && |d| == 2
    ensures var q := s.attack.value;
      var pairs := if q.dice < s.defense.value then q.dice else s.defense.value;
      var lost := |set i | 0 <= i < pairs && a[i] > d[i]|;
      var land := Apply(s, RollDice(attacker, defender)).territories;
      && lost <= s.territories[q.target].units
      && BattleCosts(q, s.territories[q.source], s.territories[q.target], pairs, lost, land[q.source], land[q.target])
      && (land[q.target].owner == s.territories[q.source].owner <==> lost == s.territories[q.target].units)
      && (forall t :: 0 <= t < NUM_TERRITORIES && t != q.source && t != q.target ==> land[t] == s.territories[t])
  {
    OrderedIsSorted(a, d, attacker, defender);
    assert |multiset(a)| == |a| && |multiset(d)| == |d|;
    RollOutcome(s, attacker, defender);
    WinsAreHigher(a, d, Comparisons(s));
    assert Higher(a, d, Comparisons(s)) == set i | 0 <= i < Comparisons(s) && a[i] > d[i];
  }

  /** Afterwards it is the attacker's move again, with nothing queued. */
  lemma RollPassesBack(s: State, attacker: AttackerDice, defender: DefenderDice)
    requires Inv(s) && Legal(s, RollDice(attacker, defender))
    ensures RollReady(s)
    ensures var after := Apply(s, RollDice(attacker, defender));
      && after.attack.None? && after.defense.None? && after.current == s.territories[s.attack.value.source].owner
      && after.reserves == s.reserves && after.turns == s.turns && after.firstAttack == s.firstAttack
  {
    RollOutcome(s, attacker, defender);
  }

  /** Equal dice in every pair cost the attacker, and nobody else. */
  lemma TiesCostTheAttacker(s: State, attacker: AttackerDice, defender: DefenderDice, a: seq<int>, d: seq<int>)
    requires Inv(s) && Legal(s, RollDice(attacker, defender)) && Ordered(a, d, attacker, defender)
    requires |a| == 3 && |d| == 2 && forall i :: 0 <= i < s.attack.value.dice && i < s.defense.value ==> a[i] == d[i]
    ensures RollReady(s)
    ensures var q := s.attack.value;
      var land := Apply(s, RollDice(attacker, defender)).territories;
      && land[q.target] == s.territories[q.target]
      && land[q.source].units
         == s.territories[q.source].units - (if q.dice < s.defense.value then q.dice else s.defense.value)
  {
    RollEffect(s, attacker, defender, a, d);
    var pairs := if s.attack.value.dice < s.defense.value then s.attack.value.dice else s.defense.value;
    assert (set i | 0 <= i < pairs && a[i] > d[i]) == {};
  }

  // ---------------------------------------------------------------------- fortifies

  /** The armies of a fortify leave their territory and arrive in the other; nothing else moves. */
  lemma FortifyEffect(s: State, source: int, target: int, units: int)
    requires Inv(s) && Legal(s, Fortify(source, target, units))
    ensures var land := Apply(s, Fortify(source, target, units)).territories;
      && (forall t :: 0 <= t < NUM_TERRITORIES ==> land[t].owner == s.territories[t].owner)
      && (units <= 1 || source == target ==> land == s.territories)
      && (units >= 2 && source != target ==>
            && land[source].units == s.territories[source].units - units
            && land[target].units
               == (if s.territories[target].units + units <= MAX_UNITS then s.territories[target].units + units else MAX_UNITS)
            && forall t :: 0 <= t < NUM_TERRITORIES && t != source && t != target ==> land[t] == s.territories[t])
  {
    var land := Apply(s, Fortify(source, target, units)).territories;
    if units >= 2 && source == target {
      assert land == s.territories;
    }
  }

  /** Unless the target is full, no army is lost on the way. */
  lemma FortifyConserves(s: State, source: int, target: int, units: int)
    requires Inv(s) && Legal(s, Fortify(source, target, units))
    requires units >= 2 && source != target ==> s.territories[target].units + units <= MAX_UNITS
    ensures Armies(Apply(s, Fortify(source, target, units)).territories) == Armies(s.territories)
  {
    FortifyEffect(s, source, target, units);
    if units >= 2 && source != target {
      ArmiesAfterTwo(s.territories, Apply(s, Fortify(source, target, units)).territories, source, target);
    }
  }

  /** Then the next seat with land starts its turn: its share is its reserve, and the others keep theirs. */
  lemma FortifyStartsTurn(s: State, source: int, target: int, units: int)
    requires Inv(s) && Legal(s, Fortify(source, target, units))
    ensures var after := Apply(s, Fortify(source, target, units));
      && 0 <= after.current < s.players && OwnsLand(after.territories, after.current) && after.firstAttack
      && StartsWith(after, after.current, after.reserves[after.current])
      && forall p :: 0 <= p < s.players && p != after.current ==> after.reserves[p] == s.reserves[p]
  {
    FortifyKeepsInv(s, source, target, units);
    ReinforcementsCount(Apply(s, Fortify(source, target, units)), Apply(s, Fortify(source, target, units)).current);
    FortifyMovesOn(s, source, target, units);
  }
}
