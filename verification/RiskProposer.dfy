/**
 The stock proposer: which of a player's legal actions are ever considered. `draws(i)` is
 the i-th random number used; `border` and `favorable` are the two switches. Bit masks of
 territories are sets, walked in ascending order.
 */
module RiskProposer {
  import opened Arithmetic
  import opened Options
  import opened RiskRules
  import opened RiskInvariant
  import opened RiskRuns

  type Draws = nat -> nat

  const WORD: nat := 0x1_0000_0000
  const MOVE_ALL: int := 0x1_0000

  datatype Support = Unknown | Known(count: nat)

  /** A node where a player decides: anything but dice waiting to be rolled. */
  ghost predicate DecisionNode(s: State) {
    Inv(s) && s.current != -1
  }

  predicate Mine(s: State, t: int)
    requires Shape(s)
  {
    OnBoard(t) && s.territories[t].owner == s.current
  }

  predicate ReinforcePending(s: State)
    requires Shape(s)
  {
    !s.placing && s.attack.None? && s.firstAttack && 0 <= s.current < s.players && s.reserves[s.current] > 0
  }

  // ------------------------------------------------------------ initial placement

  function WantedOwner(s: State): int {
    if s.placements >= NUM_TERRITORIES then s.current else -1
  }

  /** The territory with the highest draw so far, scanning on from `i`; the first wins ties. */
  function PlaceScan(s: State, draws: Draws, i: nat, used: nat, best: int, score: nat): int
    requires Shape(s) && i <= NUM_TERRITORIES
    decreases NUM_TERRITORIES - i
  {
    if i == NUM_TERRITORIES then best
    else if s.territories[i].owner == WantedOwner(s) then
      var val := draws(used) % WORD;
      if best < 0 || val > score then PlaceScan(s, draws, i + 1, used + 1, i, val)
      else PlaceScan(s, draws, i + 1, used + 1, best, score)
    else PlaceScan(s, draws, i + 1, used, best, score)
  }

  method SamplePlace(s: State, draws: Draws) returns (territory: int)
    requires Shape(s)
    ensures territory == PlaceScan(s, draws, 0, 0, -1, 0)
    ensures (exists t :: Wanted(s, t)) ==> HighestDraw(s, draws, territory)
  {
    territory := -1;
    var score: nat := 0;
    var used: nat := 0;
    for i := 0 to NUM_TERRITORIES
      invariant PlaceScan(s, draws, 0, 0, -1, 0) == PlaceScan(s, draws, i, used, territory, score)
    {
      if s.territories[i].owner == WantedOwner(s) {
        var val: nat := draws(used) % WORD;
        if territory < 0 || val > score {
          score := val;
          territory := i;
        }
        used := used + 1;
      }
    }
    if t :| Wanted(s, t) {
      HighestDrawWins(s, draws, t);
    }
  }

  /** The draw of a claimable territory: one is drawn for each, in ascending order. */
  function DrawOf(s: State, draws: Draws, t: nat): nat
    requires Shape(s) && t <= NUM_TERRITORIES
  {
    draws(WantedBefore(s, t)) % WORD
  }

  /** Claimable, with a higher draw than all before it and none lower than any after it. */
  ghost predicate HighestDraw(s: State, draws: Draws, r: int)
    requires Shape(s)
  {
    && Wanted(s, r)
    && forall t: nat :: Wanted(s, t) ==>
         DrawOf(s, draws, t) <= DrawOf(s, draws, r) && (t < r ==> DrawOf(s, draws, t) < DrawOf(s, draws, r))
  }

  /** Among the territories before `i`, `best` has the highest draw, `score`; -1 if there are none. */
  ghost predicate BestSoFar(s: State, draws: Draws, i: nat, best: int, score: nat)
    requires Shape(s) && i <= NUM_TERRITORIES
  {
    if best < 0 then best == -1 && forall t: nat :: t < i ==> !Wanted(s, t)
    else
      && best < i && Wanted(s, best) && score == DrawOf(s, draws, best)
      && forall t: nat :: t < i && Wanted(s, t) ==>
           DrawOf(s, draws, t) <= score && (t < best ==> DrawOf(s, draws, t) < score)
  }

  lemma NextBest(s: State, draws: Draws, i: nat, best: int, score: nat, val: nat)
    requires Shape(s) && i < NUM_TERRITORIES && BestSoFar(s, draws, i, best, score) && val == DrawOf(s, draws, i)
    ensures Wanted(s, i) && (best < 0 || val > score) ==> BestSoFar(s, draws, i + 1, i, val)
    ensures !(Wanted(s, i) && (best < 0 || val > score)) ==> BestSoFar(s, draws, i + 1, best, score)
  {
  }

  lemma {:induction false} ScanKeepsBest(s: State, draws: Draws, i: nat, used: nat, best: int, score: nat)
    returns (last: nat)
    requires Shape(s) && i <= NUM_TERRITORIES && used == WantedBefore(s, i) && BestSoFar(s, draws, i, best, score)
    ensures BestSoFar(s, draws, NUM_TERRITORIES, PlaceScan(s, draws, i, used, best, score), last)
    decreases NUM_TERRITORIES - i
  {
    if i == NUM_TERRITORIES {
      last := score;
    } else {
      var val := DrawOf(s, draws, i);
      NextBest(s, draws, i, best, score, val);
      assert Wanted(s, i) <==> s.territories[i].owner == WantedOwner(s);
      if Wanted(s, i) {
        if best < 0 || val > score {
          last := ScanKeepsBest(s, draws, i + 1, used + 1, i, val);
        } else {
          last := ScanKeepsBest(s, draws, i + 1, used + 1, best, score);
        }
      } else {
        last := ScanKeepsBest(s, draws, i + 1, used, best, score);
      }
    }
  }

  /** With anything to claim, the scan takes the highest draw, the first of equal ones. */
  lemma HighestDrawWins(s: State, draws: Draws, t: int)
    requires Shape(s) && Wanted(s, t)
    ensures HighestDraw(s, draws, PlaceScan(s, draws, 0, 0, -1, 0))
  {
    var last := ScanKeepsBest(s, draws, 0, 0, -1, 0);
  }

  predicate Wanted(s: State, t: int)
    requires Shape(s)
  {
    OnBoard(t) && s.territories[t].owner == WantedOwner(s)
  }

  lemma {:induction false} PlaceScanFindsWanted(s: State, draws: Draws, i: nat, used: nat, best: int, score: nat)
    requires Shape(s) && i <= NUM_TERRITORIES
    requires Wanted(s, best) || (best == -1 && exists t :: i <= t && Wanted(s, t))
    ensures Wanted(s, PlaceScan(s, draws, i, used, best, score))
    decreases NUM_TERRITORIES - i
  {
    if i < NUM_TERRITORIES {
      if s.territories[i].owner == WantedOwner(s) {
        var val := draws(used) % WORD;
        assert Wanted(s, i);
        if best < 0 || val > score {
          PlaceScanFindsWanted(s, draws, i + 1, used + 1, i, val);
        } else {
          PlaceScanFindsWanted(s, draws, i + 1, used + 1, best, score);
        }
      } else {
        if best == -1 {
          var t :| i <= t && Wanted(s, t);
          assert t != i;
        }
        PlaceScanFindsWanted(s, draws, i + 1, used, best, score);
      }
    }
  }

  /** Draws that are 1 for the `k`-th candidate and 0 for the others. */
  function Favouring(k: nat): Draws {
    (j: nat) => if j == k then 1 else 0
  }

  function WantedBefore(s: State, t: nat): (n: nat)
    requires Shape(s) && t <= NUM_TERRITORIES
    ensures n <= t
  {
    if t == 0 then 0 else WantedBefore(s, t - 1) + (if Wanted(s, t - 1) then 1 else 0)
  }

  lemma {:induction false} KeepsFavourite(s: State, k: nat, i: nat, used: nat, best: int)
    requires Shape(s) && i <= NUM_TERRITORIES && used > k && best >= 0
    ensures PlaceScan(s, Favouring(k), i, used, best, 1) == best
    decreases NUM_TERRITORIES - i
  {
    if i < NUM_TERRITORIES {
      if s.territories[i].owner == WantedOwner(s) {
        KeepsFavourite(s, k, i + 1, used + 1, best);
      } else {
        KeepsFavourite(s, k, i + 1, used, best);
      }
    }
  }

  lemma {:induction false} FindsFavourite(s: State, t: nat, i: nat, best: int)
    requires Shape(s) && Wanted(s, t) && i <= t
    ensures PlaceScan(s, Favouring(WantedBefore(s, t)), i, WantedBefore(s, i), best, 0) == t
    decreases NUM_TERRITORIES - i
  {
    var k := WantedBefore(s, t);
    var draws := Favouring(k);
    WantedBeforeMonotone(s, i, t);
    if i == t {
      KeepsFavourite(s, k, i + 1, k + 1, t);
    } else if Wanted(s, i) {
      WantedBeforeMonotone(s, i + 1, t);
      assert draws(WantedBefore(s, i)) % WORD == 0;
      if best < 0 {
        FindsFavourite(s, t, i + 1, i);
      } else {
        FindsFavourite(s, t, i + 1, best);
      }
    } else {
      FindsFavourite(s, t, i + 1, best);
    }
  }

  lemma {:induction false} WantedBeforeMonotone(s: State, i: nat, t: nat)
    requires Shape(s) && i <= t <= NUM_TERRITORIES
    ensures WantedBefore(s, i) <= WantedBefore(s, t)
    decreases t
  {
    if i < t {
      WantedBeforeMonotone(s, i, t - 1);
    }
  }

  lemma SomeTerritoryIsWanted(s: State)
    requires Inv(s) && s.placing
    ensures exists t :: 0 <= t && Wanted(s, t)
  {
    if s.placements < NUM_TERRITORIES {
      var t :| t in Owned(s.territories, -1);
      assert Wanted(s, t);
    } else {
      assert OwnsLand(s.territories, s.current);
      var t :| 0 <= t < NUM_TERRITORIES && s.territories[t].owner == s.current;
      assert Wanted(s, t);
    }
  }

  // ------------------------------------------------------------------- candidates

  datatype Edge = Edge(source: nat, target: nat)

  predicate IsCandidate(s: State, source: int, target: int)
    requires Shape(s) && |s.board.neighbors| == NUM_TERRITORIES
  {
    && Mine(s, source) && s.territories[source].units > 1
    && OnBoard(target) && target in s.board.neighbors[source] && !Mine(s, target)
  }

  predicate Outnumbers(s: State, source: nat, target: nat)
    requires Shape(s) && OnBoard(source) && OnBoard(target)
  {
    s.territories[source].units - 1 > s.territories[target].units
  }

  predicate IsOption(s: State, favorable: bool, source: int, target: int)
    requires Shape(s) && |s.board.neighbors| == NUM_TERRITORIES
  {
    IsCandidate(s, source, target) && (favorable ==> Outnumbers(s, source, target))
  }

  /** The targets before `n` of one source, in ascending order. */
  function TargetsOf(s: State, favorable: bool, source: nat, n: nat): (edges: seq<Edge>)
    requires Shape(s) && |s.board.neighbors| == NUM_TERRITORIES && n <= NUM_TERRITORIES
  {
    if n == 0 then []
    else TargetsOf(s, favorable, source, n - 1)
         + (if IsOption(s, favorable, source, n - 1) then [Edge(source, n - 1)] else [])
  }

  /** The attacks to choose from, by source and then by target. */
  function OptionsBefore(s: State, favorable: bool, n: nat): (edges: seq<Edge>)
    requires Shape(s) && |s.board.neighbors| == NUM_TERRITORIES && n <= NUM_TERRITORIES
  {
    if n == 0 then []
    else OptionsBefore(s, favorable, n - 1) + TargetsOf(s, favorable, n - 1, NUM_TERRITORIES)
  }

  function AttackOptions(s: State, favorable: bool): seq<Edge>
    requires Shape(s) && |s.board.neighbors| == NUM_TERRITORIES
  {
    OptionsBefore(s, favorable, NUM_TERRITORIES)
  }

  predicate Ascending(edges: seq<Edge>) {
    forall i, j :: 0 <= i < j < |edges| ==>
      edges[i].source < edges[j].source || (edges[i].source == edges[j].source && edges[i].target < edges[j].target)
  }

  lemma {:induction false} TargetsAreOptions(s: State, favorable: bool, source: nat, n: nat)
    requires Shape(s) && |s.board.neighbors| == NUM_TERRITORIES && n <= NUM_TERRITORIES
    ensures var edges := TargetsOf(s, favorable, source, n);
      && (forall e :: e in edges <==> e.source == source && e.target < n && IsOption(s, favorable, source, e.target))
      && Ascending(edges)
  {
    if n > 0 {
      TargetsAreOptions(s, favorable, source, n - 1);
      var before := TargetsOf(s, favorable, source, n - 1);
      assert forall i :: 0 <= i < |before| ==> before[i] in before;
    }
  }

  predicate Listed(s: State, favorable: bool, n: nat, e: Edge)
    requires Shape(s) && |s.board.neighbors| == NUM_TERRITORIES
  {
    e.source < n && e.target < NUM_TERRITORIES && IsOption(s, favorable, e.source, e.target)
  }

  /** The list holds exactly the options, once each. */
  lemma {:induction false} OptionsAreOptions(s: State, favorable: bool, n: nat)
    requires Shape(s) && |s.board.neighbors| == NUM_TERRITORIES && n <= NUM_TERRITORIES
    ensures forall e :: e in OptionsBefore(s, favorable, n) <==> Listed(s, favorable, n, e)
    ensures Ascending(OptionsBefore(s, favorable, n))
  {
    if n > 0 {
      OptionsAreOptions(s, favorable, n - 1);
      TargetsAreOptions(s, favorable, n - 1, NUM_TERRITORIES);
      var before, more := OptionsBefore(s, favorable, n - 1), TargetsOf(s, favorable, n - 1, NUM_TERRITORIES);
      forall e
        ensures e in before + more <==> Listed(s, favorable, n, e)
      {
        assert e in before + more <==> e in before || e in more;
      }
      AscendingJoin(before, more, n - 1);
    }
  }

  lemma AscendingJoin(before: seq<Edge>, more: seq<Edge>, source: nat)
    requires Ascending(before) && Ascending(more)
    requires forall e :: e in before ==> e.source < source
    requires forall e :: e in more ==> e.source == source
    ensures Ascending(before + more)
  {
    assert forall i :: 0 <= i < |before| ==> before[i] in before;
    assert forall i :: 0 <= i < |more| ==> more[i] in more;
  }

  /** An attack with the most dice, moving everything in on a conquest. */
  function AttackAlong(s: State, e: Edge): (q: QueuedAttack)
    requires Shape(s) && OnBoard(e.source)
  {
    QueuedAttack(e.source, e.target, Min(3, s.territories[e.source].units - 1), MOVE_ALL)
  }

  lemma AttackAlongIsLegal(s: State, e: Edge)
    requires Inv(s) && !s.placing && s.attack.None? && IsCandidate(s, e.source, e.target)
    ensures LegalAttack(s, AttackAlong(s, e))
  {
  }

  /** Collects the attacks the sample may choose from. */
  method CollectOptions(s: State, favorable: bool) returns (edges: seq<Edge>)
    requires Shape(s) && |s.board.neighbors| == NUM_TERRITORIES
    ensures edges == AttackOptions(s, favorable)
  {
    edges := [];
    for source := 0 to NUM_TERRITORIES
      invariant edges == OptionsBefore(s, favorable, source)
    {
      ghost var before := edges;
      for target := 0 to NUM_TERRITORIES
        invariant edges == before + TargetsOf(s, favorable, source, target)
      {
        if IsOption(s, favorable, source, target) {
          edges := edges + [Edge(source, target)];
        }
      }
    }
  }

  // --------------------------------------------------------------------- fortify

  /** Armies on the enemy neighbours of `t`, among territories before `n`. */
  function EnemyUnitsBefore(s: State, t: nat, n: nat): (units: nat)
    requires Shape(s) && |s.board.neighbors| == NUM_TERRITORIES && OnBoard(t) && n <= NUM_TERRITORIES
    ensures units <= n * 0x1_0000
  {
    if n == 0 then 0
    else EnemyUnitsBefore(s, t, n - 1)
         + (if n - 1 in s.board.neighbors[t] && !Mine(s, n - 1) then s.territories[n - 1].units else 0)
  }

  function EnemyUnits(s: State, t: nat): (units: nat)
    requires Shape(s) && |s.board.neighbors| == NUM_TERRITORIES && OnBoard(t)
    ensures units < INT_MAX
  {
    EnemyUnitsBefore(s, t, NUM_TERRITORIES)
  }

  datatype FortifyEnd = FortifyEnd(territory: nat, enemies: int, units: int)

  /** The source sorts below: more enemies around it, or then fewer armies. */
  predicate WorseSource(a: FortifyEnd, b: FortifyEnd) {
    if a.enemies != b.enemies then a.enemies > b.enemies else a.units < b.units
  }

  predicate WorseTarget(a: FortifyEnd, b: FortifyEnd) {
    if a.enemies != b.enemies then a.enemies < b.enemies else b.units < a.units
  }

  function EndAt(s: State, t: nat): FortifyEnd
    requires Shape(s) && |s.board.neighbors| == NUM_TERRITORIES && OnBoard(t)
  {
    FortifyEnd(t, EnemyUnits(s, t), s.territories[t].units)
  }

  function BestSource(s: State, n: nat): FortifyEnd
    requires Shape(s) && |s.board.neighbors| == NUM_TERRITORIES && n <= NUM_TERRITORIES
  {
    if n == 0 then FortifyEnd(0, INT_MAX, -1)
    else
      var best := BestSource(s, n - 1);
      if Mine(s, n - 1) && WorseSource(best, EndAt(s, n - 1)) then EndAt(s, n - 1) else best
  }

  function BestTarget(s: State, n: nat): FortifyEnd
    requires Shape(s) && |s.board.neighbors| == NUM_TERRITORIES && n <= NUM_TERRITORIES
  {
    if n == 0 then FortifyEnd(0, -1, 1000)
    else
      var best := BestTarget(s, n - 1);
      if Mine(s, n - 1) && WorseTarget(best, EndAt(s, n - 1)) then EndAt(s, n - 1) else best
  }

  /** With any land at all, the source is the mover's, and none of its lands is safer. */
  lemma {:induction false} BestSourceIsSafest(s: State, n: nat, t: nat)
    requires Shape(s) && |s.board.neighbors| == NUM_TERRITORIES && t < n <= NUM_TERRITORIES && Mine(s, t)
    ensures var best := BestSource(s, n);
      && best.territory < n && Mine(s, best.territory) && best == EndAt(s, best.territory)
      && !WorseSource(best, EndAt(s, t))
  {
    if t == n - 1 {
      if u :| 0 <= u < n - 1 && Mine(s, u) {
        BestSourceIsSafest(s, n - 1, u);
      } else {
        NoneMineSource(s, n - 1);
      }
    } else {
      BestSourceIsSafest(s, n - 1, t);
    }
  }

  lemma {:induction false} NoneMineSource(s: State, n: nat)
    requires Shape(s) && |s.board.neighbors| == NUM_TERRITORIES && n <= NUM_TERRITORIES
    requires forall u :: 0 <= u < n ==> !Mine(s, u)
    ensures BestSource(s, n) == FortifyEnd(0, INT_MAX, -1) && BestTarget(s, n) == FortifyEnd(0, -1, 1000)
  {
    if n > 0 {
      NoneMineSource(s, n - 1);
    }
  }

  /** The target is the mover's, and none of its lands is under more threat. */
  lemma {:induction false} BestTargetIsMostThreatened(s: State, n: nat, t: nat)
    requires Shape(s) && |s.board.neighbors| == NUM_TERRITORIES && t < n <= NUM_TERRITORIES && Mine(s, t)
    ensures var best := BestTarget(s, n);
      && best.territory < n && Mine(s, best.territory) && best == EndAt(s, best.territory)
      && !WorseTarget(best, EndAt(s, t))
  {
    if t == n - 1 {
      if u :| 0 <= u < n - 1 && Mine(s, u) {
        BestTargetIsMostThreatened(s, n - 1, u);
      } else {
        NoneMineSource(s, n - 1);
      }
    } else {
      BestTargetIsMostThreatened(s, n - 1, t);
    }
  }

  /** From the safest territory to the most threatened, all armies but one. */
  function GreedyFortify(s: State): Action
    requires Shape(s) && |s.board.neighbors| == NUM_TERRITORIES
    requires BestSource(s, NUM_TERRITORIES).territory < NUM_TERRITORIES
  {
    var source := BestSource(s, NUM_TERRITORIES).territory;
    Fortify(source, BestTarget(s, NUM_TERRITORIES).territory, s.territories[source].units - 1)
  }

  lemma {:induction false} SourceOnBoard(s: State, n: nat)
    requires Shape(s) && |s.board.neighbors| == NUM_TERRITORIES && n <= NUM_TERRITORIES
    ensures BestSource(s, n).territory < NUM_TERRITORIES
  {
    if n > 0 {
      SourceOnBoard(s, n - 1);
    }
  }

  lemma GreedyFortifyIsLegal(s: State)
    requires Inv(s) && !s.placing && s.attack.None?
    ensures BestSource(s, NUM_TERRITORIES).territory < NUM_TERRITORIES
    ensures Legal(s, GreedyFortify(s))
  {
    var t :| 0 <= t < NUM_TERRITORIES && s.territories[t].owner == s.current;
    assert Mine(s, t);
    BestSourceIsSafest(s, NUM_TERRITORIES, t);
    BestTargetIsMostThreatened(s, NUM_TERRITORIES, t);
  }

  method SumEnemies(s: State, t: nat) returns (units: nat)
    requires Shape(s) && |s.board.neighbors| == NUM_TERRITORIES && OnBoard(t)
    ensures units == EnemyUnits(s, t)
  {
    units := 0;
    for n := 0 to NUM_TERRITORIES
      invariant units == EnemyUnitsBefore(s, t, n)
    {
      if n in s.board.neighbors[t] && !Mine(s, n) {
        units := units + s.territories[n].units;
      }
    }
  }

  method SampleFortify(s: State) returns (action: Action)
    requires Inv(s) && !s.placing && s.attack.None?
    ensures BestSource(s, NUM_TERRITORIES).territory < NUM_TERRITORIES && action == GreedyFortify(s)
  {
    GreedyFortifyIsLegal(s);
    var source, target := FortifyEnd(0, INT_MAX, -1), FortifyEnd(0, -1, 1000);
    for i := 0 to NUM_TERRITORIES
      invariant source == BestSource(s, i) && target == BestTarget(s, i)
    {
      if Mine(s, i) {
        var enemies := SumEnemies(s, i);
        var end := FortifyEnd(i, enemies, s.territories[i].units);
        if WorseSource(source, end) {
          source := end;
        }
        if WorseTarget(target, end) {
          target := end;
        }
      }
    }
    action := Fortify(source.territory, target.territory, s.territories[source.territory].units - 1);
  }

  // -------------------------------------------------------------- reinforcements

  predicate OnBorder(s: State, t: int)
    requires Shape(s) && |s.board.neighbors| == NUM_TERRITORIES
  {
    Mine(s, t) && exists u :: 0 <= u < NUM_TERRITORIES && u in s.board.neighbors[t] && !Mine(s, u)
  }

  predicate AnyBorder(s: State)
    requires Shape(s) && |s.board.neighbors| == NUM_TERRITORIES
  {
    exists t :: 0 <= t < NUM_TERRITORIES && OnBorder(s, t)
  }

  /** Where reserves may land: the border if that is asked for and there is one. */
  predicate Receives(s: State, border: bool, t: int)
    requires Shape(s) && |s.board.neighbors| == NUM_TERRITORIES
  {
    if border && AnyBorder(s) then OnBorder(s, t) else Mine(s, t)
  }

  /** The mover's territories before `n`, ascending. */
  function OwnedBefore(s: State, n: nat): (ts: seq<nat>)
    requires Shape(s) && n <= NUM_TERRITORIES
    ensures forall t: nat :: t in ts <==> t < n && Mine(s, t)
  {
    if n == 0 then [] else OwnedBefore(s, n - 1) + (if Mine(s, n - 1) then [n - 1] else [])
  }

  /** Those of the listed territories that are on the border, in the same order. */
  function BorderOf(s: State, ts: seq<nat>): (edge: seq<nat>)
    requires Shape(s) && |s.board.neighbors| == NUM_TERRITORIES
    ensures forall t: nat :: t in edge <==> t in ts && OnBorder(s, t)
  {
    if ts == [] then []
    else
      var n := |ts| - 1;
      assert ts == ts[..n] + [ts[n]];
      BorderOf(s, ts[..n]) + (if OnBorder(s, ts[n]) then [ts[n]] else [])
  }

  /** The territories reserves are scattered over, in ascending order. */
  function Receivers(s: State, border: bool): seq<nat>
    requires Shape(s) && |s.board.neighbors| == NUM_TERRITORIES
  {
    var owned := OwnedBefore(s, NUM_TERRITORIES);
    if border && BorderOf(s, owned) != [] then BorderOf(s, owned) else owned
  }

  /** There is somewhere to place, and it is where reserves may land. */
  lemma ReceiversReceive(s: State, border: bool)
    requires Inv(s) && ReinforcePending(s)
    ensures Receivers(s, border) != []
    ensures forall t: nat :: t in Receivers(s, border) <==> Receives(s, border, t)
  {
    var owned := OwnedBefore(s, NUM_TERRITORIES);
    var t :| 0 <= t < NUM_TERRITORIES && s.territories[t].owner == s.current;
    assert t in owned;
    var edge := BorderOf(s, owned);
    if edge != [] {
      assert edge[0] in edge && OnBorder(s, edge[0]);
    } else {
      assert forall t: nat :: t !in edge;
    }
  }

  method CollectBorder(s: State, owned: seq<nat>) returns (edge: seq<nat>)
    requires Inv(s)
    ensures edge == BorderOf(s, owned)
  {
    edge := [];
    for i := 0 to |owned|
      invariant edge == BorderOf(s, owned[..i])
    {
      assert owned[..i + 1][..i] == owned[..i];
      if OnBorder(s, owned[i]) {
        edge := edge + [owned[i]];
      }
    }
    assert owned[..|owned|] == owned;
  }

  method CollectReceivers(s: State, border: bool) returns (receivers: seq<nat>)
    requires Inv(s) && ReinforcePending(s)
    ensures receivers == Receivers(s, border)
  {
    receivers := [];
    for i := 0 to NUM_TERRITORIES
      invariant receivers == OwnedBefore(s, i)
    {
      if Mine(s, i) {
        receivers := receivers + [i];
      }
    }
    if border {
      var edge := CollectBorder(s, receivers);
      if |edge| > 0 {
        return edge;
      }
    }
  }

  lemma {:induction false} SumZeros(n: nat)
    ensures Sum(seq(n, i => 0)) == 0
  {
    if n > 0 {
      SumZeros(n - 1);
      assert seq(n, i => 0)[..n - 1] == seq(n - 1, i => 0);
    }
  }

  /** How many of the first `n` armies land on territory `t`, each on the receiver of its own draw. */
  function Landed(receivers: seq<nat>, draws: Draws, n: nat, t: nat): (count: nat)
    requires receivers != []
    ensures count <= n
  {
    if n == 0 then 0
    else Landed(receivers, draws, n - 1, t) + (if receivers[draws(n - 1) % |receivers|] == t then 1 else 0)
  }

  /** The reinforcement that the draws make of `n` armies. */
  function Scattered(receivers: seq<nat>, draws: Draws, n: nat): (placed: Placement)
    requires receivers != [] && n <= MAX_UNITS
  {
    seq(NUM_TERRITORIES, t requires 0 <= t => Landed(receivers, draws, n, t))
  }

  /** Every army lands, and only on receivers. */
  lemma {:induction false} ScatteredLands(receivers: seq<nat>, draws: Draws, n: nat)
    requires receivers != [] && n <= MAX_UNITS && forall t :: t in receivers ==> t < NUM_TERRITORIES
    ensures Sum(Scattered(receivers, draws, n)) == n
    ensures forall t :: 0 <= t < NUM_TERRITORIES && Scattered(receivers, draws, n)[t] > 0 ==> t in receivers
  {
    if n == 0 {
      SumZeros(NUM_TERRITORIES);
      assert Scattered(receivers, draws, 0) == seq(NUM_TERRITORIES, i => 0);
    } else {
      var t := receivers[draws(n - 1) % |receivers|];
      assert t in receivers;
      var before := Scattered(receivers, draws, n - 1);
      ScatteredLands(receivers, draws, n - 1);
      SumUpdate(before, t, before[t] + 1);
      assert Scattered(receivers, draws, n) == before[t := before[t] + 1];
    }
  }

  /** Each reserve army lands on a receiver of its own draw. */
  method Scatter(s: State, border: bool, draws: Draws) returns (placed: Placement)
    requires Inv(s) && ReinforcePending(s)
    ensures Receivers(s, border) != []
    ensures placed == Scattered(Receivers(s, border), draws, s.reserves[s.current])
    ensures Sum(placed) == s.reserves[s.current]
    ensures forall t :: 0 <= t < NUM_TERRITORIES && placed[t] > 0 ==> Receives(s, border, t)
  {
    var receivers := CollectReceivers(s, border);
    ReceiversReceive(s, border);
    placed := seq(NUM_TERRITORIES, i => 0);
    for i := 0 to s.reserves[s.current]
      invariant placed == Scattered(receivers, draws, i)
    {
      var t := receivers[draws(i) % |receivers|];
      assert t in receivers;
      placed := placed[t := placed[t] + 1];
    }
    ScatteredLands(receivers, draws, s.reserves[s.current]);
  }

  // ---------------------------------------------------------------------- sample

  /** What is sampled where the choices can be counted. */
  function Choice(s: State, favorable: bool, draws: Draws): Action
    requires Shape(s) && |s.board.neighbors| == NUM_TERRITORIES && !ReinforcePending(s)
    requires s.attack.Some? ==> OnBoard(s.attack.value.target)
    requires BestSource(s, NUM_TERRITORIES).territory < NUM_TERRITORIES
  {
    if s.placing then InitialPlace(PlaceScan(s, draws, 0, 0, -1, 0))
    else if s.attack.Some? then QueueDefense(Min(2, s.territories[s.attack.value.target].units))
    else TurnChoice(s, favorable, draws(0) % (|AttackOptions(s, favorable)| + 1))
  }

  function TurnChoice(s: State, favorable: bool, pick: nat): Action
    requires Shape(s) && |s.board.neighbors| == NUM_TERRITORIES
    requires BestSource(s, NUM_TERRITORIES).territory < NUM_TERRITORIES
  {
    var edges := AttackOptions(s, favorable);
    if pick < |edges| && edges[pick].source < NUM_TERRITORIES then PlayerMove(None, Some(AttackAlong(s, edges[pick])))
    else GreedyFortify(s)
  }

  /** The attacks that may ride on a reinforcement: favourable ones only, if asked for and there are any. */
  function RidingOptions(s: State, favorable: bool): seq<Edge>
    requires Shape(s) && |s.board.neighbors| == NUM_TERRITORIES
  {
    if favorable && AttackOptions(s, true) != [] then AttackOptions(s, true) else AttackOptions(s, false)
  }

  /** The attack that one draw picks. */
  function RidingAttack(s: State, favorable: bool, draw: nat): Option<QueuedAttack>
    requires Shape(s) && |s.board.neighbors| == NUM_TERRITORIES
  {
    var edges := RidingOptions(s, favorable);
    if edges == [] then None
    else
      var e := edges[draw % |edges|];
      if e.source < NUM_TERRITORIES then Some(AttackAlong(s, e)) else None
  }

  method ReinforcedAttack(s: State, favorable: bool, draw: nat) returns (attack: Option<QueuedAttack>)
    requires Inv(s) && ReinforcePending(s)
    ensures attack == RidingAttack(s, favorable, draw)
    ensures attack.None? <==> AttackOptions(s, false) == []
    ensures attack.Some? ==> LegalAttack(s, attack.value)
  {
    FavouritesAreOptions(s);
    var edges := CollectOptions(s, false);
    if edges == [] {
      return None;
    }
    OptionsAreOptions(s, false, NUM_TERRITORIES);
    OptionsAreOptions(s, true, NUM_TERRITORIES);
    if favorable {
      var better := CollectOptions(s, true);
      if better != [] {
        edges := better;
      }
    }
    var e := edges[draw % |edges|];
    assert e in edges;
    AttackAlongIsLegal(s, e);
    attack := Some(AttackAlong(s, e));
  }

  lemma FavouritesAreOptions(s: State)
    requires Shape(s) && |s.board.neighbors| == NUM_TERRITORIES
    ensures AttackOptions(s, true) != [] ==> AttackOptions(s, false) != []
  {
    OptionsAreOptions(s, false, NUM_TERRITORIES);
    OptionsAreOptions(s, true, NUM_TERRITORIES);
    if AttackOptions(s, true) != [] {
      var e := AttackOptions(s, true)[0];
      assert e in AttackOptions(s, true);
      assert Listed(s, true, NUM_TERRITORIES, e) && Listed(s, false, NUM_TERRITORIES, e);
    }
  }

  /** The turn after its reinforcements: an attack from the list, or the fortify that ends it. */
  method SampleTurn(s: State, favorable: bool, draw: nat) returns (action: Action)
    requires Inv(s) && !s.placing && s.attack.None?
    requires BestSource(s, NUM_TERRITORIES).territory < NUM_TERRITORIES
    ensures Legal(s, action)
    ensures action == TurnChoice(s, favorable, draw % (|AttackOptions(s, favorable)| + 1))
  {
    var edges := CollectOptions(s, favorable);
    OptionsAreOptions(s, favorable, NUM_TERRITORIES);
    var pick := draw % (|edges| + 1);
    if pick < |edges| {
      assert edges[pick] in edges;
      AttackAlongIsLegal(s, edges[pick]);
      return PlayerMove(None, Some(AttackAlong(s, edges[pick])));
    }
    GreedyFortifyIsLegal(s);
    action := SampleFortify(s);
  }

  /** All reserves, each by its own draw, and an attack by the draw after them whenever there is one to make. */
  ghost function ReinforcedChoice(s: State, border: bool, favorable: bool, draws: Draws): Action
    requires Inv(s) && ReinforcePending(s)
  {
    ReceiversReceive(s, border);
    var n := s.reserves[s.current];
    PlayerMove(Some(Scattered(Receivers(s, border), draws, n)), RidingAttack(s, favorable, draws(n)))
  }

  method SampleReinforced(s: State, border: bool, favorable: bool, draws: Draws) returns (action: Action)
    requires Inv(s) && ReinforcePending(s)
    ensures Legal(s, action) && action == ReinforcedChoice(s, border, favorable, draws)
  {
    var placed := Scatter(s, border, draws);
    var attack := ReinforcedAttack(s, favorable, draws(s.reserves[s.current]));
    assert LegalReinforce(s, placed);
    action := PlayerMove(Some(placed), attack);
  }

  /** What the draws make of a decision node. */
  ghost function Sampled(s: State, border: bool, favorable: bool, draws: Draws): Action
    requires DecisionNode(s)
  {
    SourceOnBoard(s, NUM_TERRITORIES);
    if ReinforcePending(s) then ReinforcedChoice(s, border, favorable, draws) else Choice(s, favorable, draws)
  }

  lemma ReinforcedIsLegal(s: State, border: bool, favorable: bool, draws: Draws)
    requires Inv(s) && ReinforcePending(s)
    ensures Legal(s, ReinforcedChoice(s, border, favorable, draws))
  {
    var n := s.reserves[s.current];
    ReceiversReceive(s, border);
    ScatteredLands(Receivers(s, border), draws, n);
    assert LegalReinforce(s, Scattered(Receivers(s, border), draws, n));
    RidingIsLegal(s, favorable, draws(n));
  }

  lemma RidingIsLegal(s: State, favorable: bool, draw: nat)
    requires Inv(s) && ReinforcePending(s)
    ensures RidingAttack(s, favorable, draw).Some? ==> LegalAttack(s, RidingAttack(s, favorable, draw).value)
  {
    var edges := RidingOptions(s, favorable);
    if edges != [] {
      OptionsAreOptions(s, false, NUM_TERRITORIES);
      OptionsAreOptions(s, true, NUM_TERRITORIES);
      assert edges[draw % |edges|] in edges;
      AttackAlongIsLegal(s, edges[draw % |edges|]);
    }
  }

  lemma TurnChoiceIsLegal(s: State, favorable: bool, pick: nat)
    requires Inv(s) && !s.placing && s.attack.None?
    requires BestSource(s, NUM_TERRITORIES).territory < NUM_TERRITORIES
    ensures Legal(s, TurnChoice(s, favorable, pick))
  {
    var edges := AttackOptions(s, favorable);
    OptionsAreOptions(s, favorable, NUM_TERRITORIES);
    if pick < |edges| {
      assert edges[pick] in edges;
      AttackAlongIsLegal(s, edges[pick]);
    } else {
      GreedyFortifyIsLegal(s);
    }
  }

  /** Whatever is drawn, what comes of it is legal. */
  lemma SampledIsLegal(s: State, border: bool, favorable: bool, draws: Draws)
    requires DecisionNode(s)
    ensures Legal(s, Sampled(s, border, favorable, draws))
  {
    SourceOnBoard(s, NUM_TERRITORIES);
    if s.placing {
      SomeTerritoryIsWanted(s);
      PlaceScanFindsWanted(s, draws, 0, 0, -1, 0);
    } else if s.attack.None? {
      if ReinforcePending(s) {
        ReinforcedIsLegal(s, border, favorable, draws);
      } else {
        TurnChoiceIsLegal(s, favorable, draws(0) % (|AttackOptions(s, favorable)| + 1));
      }
    }
  }

  /** One draw of the proposer: at every decision node, with either switch, a legal action. */
  method Sample(s: State, border: bool, favorable: bool, draws: Draws) returns (action: Action)
    requires DecisionNode(s)
    ensures Legal(s, action) && action == Sampled(s, border, favorable, draws)
  {
    SourceOnBoard(s, NUM_TERRITORIES);
    if s.placing {
      SomeTerritoryIsWanted(s);
      var t := SamplePlace(s, draws);
      return InitialPlace(t);
    }
    if s.attack.Some? {
      return QueueDefense(Min(2, s.territories[s.attack.value.target].units));
    }
    if s.firstAttack && s.reserves[s.current] > 0 {
      action := SampleReinforced(s, border, favorable, draws);
    } else {
      action := SampleTurn(s, favorable, draws(0));
    }
  }

  // --------------------------------------------------------------------- support

  function PlacesBefore(s: State, n: nat): (actions: seq<Action>)
    requires Shape(s) && n <= NUM_TERRITORIES
    ensures |actions| == WantedBefore(s, n)
  {
    if n == 0 then []
    else PlacesBefore(s, n - 1) + (if Wanted(s, n - 1) then [InitialPlace(n - 1)] else [])
  }

  /** The actions that can be sampled, where they can be counted. */
  function SupportList(s: State, favorable: bool): (actions: seq<Action>)
    requires Shape(s) && |s.board.neighbors| == NUM_TERRITORIES && !ReinforcePending(s)
    requires s.attack.Some? ==> OnBoard(s.attack.value.target)
    requires BestSource(s, NUM_TERRITORIES).territory < NUM_TERRITORIES
  {
    if s.placing then PlacesBefore(s, NUM_TERRITORIES)
    else if s.attack.Some? then [QueueDefense(Min(2, s.territories[s.attack.value.target].units))]
    else seq(|AttackOptions(s, favorable)| + 1, pick requires 0 <= pick => TurnChoice(s, favorable, pick))
  }

  lemma {:induction false} PlacesAreWanted(s: State, n: nat)
    requires Shape(s) && n <= NUM_TERRITORIES
    ensures var actions := PlacesBefore(s, n);
      && (forall a: Action :: a in actions <==> a.InitialPlace? && a.territory < n && Wanted(s, a.territory))
      && (forall i, j :: 0 <= i < j < |actions| ==>
            actions[i].InitialPlace? && actions[j].InitialPlace? && actions[i].territory < actions[j].territory)
  {
    if n > 0 {
      PlacesAreWanted(s, n - 1);
      var before := PlacesBefore(s, n - 1);
      assert forall i :: 0 <= i < |before| ==> before[i] in before;
    }
  }

  predicate Distinct(actions: seq<Action>) {
    forall i, j :: 0 <= i < j < |actions| ==> actions[i] != actions[j]
  }

  lemma TurnChoicesDistinct(s: State, favorable: bool)
    requires Inv(s) && !s.placing && s.attack.None? && !ReinforcePending(s)
    requires BestSource(s, NUM_TERRITORIES).territory < NUM_TERRITORIES
    ensures Distinct(SupportList(s, favorable))
  {
    OptionsAreOptions(s, favorable, NUM_TERRITORIES);
    var edges := AttackOptions(s, favorable);
    var list := SupportList(s, favorable);
    forall i, j | 0 <= i < j < |list|
      ensures list[i] != list[j]
    {
      assert edges[i] in edges;
      assert list[i] == PlayerMove(None, Some(AttackAlong(s, edges[i])));
      if j < |edges| {
        assert edges[j] in edges;
        assert list[j] == PlayerMove(None, Some(AttackAlong(s, edges[j])));
      }
    }
  }

  /** No action is listed twice. */
  lemma SupportIsDistinct(s: State, favorable: bool)
    requires DecisionNode(s) && !ReinforcePending(s)
    requires BestSource(s, NUM_TERRITORIES).territory < NUM_TERRITORIES
    ensures Distinct(SupportList(s, favorable))
  {
    if s.placing {
      PlacesAreWanted(s, NUM_TERRITORIES);
      assert Distinct(PlacesBefore(s, NUM_TERRITORIES));
    } else if s.attack.None? {
      TurnChoicesDistinct(s, favorable);
    }
  }

  /** An action is sampled for some draws exactly when it is on the list. */
  lemma SupportIsExact(s: State, favorable: bool, action: Action)
    requires DecisionNode(s) && !ReinforcePending(s)
    requires BestSource(s, NUM_TERRITORIES).territory < NUM_TERRITORIES
    ensures action in SupportList(s, favorable) <==> exists draws: Draws :: Choice(s, favorable, draws) == action
  {
    var list := SupportList(s, favorable);
    if draws: Draws :| Choice(s, favorable, draws) == action {
      ChoiceIsListed(s, favorable, draws);
    }
    if action in list {
      var draws := DrawsFor(s, favorable, action);
      assert Choice(s, favorable, draws) == action;
    }
  }

  lemma ChoiceIsListed(s: State, favorable: bool, draws: Draws)
    requires DecisionNode(s) && !ReinforcePending(s)
    requires BestSource(s, NUM_TERRITORIES).territory < NUM_TERRITORIES
    ensures Choice(s, favorable, draws) in SupportList(s, favorable)
  {
    if s.placing {
      SomeTerritoryIsWanted(s);
      PlaceScanFindsWanted(s, draws, 0, 0, -1, 0);
      PlacesAreWanted(s, NUM_TERRITORIES);
    } else if s.attack.None? {
      var list := SupportList(s, favorable);
      var pick := draws(0) % (|AttackOptions(s, favorable)| + 1);
      assert list[pick] == TurnChoice(s, favorable, pick);
    }
  }

  lemma PlaceDraws(s: State, favorable: bool, action: Action) returns (draws: Draws)
    requires DecisionNode(s) && s.placing
    requires BestSource(s, NUM_TERRITORIES).territory < NUM_TERRITORIES
    requires action in PlacesBefore(s, NUM_TERRITORIES)
    ensures Choice(s, favorable, draws) == action
  {
    PlacesAreWanted(s, NUM_TERRITORIES);
    FindsFavourite(s, action.territory, 0, -1);
    draws := Favouring(WantedBefore(s, action.territory));
  }

  lemma TurnDraws(s: State, favorable: bool, pick: nat) returns (draws: Draws)
    requires DecisionNode(s) && !ReinforcePending(s) && !s.placing && s.attack.None?
    requires BestSource(s, NUM_TERRITORIES).territory < NUM_TERRITORIES
    requires pick <= |AttackOptions(s, favorable)|
    ensures Choice(s, favorable, draws) == TurnChoice(s, favorable, pick)
  {
    draws := (j: nat) => pick;
    assert draws(0) % (|AttackOptions(s, favorable)| + 1) == pick;
  }

  lemma DrawsFor(s: State, favorable: bool, action: Action) returns (draws: Draws)
    requires DecisionNode(s) && !ReinforcePending(s)
    requires BestSource(s, NUM_TERRITORIES).territory < NUM_TERRITORIES
    requires action in SupportList(s, favorable)
    ensures Choice(s, favorable, draws) == action
  {
    if s.placing {
      draws := PlaceDraws(s, favorable, action);
    } else if s.attack.Some? {
      draws := (j: nat) => 0;
    } else {
      var pick: nat :| pick < |SupportList(s, favorable)| && SupportList(s, favorable)[pick] == action;
      draws := TurnDraws(s, favorable, pick);
    }
  }

  method CountOptions(s: State, favorable: bool) returns (count: nat)
    requires Shape(s) && |s.board.neighbors| == NUM_TERRITORIES
    ensures count == |AttackOptions(s, favorable)|
  {
    count := 0;
    for source := 0 to NUM_TERRITORIES
      invariant count == |OptionsBefore(s, favorable, source)|
    {
      ghost var before := count;
      for target := 0 to NUM_TERRITORIES
        invariant count == before + |TargetsOf(s, favorable, source, target)|
      {
        if IsOption(s, favorable, source, target) {
          count := count + 1;
        }
      }
    }
  }

  /** How many distinct actions can be sampled, unless reserves have to be scattered. */
  method SupportSize(s: State, favorable: bool) returns (support: Support)
    requires DecisionNode(s)
    ensures support.Unknown? <==> ReinforcePending(s)
    ensures BestSource(s, NUM_TERRITORIES).territory < NUM_TERRITORIES
    ensures support.Known? ==> support.count == |SupportList(s, favorable)|
  {
    SourceOnBoard(s, NUM_TERRITORIES);
    if s.placing {
      var count := 0;
      for i := 0 to NUM_TERRITORIES
        invariant count == WantedBefore(s, i)
      {
        if s.territories[i].owner == WantedOwner(s) {
          count := count + 1;
        }
      }
      return Known(count);
    }
    if s.attack.Some? {
      return Known(1);
    }
    if s.firstAttack && s.reserves[s.current] > 0 {
      return Unknown;
    }
    var count := CountOptions(s, favorable);
    support := Known(count + 1);
  }
}
