/**
 What the stock proposer proposes, told by the board and the draws: which attack, with how many
 dice, which fortify, and where each army of the reserve goes.
 */
module ProposerEffects {
  import opened Arithmetic
  import opened Options
  import opened RiskRules
  import opened RiskInvariant
  import opened RiskRuns
  import opened RiskProposer

  function Members<T(!new)>(ts: seq<T>): (members: set<T>)
    ensures forall x :: x in members <==> x in ts
  {
    set x | x in ts
  }

  lemma {:induction false} DistinctCount<T(!new)>(ts: seq<T>)
    requires forall i, j :: 0 <= i < j < |ts| ==> ts[i] != ts[j]
    ensures |Members(ts)| == |ts|
  {
    if ts != [] {
      var n := |ts| - 1;
      DistinctCount(ts[..n]);
      assert Members(ts) == Members(ts[..n]) + {ts[n]};
    }
  }

  // ---------------------------------------------------------------------- attacks

  /** From a territory of the mover's with armies to spare, on a neighbour that is not; outnumbered, if that is asked for. */
  predicate MayAttack(s: State, favorable: bool, source: nat, target: nat)
    requires Shape(s) && |s.board.neighbors| == NUM_TERRITORIES && source < NUM_TERRITORIES && target < NUM_TERRITORIES
  {
    var from, to := s.territories[source], s.territories[target];
    && from.owner == s.current && from.units > 1
    && target in s.board.neighbors[source] && to.owner != s.current
    && (favorable ==> from.units - 1 > to.units)
  }

  function Attacks(s: State, favorable: bool): set<(nat, nat)>
    requires Shape(s) && |s.board.neighbors| == NUM_TERRITORIES
  {
    set a: nat, b: nat | a < NUM_TERRITORIES && b < NUM_TERRITORIES && MayAttack(s, favorable, a, b) :: (a, b)
  }

  predicate Earlier(a: (nat, nat), b: (nat, nat)) {
    a.0 < b.0 || (a.0 == b.0 && a.1 < b.1)
  }

  /** Attack number `k` of those there are, by source and then by target. */
  predicate IsNumber(attacks: set<(nat, nat)>, k: nat, attack: (nat, nat)) {
    attack in attacks && k == |set a | a in attacks && Earlier(a, attack)|
  }

  /** Attack number `k`, with as many dice as the source has armies to spare, three at most, and all armies moving in. */
  predicate IsAttack(s: State, favorable: bool, k: nat, q: QueuedAttack)
    requires Shape(s) && |s.board.neighbors| == NUM_TERRITORIES
  {
    && 0 <= q.source < NUM_TERRITORIES && 0 <= q.target && IsNumber(Attacks(s, favorable), k, (q.source, q.target))
    && (if s.territories[q.source].units > 3 then q.dice == 3 else q.dice == s.territories[q.source].units - 1)
    && q.move == 65536
  }

  function Pair(e: Edge): (nat, nat) {
    (e.source, e.target)
  }

  function Pairs(edges: seq<Edge>): (pairs: seq<(nat, nat)>)
    ensures |pairs| == |edges| && forall i :: 0 <= i < |edges| ==> pairs[i] == Pair(edges[i])
  {
    seq(|edges|, i requires 0 <= i < |edges| => Pair(edges[i]))
  }

  lemma InOrderIsDistinct(edges: seq<Edge>)
    requires Ascending(edges)
    ensures forall i, j :: 0 <= i < j < |edges| ==> Earlier(Pairs(edges)[i], Pairs(edges)[j])
    ensures forall i, j :: 0 <= i < j < |edges| ==> Pairs(edges)[i] != Pairs(edges)[j]
  {
  }

  lemma OptionsAreAttacks(s: State, favorable: bool, a: (nat, nat))
    requires Shape(s) && |s.board.neighbors| == NUM_TERRITORIES
    ensures a in Attacks(s, favorable) <==> a in Pairs(AttackOptions(s, favorable))
  {
    var edges := AttackOptions(s, favorable);
    OptionsAreOptions(s, favorable, NUM_TERRITORIES);
    var e := Edge(a.0, a.1);
    if a in Attacks(s, favorable) {
      assert Listed(s, favorable, NUM_TERRITORIES, e);
      assert e in edges;
      var i :| 0 <= i < |edges| && edges[i] == e;
      assert Pairs(edges)[i] == a;
    }
    if a in Pairs(edges) {
      var i :| 0 <= i < |edges| && Pairs(edges)[i] == a;
      assert edges[i] in edges;
      assert Listed(s, favorable, NUM_TERRITORIES, edges[i]);
    }
  }

  /** The list of options numbers the attacks. */
  lemma OptionsAreNumbered(s: State, favorable: bool)
    requires Shape(s) && |s.board.neighbors| == NUM_TERRITORIES
    ensures |AttackOptions(s, favorable)| == |Attacks(s, favorable)|
    ensures forall k :: 0 <= k < |AttackOptions(s, favorable)| ==>
      IsNumber(Attacks(s, favorable), k, Pair(AttackOptions(s, favorable)[k]))
  {
    var edges, attacks := AttackOptions(s, favorable), Attacks(s, favorable);
    var pairs := Pairs(edges);
    OptionsAreOptions(s, favorable, NUM_TERRITORIES);
    InOrderIsDistinct(edges);
    DistinctCount(pairs);
    forall a: (nat, nat)
      ensures a in attacks <==> a in pairs
    {
      OptionsAreAttacks(s, favorable, a);
    }
    assert attacks == Members(pairs);
    forall k | 0 <= k < |edges|
      ensures IsNumber(attacks, k, Pair(edges[k]))
    {
      Numbered(attacks, pairs, k);
    }
  }

  lemma Numbered(attacks: set<(nat, nat)>, pairs: seq<(nat, nat)>, k: nat)
    requires k < |pairs| && attacks == Members(pairs)
    requires forall i, j :: 0 <= i < j < |pairs| ==> Earlier(pairs[i], pairs[j])
    ensures IsNumber(attacks, k, pairs[k])
  {
    DistinctCount(pairs[..k]);
    var before := set a | a in attacks && Earlier(a, pairs[k]);
    forall a: (nat, nat)
      ensures a in before <==> a in pairs[..k]
    {
      if a in before {
        var i :| 0 <= i < |pairs| && pairs[i] == a;
        assert i < k;
        assert pairs[..k][i] == a;
      }
    }
    assert before == Members(pairs[..k]);
  }

  lemma AttackAlongIsAttack(s: State, favorable: bool, k: nat)
    requires Shape(s) && |s.board.neighbors| == NUM_TERRITORIES && k < |AttackOptions(s, favorable)|
    ensures AttackOptions(s, favorable)[k].source < NUM_TERRITORIES
    ensures IsAttack(s, favorable, k, AttackAlong(s, AttackOptions(s, favorable)[k]))
  {
    var edges := AttackOptions(s, favorable);
    OptionsAreNumbered(s, favorable);
    assert IsNumber(Attacks(s, favorable), k, Pair(edges[k]));
  }

  // ---------------------------------------------------------------------- fortify

  /** Territory by territory, the armies that border on `t` and are not the mover's. */
  function Threats(s: State, t: nat): (armies: seq<int>)
    requires Shape(s) && |s.board.neighbors| == NUM_TERRITORIES && t < NUM_TERRITORIES
    ensures |armies| == NUM_TERRITORIES
  {
    seq(NUM_TERRITORIES, u requires 0 <= u < NUM_TERRITORIES =>
      if u in s.board.neighbors[t] && s.territories[u].owner != s.current then s.territories[u].units else 0)
  }

  /** Territory `t` would not be a better source, nor a better target. */
  predicate NoBetterEnds(s: State, source: nat, target: nat, t: nat)
    requires Shape(s) && |s.board.neighbors| == NUM_TERRITORIES
    requires source < NUM_TERRITORIES && target < NUM_TERRITORIES && t < NUM_TERRITORIES
  {
    var threat, least, most := Sum(Threats(s, t)), Sum(Threats(s, source)), Sum(Threats(s, target));
    var units, leaving, held := s.territories[t].units, s.territories[source].units, s.territories[target].units;
    && least <= threat <= most
    && (threat == least ==> units <= leaving && (t < source ==> units < leaving))
    && (threat == most ==> units >= held && (t < target ==> units > held))
  }

  /**
   All armies but one, from the mover's territory with the fewest enemies next to it (of several the
   first with the most armies) to the one with the most (of several the first with the fewest armies).
   */
  predicate IsGreedy(s: State, source: nat, target: nat, units: int)
    requires Shape(s) && |s.board.neighbors| == NUM_TERRITORIES && source < NUM_TERRITORIES && target < NUM_TERRITORIES
  {
    && s.territories[source].owner == s.current && s.territories[target].owner == s.current
    && units == s.territories[source].units - 1
    && forall t: nat :: t < NUM_TERRITORIES && s.territories[t].owner == s.current ==> NoBetterEnds(s, source, target, t)
  }

  lemma {:induction false} ThreatsAddUp(s: State, t: nat, n: nat)
    requires Shape(s) && |s.board.neighbors| == NUM_TERRITORIES && t < NUM_TERRITORIES && n <= NUM_TERRITORIES
    ensures EnemyUnitsBefore(s, t, n) == Sum(Threats(s, t)[..n])
  {
    if n > 0 {
      ThreatsAddUp(s, t, n - 1);
      assert Threats(s, t)[..n][..n - 1] == Threats(s, t)[..n - 1];
    }
  }

  lemma EnemiesAreThreats(s: State, t: nat)
    requires Shape(s) && |s.board.neighbors| == NUM_TERRITORIES && t < NUM_TERRITORIES
    ensures EndAt(s, t) == FortifyEnd(t, Sum(Threats(s, t)), s.territories[t].units)
  {
    ThreatsAddUp(s, t, NUM_TERRITORIES);
    assert Threats(s, t)[..NUM_TERRITORIES] == Threats(s, t);
  }

  /** The scans take the first of equal ends. */
  lemma {:induction false} EndsComeFirst(s: State, n: nat, t: nat)
    requires Shape(s) && |s.board.neighbors| == NUM_TERRITORIES && t < n <= NUM_TERRITORIES && Mine(s, t)
    ensures t < BestSource(s, n).territory ==> WorseSource(EndAt(s, t), BestSource(s, n))
    ensures t < BestTarget(s, n).territory ==> WorseTarget(EndAt(s, t), BestTarget(s, n))
  {
    if t < n - 1 {
      EndsComeFirst(s, n - 1, t);
      BestSourceIsSafest(s, n - 1, t);
      BestTargetIsMostThreatened(s, n - 1, t);
    } else {
      BestSourceIsSafest(s, n, t);
      BestTargetIsMostThreatened(s, n, t);
    }
  }

  lemma EndsAreBest(s: State, t: nat)
    requires Shape(s) && |s.board.neighbors| == NUM_TERRITORIES && t < NUM_TERRITORIES && s.territories[t].owner == s.current
    ensures var source, target := BestSource(s, NUM_TERRITORIES).territory, BestTarget(s, NUM_TERRITORIES).territory;
      source < NUM_TERRITORIES && target < NUM_TERRITORIES && NoBetterEnds(s, source, target, t)
  {
    assert Mine(s, t);
    BestSourceIsSafest(s, NUM_TERRITORIES, t);
    BestTargetIsMostThreatened(s, NUM_TERRITORIES, t);
    EndsComeFirst(s, NUM_TERRITORIES, t);
    EnemiesAreThreats(s, t);
    EnemiesAreThreats(s, BestSource(s, NUM_TERRITORIES).territory);
    EnemiesAreThreats(s, BestTarget(s, NUM_TERRITORIES).territory);
  }

  lemma EndsAreMine(s: State)
    requires Inv(s) && !s.placing && s.attack.None?
    ensures var source, target := BestSource(s, NUM_TERRITORIES).territory, BestTarget(s, NUM_TERRITORIES).territory;
      source < NUM_TERRITORIES && target < NUM_TERRITORIES && Mine(s, source) && Mine(s, target)
  {
    var t :| 0 <= t < NUM_TERRITORIES && s.territories[t].owner == s.current;
    assert Mine(s, t);
    BestSourceIsSafest(s, NUM_TERRITORIES, t);
    BestTargetIsMostThreatened(s, NUM_TERRITORIES, t);
  }

  lemma GreedyTells(s: State)
    requires Inv(s) && !s.placing && s.attack.None?
    requires BestSource(s, NUM_TERRITORIES).territory < NUM_TERRITORIES
    ensures var action := GreedyFortify(s);
      && action.Fortify? && 0 <= action.source < NUM_TERRITORIES && 0 <= action.target < NUM_TERRITORIES
      && IsGreedy(s, action.source, action.target, action.units)
  {
    EndsAreMine(s);
    forall t: nat | t < NUM_TERRITORIES && s.territories[t].owner == s.current
      ensures NoBetterEnds(s, BestSource(s, NUM_TERRITORIES).territory, BestTarget(s, NUM_TERRITORIES).territory, t)
    {
      EndsAreBest(s, t);
    }
  }

  // ---------------------------------------------------------------- reinforcements

  /** The mover's; and next to somebody else's, if that is asked for and any of the mover's is. */
  predicate MayReceive(s: State, border: bool, t: nat)
    requires Shape(s) && |s.board.neighbors| == NUM_TERRITORIES && t < NUM_TERRITORIES
  {
    && s.territories[t].owner == s.current
    && (border && (exists u :: 0 <= u < NUM_TERRITORIES && s.territories[u].owner == s.current && Exposed(s, u)) ==> Exposed(s, t))
  }

  /** Next to a territory that is not the mover's. */
  predicate Exposed(s: State, t: nat)
    requires Shape(s) && |s.board.neighbors| == NUM_TERRITORIES && t < NUM_TERRITORIES
  {
    exists u: nat :: u < NUM_TERRITORIES && u in s.board.neighbors[t] && s.territories[u].owner != s.current
  }

  function Receiving(s: State, border: bool): set<nat>
    requires Shape(s) && |s.board.neighbors| == NUM_TERRITORIES
  {
    set t: nat | t < NUM_TERRITORIES && MayReceive(s, border, t)
  }

  function Below(among: set<nat>, t: nat): set<nat> {
    set u | u in among && u < t
  }

  /** Of the first `n` draws, those that fall on `t`: it has as many of these territories below it as they say. */
  function DrawsOn(among: set<nat>, t: nat, draws: Draws, n: nat): set<nat>
    requires among != {}
  {
    set i | 0 <= i < n && draws(i) % |among| == |Below(among, t)|
  }

  lemma OneMoreDraw(among: set<nat>, t: nat, draws: Draws, n: nat)
    requires among != {} && n > 0
    ensures |DrawsOn(among, t, draws, n)|
         == |DrawsOn(among, t, draws, n - 1)| + if draws(n - 1) % |among| == |Below(among, t)| then 1 else 0
  {
    var falls := (i: int) => i >= 0 && draws(i) % |among| == |Below(among, t)|;
    assert DrawsOn(among, t, draws, n) == Holding(n, falls) && DrawsOn(among, t, draws, n - 1) == Holding(n - 1, falls);
    OneMoreHolds(n, falls);
  }

  predicate Rising(ts: seq<nat>) {
    forall i, j :: 0 <= i < j < |ts| ==> ts[i] < ts[j]
  }

  lemma {:induction false} OwnedRises(s: State, n: nat)
    requires Shape(s) && n <= NUM_TERRITORIES
    ensures Rising(OwnedBefore(s, n))
  {
    if n > 0 {
      OwnedRises(s, n - 1);
      var before := OwnedBefore(s, n - 1);
      assert forall i :: 0 <= i < |before| ==> before[i] in before;
    }
  }

  lemma {:induction false} BorderRises(s: State, ts: seq<nat>)
    requires Shape(s) && |s.board.neighbors| == NUM_TERRITORIES && Rising(ts)
    ensures Rising(BorderOf(s, ts))
  {
    if ts != [] {
      var n := |ts| - 1;
      BorderRises(s, ts[..n]);
      var before := BorderOf(s, ts[..n]);
      forall i | 0 <= i < |before|
        ensures before[i] < ts[n]
      {
        assert before[i] in before;
        assert before[i] in ts[..n];
      }
    }
  }

  lemma RisingNumbers(ts: seq<nat>, among: set<nat>, k: nat)
    requires Rising(ts) && k < |ts| && forall t: nat :: t in among <==> t in ts
    ensures |among| == |ts| && |Below(among, ts[k])| == k
  {
    DistinctCount(ts);
    assert among == Members(ts);
    DistinctCount(ts[..k]);
    var below := Below(among, ts[k]);
    forall u: nat
      ensures u in below <==> u in ts[..k]
    {
      if u in below {
        var i :| 0 <= i < |ts| && ts[i] == u;
        assert i < k;
        assert ts[..k][i] == u;
      }
    }
    assert below == Members(ts[..k]);
  }

  lemma ReceiversAreReceiving(s: State, border: bool)
    requires Inv(s) && ReinforcePending(s)
    ensures forall t: nat :: t in Receiving(s, border) <==> t in Receivers(s, border)
    ensures Rising(Receivers(s, border)) && Receivers(s, border) != [] && Receiving(s, border) != {}
  {
    var owned := OwnedBefore(s, NUM_TERRITORIES);
    OwnedRises(s, NUM_TERRITORIES);
    BorderRises(s, owned);
    ReceiversReceive(s, border);
    forall t: nat | t < NUM_TERRITORIES
      ensures Exposed(s, t) && s.territories[t].owner == s.current <==> OnBorder(s, t)
    {
    }
    forall t: nat
      ensures t in Receiving(s, border) <==> Receives(s, border, t)
    {
    }
    assert Receivers(s, border)[0] in Receivers(s, border);
  }

  lemma {:induction false} LandedAreDraws(ts: seq<nat>, among: set<nat>, t: nat, draws: Draws, n: nat)
    requires Rising(ts) && t in among && forall u: nat :: u in among <==> u in ts
    ensures ts != [] && Landed(ts, draws, n, t) == |DrawsOn(among, t, draws, n)|
  {
    var k :| 0 <= k < |ts| && ts[k] == t;
    RisingNumbers(ts, among, k);
    if n > 0 {
      LandedAreDraws(ts, among, t, draws, n - 1);
      OneMoreDraw(among, t, draws, n);
      assert ts[draws(n - 1) % |ts|] == t <==> draws(n - 1) % |ts| == k;
    }
  }

  lemma {:induction false} NoneLandElsewhere(ts: seq<nat>, t: nat, draws: Draws, n: nat)
    requires ts != [] && t !in ts
    ensures Landed(ts, draws, n, t) == 0
  {
    if n > 0 {
      NoneLandElsewhere(ts, t, draws, n - 1);
    }
  }

  /** Each army of the reserve goes to the receiving territory whose number its own draw is, and none elsewhere. */
  lemma ScatterTells(s: State, border: bool, draws: Draws)
    requires Inv(s) && ReinforcePending(s)
    ensures Receiving(s, border) != {} && Receivers(s, border) != []
    ensures var placed := Scattered(Receivers(s, border), draws, s.reserves[s.current]);
      forall t: nat :: t < NUM_TERRITORIES ==>
        placed[t] == if MayReceive(s, border, t) then |DrawsOn(Receiving(s, border), t, draws, s.reserves[s.current])| else 0
  {
    var ts := Receivers(s, border);
    ReceiversAreReceiving(s, border);
    forall t: nat | t < NUM_TERRITORIES
      ensures Landed(ts, draws, s.reserves[s.current], t)
           == if MayReceive(s, border, t) then |DrawsOn(Receiving(s, border), t, draws, s.reserves[s.current])| else 0
    {
      if t in Receiving(s, border) {
        LandedAreDraws(ts, Receiving(s, border), t, draws, s.reserves[s.current]);
      } else {
        NoneLandElsewhere(ts, t, draws, s.reserves[s.current]);
      }
    }
  }

  // -------------------------------------------------------------------- what is sampled

  /** An attack, each as likely as ending the turn, which a greedy fortify does. */
  predicate TurnTells(s: State, favorable: bool, draw: nat, action: Action)
    requires Shape(s) && |s.board.neighbors| == NUM_TERRITORIES
  {
    var n := |Attacks(s, favorable)|;
    match action
    case PlayerMove(None, Some(q)) => draw % (n + 1) < n && IsAttack(s, favorable, draw % (n + 1), q)
    case Fortify(source, target, units) =>
      && draw % (n + 1) == n && 0 <= source < NUM_TERRITORIES && 0 <= target < NUM_TERRITORIES
      && IsGreedy(s, source, target, units)
    case _ => false
  }

  /** The attack that rides on a reinforcement: whenever there is one, among the favourable ones if asked for and there are any. */
  predicate RidingTells(s: State, favorable: bool, draw: nat, attack: Option<QueuedAttack>)
    requires Shape(s) && |s.board.neighbors| == NUM_TERRITORIES
  {
    var choosy := favorable && Attacks(s, true) != {};
    var n := |Attacks(s, choosy)|;
    match attack
    case None => n == 0
    case Some(q) => n > 0 && IsAttack(s, choosy, draw % n, q)
  }

  /** Of the territories to claim from, or the mover's once all are claimed, the one with the highest of their draws, the first of equal ones. */
  predicate PlacementTells(s: State, draws: Draws, territory: int)
    requires Shape(s)
  {
    && Claimable(s, territory)
    && forall t :: 0 <= t < NUM_TERRITORIES && Claimable(s, t) ==>
         && ClaimDraw(s, draws, t) <= ClaimDraw(s, draws, territory)
         && (t < territory ==> ClaimDraw(s, draws, t) < ClaimDraw(s, draws, territory))
  }

  predicate Claimable(s: State, t: int)
    requires Shape(s)
  {
    0 <= t < NUM_TERRITORIES && s.territories[t].owner == if s.placements >= NUM_TERRITORIES then s.current else -1
  }

  /** One 32-bit number is drawn for each, in ascending order. */
  function ClaimDraw(s: State, draws: Draws, t: int): nat
    requires Shape(s) && 0 <= t < NUM_TERRITORIES
  {
    draws(|ClaimableBelow(s, t)|) % 0x1_0000_0000
  }

  function ClaimableBelow(s: State, t: int): set<int>
    requires Shape(s)
  {
    set u | 0 <= u < t && Claimable(s, u)
  }

  /** What comes of a decision node, for all draws. */
  ghost predicate SampleTells(s: State, border: bool, favorable: bool, draws: Draws, action: Action)
    requires DecisionNode(s)
  {
    if s.placing then action.InitialPlace? && PlacementTells(s, draws, action.territory)
    else if s.attack.Some? then
      && 0 <= s.attack.value.target < NUM_TERRITORIES
      && action == QueueDefense(if s.territories[s.attack.value.target].units >= 2 then 2 else 1)
    else if s.firstAttack && s.reserves[s.current] > 0 then
      var n := s.reserves[s.current];
      && Receiving(s, border) != {} && action.PlayerMove? && action.reinforce.Some?
      && RidingTells(s, favorable, draws(n), action.attack)
      && forall t: nat :: t < NUM_TERRITORIES ==>
           action.reinforce.value[t] == if MayReceive(s, border, t) then |DrawsOn(Receiving(s, border), t, draws, n)| else 0
    else TurnTells(s, favorable, draws(0), action)
  }

  lemma TurnChoiceTells(s: State, favorable: bool, draw: nat)
    requires Inv(s) && !s.placing && s.attack.None?
    requires BestSource(s, NUM_TERRITORIES).territory < NUM_TERRITORIES
    ensures TurnTells(s, favorable, draw, TurnChoice(s, favorable, draw % (|AttackOptions(s, favorable)| + 1)))
  {
    OptionsAreNumbered(s, favorable);
    var pick := draw % (|AttackOptions(s, favorable)| + 1);
    if pick < |AttackOptions(s, favorable)| {
      AttackAlongIsAttack(s, favorable, pick);
    } else {
      GreedyTells(s);
    }
  }

  lemma RidingAttackTells(s: State, favorable: bool, draw: nat)
    requires Inv(s) && ReinforcePending(s)
    ensures RidingTells(s, favorable, draw, RidingAttack(s, favorable, draw))
  {
    OptionsAreNumbered(s, false);
    OptionsAreNumbered(s, true);
    var choosy := favorable && Attacks(s, true) != {};
    var n := |AttackOptions(s, choosy)|;
    assert RidingOptions(s, favorable) == AttackOptions(s, choosy);
    if n > 0 {
      AttackAlongIsAttack(s, choosy, draw % n);
    }
  }

  lemma {:induction false} WantedAreClaimable(s: State, t: nat)
    requires Shape(s) && t <= NUM_TERRITORIES
    ensures WantedBefore(s, t) == |ClaimableBelow(s, t)|
  {
    if t > 0 {
      WantedAreClaimable(s, t - 1);
      var claimable := (u: int) => Claimable(s, u);
      assert ClaimableBelow(s, t) == Holding(t, claimable) && ClaimableBelow(s, t - 1) == Holding(t - 1, claimable);
      OneMoreHolds(t, claimable);
    }
  }

  lemma PlaceScanTells(s: State, draws: Draws)
    requires Inv(s) && s.placing
    ensures PlacementTells(s, draws, PlaceScan(s, draws, 0, 0, -1, 0))
  {
    SomeTerritoryIsWanted(s);
    var some :| 0 <= some && Wanted(s, some);
    HighestDrawWins(s, draws, some);
    forall t: nat | t < NUM_TERRITORIES
      ensures ClaimDraw(s, draws, t) == DrawOf(s, draws, t) && (Claimable(s, t) <==> Wanted(s, t))
    {
      WantedAreClaimable(s, t);
    }
  }

  lemma ReinforcedTells(s: State, border: bool, favorable: bool, draws: Draws)
    requires DecisionNode(s) && ReinforcePending(s)
    ensures SampleTells(s, border, favorable, draws, ReinforcedChoice(s, border, favorable, draws))
  {
    ScatterTells(s, border, draws);
    RidingAttackTells(s, favorable, draws(s.reserves[s.current]));
  }

  lemma ChoiceTells(s: State, border: bool, favorable: bool, draws: Draws)
    requires DecisionNode(s) && !ReinforcePending(s)
    requires BestSource(s, NUM_TERRITORIES).territory < NUM_TERRITORIES
    ensures SampleTells(s, border, favorable, draws, Choice(s, favorable, draws))
  {
    if s.placing {
      PlaceScanTells(s, draws);
    } else if s.attack.None? {
      TurnChoiceTells(s, favorable, draws(0));
    }
  }

  /** Every sample is what these draws say. */
  lemma SampledTells(s: State, border: bool, favorable: bool, draws: Draws)
    requires DecisionNode(s)
    ensures SampleTells(s, border, favorable, draws, Sampled(s, border, favorable, draws))
  {
    SourceOnBoard(s, NUM_TERRITORIES);
    if ReinforcePending(s) {
      ReinforcedTells(s, border, favorable, draws);
    } else {
      ChoiceTells(s, border, favorable, draws);
    }
  }
}
