/**
 The tree a search grows: nodes in one list, children named by their place in it. One pick of
 the node picker, and what every pick keeps.
 */
module SearchTree {
  import opened Options

  datatype Outcome = Ongoing | Draw | Win(player: int)

  /** The rules, the candidate generator and the playout, with what arbitrary draws make of them. */
  datatype Game<!S(!new), !A(!new), !U(!new)> = Game(
    players: nat,
    outcome: S -> Outcome,
    mover: S -> int,
    isChance: S -> bool,
    apply: (S, A) -> S,
    legal: (S, A) -> bool,
    good: S -> bool,
    propose: S -> U,
    next: (U, S, nat) -> (Option<A>, U),
    sampleChance: (S, nat) -> A,
    rollout: (S, nat) -> Outcome)

  /** How far a node may widen, by its visits, and the bonus of a little visited child. */
  datatype Tuning = Tuning(limit: nat -> real, bonus: (nat, nat) -> real)

  datatype Child<A> = Child(action: A, index: nat)

  datatype Choices<A, U> =
    | Decision(untried: U, exhausted: bool, children: seq<Child<A>>)
    | Chance(children: seq<Child<A>>)

  datatype Node<S, A, U> = Node(visits: nat, total: seq<real>, state: S, over: Outcome, choices: Choices<A, U>)

  // ------------------------------------------------------------------- what a game promises

  /** Play goes on in `s`, and a player decides. */
  predicate Deciding<S(!new), A(!new), U(!new)>(game: Game<S, A, U>, s: S) {
    game.good(s) && game.outcome(s).Ongoing? && !game.isChance(s)
  }

  predicate Rolling<S(!new), A(!new), U(!new)>(game: Game<S, A, U>, s: S) {
    game.good(s) && game.outcome(s).Ongoing? && game.isChance(s)
  }

  ghost predicate MoversAreSeats<S(!new), A(!new), U(!new)>(game: Game<S, A, U>) {
    forall s :: Deciding(game, s) ==> 0 <= game.mover(s) < game.players
  }

  /** A fresh generator has an action to give. */
  ghost predicate GeneratorsGive<S(!new), A(!new), U(!new)>(game: Game<S, A, U>) {
    forall s, draw :: Deciding(game, s) ==> game.next(game.propose(s), s, draw).0.Some?
  }

  ghost predicate GivenIsLegal<S(!new), A(!new), U(!new)>(game: Game<S, A, U>) {
    forall u, s, draw :: Deciding(game, s) && game.next(u, s, draw).0.Some? ==>
      game.legal(s, game.next(u, s, draw).0.value)
  }

  ghost predicate RolledIsLegal<S(!new), A(!new), U(!new)>(game: Game<S, A, U>) {
    forall s, draw :: Rolling(game, s) ==> game.legal(s, game.sampleChance(s, draw))
  }

  ghost predicate PlayStaysGood<S(!new), A(!new), U(!new)>(game: Game<S, A, U>) {
    forall s, a :: game.good(s) && game.outcome(s).Ongoing? && game.legal(s, a) ==> game.good(game.apply(s, a))
  }

  ghost predicate PlayoutsEndWell<S(!new), A(!new), U(!new)>(game: Game<S, A, U>) {
    forall s, draw :: game.good(s) && game.rollout(s, draw).Win? ==>
      0 <= game.rollout(s, draw).player < game.players
  }

  /**
   Generators and dice give legal actions, a fresh generator gives one, and legal actions keep
   states good, where the mover and the winner of a playout are seats.
   */
  ghost predicate WellBehaved<S(!new), A(!new), U(!new)>(game: Game<S, A, U>) {
    && MoversAreSeats(game) && GeneratorsGive(game) && GivenIsLegal(game)
    && RolledIsLegal(game) && PlayStaysGood(game) && PlayoutsEndWell(game)
  }

  /** No player's own action makes another one win. */
  ghost predicate NoGifts<S(!new), A(!new), U(!new)>(game: Game<S, A, U>) {
    forall s, a :: Deciding(game, s) && game.legal(s, a) && game.outcome(game.apply(s, a)).Win? ==>
      game.outcome(game.apply(s, a)).player == game.mover(s)
  }

  // ------------------------------------------------------------------------- the tree

  function NewNode<S(!new), A(!new), U(!new)>(game: Game<S, A, U>, s: S): Node<S, A, U> {
    Node(0, seq(game.players, p => 0.0), s, game.outcome(s),
         if game.isChance(s) then Chance([]) else Decision(game.propose(s), false, []))
  }

  predicate IsChild<S, A, U>(nodes: seq<Node<S, A, U>>, i: nat, k: nat, j: nat) {
    i < |nodes| && k < |nodes[i].choices.children| && nodes[i].choices.children[k].index == j
  }

  ghost predicate NodeFits<S(!new), A(!new), U(!new)>(game: Game<S, A, U>, node: Node<S, A, U>) {
    && game.good(node.state) && node.over == game.outcome(node.state)
    && |node.total| == game.players
    && (node.choices.Chance? <==> game.isChance(node.state))
    && (!node.over.Ongoing? ==> node.choices.children == [])
    && (node.choices.Decision? && node.choices.children == [] ==>
          !node.choices.exhausted && node.choices.untried == game.propose(node.state))
  }

  ghost predicate NodeFitsAt<S(!new), A(!new), U(!new)>(game: Game<S, A, U>, nodes: seq<Node<S, A, U>>, i: nat)
    requires i < |nodes|
  {
    NodeFits(game, nodes[i])
  }

  /** An edge leads to a later node, whose state a legal action gives. */
  ghost predicate EdgeFits<S(!new), A(!new), U(!new)>(game: Game<S, A, U>, nodes: seq<Node<S, A, U>>, i: nat, k: nat)
    requires i < |nodes| && k < |nodes[i].choices.children|
  {
    var child := nodes[i].choices.children[k];
    && i < child.index < |nodes| && game.legal(nodes[i].state, child.action)
    && nodes[child.index].state == game.apply(nodes[i].state, child.action)
  }

  ghost predicate OneParent<S, A, U>(nodes: seq<Node<S, A, U>>) {
    forall i: nat, k: nat, j: nat, l: nat, c: nat :: IsChild(nodes, i, k, c) && IsChild(nodes, j, l, c) ==> i == j && k == l
  }

  /** The shape of the tree, whatever has been counted in it. */
  ghost predicate Grown<S(!new), A(!new), U(!new)>(game: Game<S, A, U>, nodes: seq<Node<S, A, U>>) {
    && |nodes| > 0
    && (forall i :: 0 <= i < |nodes| ==> NodeFitsAt(game, nodes, i))
    && (forall i, k :: 0 <= i < |nodes| && 0 <= k < |nodes[i].choices.children| ==> EdgeFits(game, nodes, i, k))
    && OneParent(nodes)
  }

  /** How often the first `n` of these children were visited. */
  function ChildVisits<S, A, U>(nodes: seq<Node<S, A, U>>, children: seq<Child<A>>, n: nat): (sum: nat)
    requires n <= |children| && forall k :: 0 <= k < n ==> children[k].index < |nodes|
  {
    if n == 0 then 0 else ChildVisits(nodes, children, n - 1) + nodes[children[n - 1].index].visits
  }

  /** Every visit but the one that made the node went on to a child, unless play was over. */
  predicate VisitsAddUp<S, A, U>(nodes: seq<Node<S, A, U>>, i: nat)
    requires i < |nodes|
  {
    var children := nodes[i].choices.children;
    && (forall k :: 0 <= k < |children| ==> children[k].index < |nodes|)
    && (i > 0 ==> nodes[i].visits > 0)
    && (nodes[i].over.Ongoing? ==>
          nodes[i].visits == (if i == 0 then 0 else 1) + ChildVisits(nodes, children, |children|))
  }

  predicate TotalsInRange<S, A, U>(node: Node<S, A, U>) {
    forall p :: 0 <= p < |node.total| ==> -(node.visits as real) <= node.total[p] <= node.visits as real
  }

  predicate TotalsInRangeAt<S, A, U>(nodes: seq<Node<S, A, U>>, i: nat)
    requires i < |nodes|
  {
    TotalsInRange(nodes[i])
  }

  /** Between iterations. */
  ghost predicate Counted<S(!new), A(!new), U(!new)>(game: Game<S, A, U>, nodes: seq<Node<S, A, U>>) {
    && Grown(game, nodes)
    && (forall i :: 0 <= i < |nodes| ==> VisitsAddUp(nodes, i))
    && (forall i :: 0 <= i < |nodes| ==> TotalsInRangeAt(nodes, i))
  }

  // ------------------------------------------------------------------------- scores

  datatype Score = Lost | Rated(value: real) | Won

  predicate Beats(a: Score, b: Score) {
    match (a, b)
    case (Lost, _) => false
    case (Rated(_), Lost) => true
    case (Rated(x), Rated(y)) => x > y
    case (Rated(_), Won) => false
    case (Won, _) => !b.Won?
  }

  predicate Rateable<S(!new), A(!new), U(!new)>(game: Game<S, A, U>, nodes: seq<Node<S, A, U>>, i: nat)
    requires i < |nodes|
  {
    && 0 <= game.mover(nodes[i].state) < game.players
    && forall k :: 0 <= k < |nodes[i].choices.children| ==>
         var c := nodes[i].choices.children[k].index;
         c < |nodes| && nodes[c].visits > 0 && |nodes[c].total| == game.players
  }

  /** The score of child `k` for the player who decides at node `i`: an immediate win is all, an immediate loss nothing. */
  function ScoreOf<S(!new), A(!new), U(!new)>(game: Game<S, A, U>, tuning: Tuning, nodes: seq<Node<S, A, U>>,
          i: nat, k: nat): Score
    requires i < |nodes| && Rateable(game, nodes, i) && k < |nodes[i].choices.children|
  {
    var mover := game.mover(nodes[i].state);
    var child := nodes[nodes[i].choices.children[k].index];
    match child.over
    case Win(player) => if player == mover then Won else Lost
    case Draw => Rated(0.0)
    case Ongoing => Rated(child.total[mover] / child.visits as real + tuning.bonus(nodes[i].visits, child.visits))
  }

  /** Which of the first `n` children scores highest, the first of equal ones; -1 if all are lost. */
  function BestChild<S(!new), A(!new), U(!new)>(game: Game<S, A, U>, tuning: Tuning, nodes: seq<Node<S, A, U>>,
          i: nat, n: nat): (best: int)
    requires i < |nodes| && Rateable(game, nodes, i) && n <= |nodes[i].choices.children|
    ensures -1 <= best < n
  {
    if n == 0 then -1
    else
      var best := BestChild(game, tuning, nodes, i, n - 1);
      if Beats(ScoreOf(game, tuning, nodes, i, n - 1), BestScore(game, tuning, nodes, i, best)) then n - 1 else best
  }

  function BestScore<S(!new), A(!new), U(!new)>(game: Game<S, A, U>, tuning: Tuning, nodes: seq<Node<S, A, U>>,
          i: nat, best: int): Score
    requires i < |nodes| && Rateable(game, nodes, i) && -1 <= best < |nodes[i].choices.children|
  {
    if best < 0 then Lost else ScoreOf(game, tuning, nodes, i, best)
  }

  /** No score beats the best one, and only the best one beats all before it; without one all are lost. */
  lemma {:induction false} BestChildIsBest<S(!new), A(!new), U(!new)>(game: Game<S, A, U>, tuning: Tuning,
          nodes: seq<Node<S, A, U>>, i: nat, n: nat)
    requires i < |nodes| && Rateable(game, nodes, i) && n <= |nodes[i].choices.children|
    ensures var best := BestChild(game, tuning, nodes, i, n);
      && (best < 0 <==> forall k :: 0 <= k < n ==> ScoreOf(game, tuning, nodes, i, k).Lost?)
      && (forall k :: 0 <= k < n ==> !Beats(ScoreOf(game, tuning, nodes, i, k), BestScore(game, tuning, nodes, i, best)))
      && (forall k :: 0 <= k < best ==> Beats(BestScore(game, tuning, nodes, i, best), ScoreOf(game, tuning, nodes, i, k)))
  {
    if n > 0 {
      BestChildIsBest(game, tuning, nodes, i, n - 1);
    }
  }

  /** Nothing beats an immediate win, so the scan may stop there. */
  lemma {:induction false} WinStopsTheScan<S(!new), A(!new), U(!new)>(game: Game<S, A, U>, tuning: Tuning,
          nodes: seq<Node<S, A, U>>, i: nat, m: nat, n: nat)
    requires i < |nodes| && Rateable(game, nodes, i) && m <= n <= |nodes[i].choices.children|
    requires BestScore(game, tuning, nodes, i, BestChild(game, tuning, nodes, i, m)).Won?
    ensures BestChild(game, tuning, nodes, i, n) == BestChild(game, tuning, nodes, i, m)
  {
    if m < n {
      WinStopsTheScan(game, tuning, nodes, i, m, n - 1);
    }
  }

  // ------------------------------------------------------------------------ one pick

  datatype Picked = Picked(index: nat, added: bool, terminal: bool)

  datatype Pick<S, A, U> = Pick(picked: Picked, nodes: seq<Node<S, A, U>>)

  predicate MayWiden<S, A, U>(tuning: Tuning, node: Node<S, A, U>) {
    node.choices.children == [] || |node.choices.children| as real < tuning.limit(node.visits)
  }

  /** Node `i` gets one more child, at the end of the list. */
  function Grow<S(!new), A(!new), U(!new)>(game: Game<S, A, U>, nodes: seq<Node<S, A, U>>, i: nat,
          choices: Choices<A, U>, action: A): seq<Node<S, A, U>>
    requires i < |nodes|
  {
    var child := Child(action, |nodes|);
    nodes[i := nodes[i].(choices := choices.(children := choices.children + [child]))]
    + [NewNode(game, game.apply(nodes[i].state, action))]
  }

  function FindAction<A(==)>(children: seq<Child<A>>, action: A): (k: nat)
    ensures k <= |children|
    ensures k < |children| ==> children[k].action == action
    ensures forall j :: 0 <= j < k ==> children[j].action != action
  {
    if children == [] || children[0].action == action then 0 else 1 + FindAction(children[1..], action)
  }

  /** Down to the best child; where all are lost the index stays what it was set up with, the root. */
  function Down<S(!new), A(!new), U(!new)>(game: Game<S, A, U>, tuning: Tuning, nodes: seq<Node<S, A, U>>,
          i: nat): Picked
    requires i < |nodes| && Rateable(game, nodes, i)
  {
    var best := BestChild(game, tuning, nodes, i, |nodes[i].choices.children|);
    Picked(if best < 0 then 0 else nodes[i].choices.children[best].index, false, false)
  }

  predicate Ready<S(!new), A(!new), U(!new)>(game: Game<S, A, U>, nodes: seq<Node<S, A, U>>, i: nat) {
    i < |nodes| && (nodes[i].over.Ongoing? && nodes[i].choices.Decision? ==> Rateable(game, nodes, i))
  }

  /** One call of the node picker. */
  function PickAt<S(!new), A(!new, ==), U(!new)>(game: Game<S, A, U>, tuning: Tuning, nodes: seq<Node<S, A, U>>,
          i: nat, draw: nat): (pick: Pick<S, A, U>)
    requires Ready(game, nodes, i)
  {
    var node := nodes[i];
    if !node.over.Ongoing? then Pick(Picked(i, false, true), nodes)
    else if node.choices.Chance? then
      var action := game.sampleChance(node.state, draw);
      var k := FindAction(node.choices.children, action);
      if k < |node.choices.children| then Pick(Picked(node.choices.children[k].index, false, false), nodes)
      else Pick(Picked(|nodes|, true, false), Grow(game, nodes, i, node.choices, action))
    else if node.choices.exhausted || !MayWiden(tuning, node) then Pick(Down(game, tuning, nodes, i), nodes)
    else
      var (action, untried) := game.next(node.choices.untried, node.state, draw);
      if action.Some? then
        Pick(Picked(|nodes|, true, false), Grow(game, nodes, i, node.choices.(untried := untried), action.value))
      else
        Pick(Down(game, tuning, nodes, i), nodes[i := node.(choices := Decision(untried, true, node.choices.children))])
  }

  /** No new child to be had at node `i`, and every child it has is an immediate loss for the player who decides. */
  predicate Stuck<S(!new), A(!new), U(!new)>(game: Game<S, A, U>, tuning: Tuning, nodes: seq<Node<S, A, U>>,
          i: nat, draw: nat)
    requires Ready(game, nodes, i)
  {
    var node := nodes[i];
    && node.over.Ongoing? && node.choices.Decision?
    && (node.choices.exhausted || !MayWiden(tuning, node) || game.next(node.choices.untried, node.state, draw).0.None?)
    && forall k :: 0 <= k < |node.choices.children| ==> ScoreOf(game, tuning, nodes, i, k).Lost?
  }

  // ------------------------------------------------------------------ what a pick keeps

  /** What a pick may look at is there: no visit count it divides by is zero. */
  lemma CountedIsReady<S(!new), A(!new), U(!new)>(game: Game<S, A, U>, nodes: seq<Node<S, A, U>>, i: nat)
    requires WellBehaved(game) && Counted(game, nodes) && i < |nodes|
    ensures Ready(game, nodes, i)
  {
    var node := nodes[i];
    assert NodeFitsAt(game, nodes, i);
    if node.over.Ongoing? && node.choices.Decision? {
      assert Deciding(game, node.state);
      forall k | 0 <= k < |node.choices.children|
        ensures var c := node.choices.children[k].index;
          c < |nodes| && nodes[c].visits > 0 && |nodes[c].total| == game.players
      {
        assert EdgeFits(game, nodes, i, k);
        var c := node.choices.children[k].index;
        assert VisitsAddUp(nodes, c) && NodeFitsAt(game, nodes, c);
      }
    }
  }

  /** Where a pick does not expand a player's node, the node has children: the program's assert holds. */
  lemma ChildrenThere<S(!new), A(!new), U(!new)>(game: Game<S, A, U>, tuning: Tuning, nodes: seq<Node<S, A, U>>,
          i: nat, draw: nat)
    requires WellBehaved(game) && Counted(game, nodes) && i < |nodes|
    requires nodes[i].over.Ongoing? && nodes[i].choices.Decision?
    requires var node := nodes[i];
      node.choices.exhausted || !MayWiden(tuning, node) || game.next(node.choices.untried, node.state, draw).0.None?
    ensures nodes[i].choices.children != []
  {
    assert NodeFitsAt(game, nodes, i);
    assert Deciding(game, nodes[i].state);
  }

  /** A pick goes one step down unless it stops at the end of play or is stuck, which leads back to the root. */
  lemma PickGoesDown<S(!new), A(!new), U(!new)>(game: Game<S, A, U>, tuning: Tuning, nodes: seq<Node<S, A, U>>,
          i: nat, draw: nat)
    requires WellBehaved(game) && Counted(game, nodes) && i < |nodes| && Ready(game, nodes, i)
    ensures var pick := PickAt(game, tuning, nodes, i, draw);
      && (pick.picked.terminal ==> pick.picked.index == i && pick.nodes == nodes && !nodes[i].over.Ongoing?)
      && (!pick.picked.terminal && !pick.picked.added ==>
            && nodes[i].over.Ongoing?
            && if Stuck(game, tuning, nodes, i, draw) then pick.picked.index == 0
               else i < pick.picked.index < |nodes| && HasChild(nodes, i, pick.picked.index))
  {
    var node := nodes[i];
    var pick := PickAt(game, tuning, nodes, i, draw);
    if node.over.Ongoing? && !pick.picked.added {
      if node.choices.Chance? {
        var k := FindAction(node.choices.children, game.sampleChance(node.state, draw));
        assert EdgeFits(game, nodes, i, k) && IsChild(nodes, i, k, pick.picked.index);
      } else {
        BestChildIsBest(game, tuning, nodes, i, |node.choices.children|);
        var best := BestChild(game, tuning, nodes, i, |node.choices.children|);
        if best >= 0 {
          assert EdgeFits(game, nodes, i, best) && IsChild(nodes, i, best, pick.picked.index);
        }
      }
    }
  }

  ghost predicate HasChild<S, A, U>(nodes: seq<Node<S, A, U>>, i: nat, j: nat) {
    exists k: nat :: IsChild(nodes, i, k, j)
  }

  lemma {:induction false} ChildVisitsSame<S, A, U>(before: seq<Node<S, A, U>>, after: seq<Node<S, A, U>>,
          children: seq<Child<A>>, n: nat)
    requires n <= |children| && |before| <= |after|
    requires forall k :: 0 <= k < n ==> children[k].index < |before|
    requires forall j :: 0 <= j < |before| ==> after[j].visits == before[j].visits
    ensures ChildVisits(after, children, n) == ChildVisits(before, children, n)
  {
    if n > 0 {
      ChildVisitsSame(before, after, children, n - 1);
    }
  }

  /** Noting that a generator has no more keeps everything. */
  lemma ExhaustedKeepsCounted<S(!new), A(!new), U(!new)>(game: Game<S, A, U>, nodes: seq<Node<S, A, U>>, i: nat,
          choices: Choices<A, U>, after: seq<Node<S, A, U>>)
    requires Counted(game, nodes) && i < |nodes| && nodes[i].choices.Decision?
    requires choices.Decision? && choices.children == nodes[i].choices.children != []
    requires after == nodes[i := nodes[i].(choices := choices)]
    ensures Counted(game, after)
  {
    forall j | 0 <= j < |after|
      ensures NodeFitsAt(game, after, j) && VisitsAddUp(after, j) && TotalsInRangeAt(after, j)
    {
      assert NodeFitsAt(game, nodes, j) && VisitsAddUp(nodes, j) && TotalsInRangeAt(nodes, j);
      var children := nodes[j].choices.children;
      ChildVisitsSame(nodes, after, children, |children|);
    }
    forall j, k | 0 <= j < |after| && 0 <= k < |after[j].choices.children|
      ensures EdgeFits(game, after, j, k)
    {
      assert EdgeFits(game, nodes, j, k);
    }
    assert forall j: nat, k: nat, c: nat :: IsChild(after, j, k, c) ==> IsChild(nodes, j, k, c);
  }

  /** A new leaf is counted only when its iteration ends. */
  ghost predicate CountedBut<S(!new), A(!new), U(!new)>(game: Game<S, A, U>, nodes: seq<Node<S, A, U>>, last: nat) {
    && Grown(game, nodes) && last < |nodes|
    && (forall i :: 0 <= i < |nodes| ==> (i == last && nodes[i].visits == 0) || VisitsAddUp(nodes, i))
    && (forall i :: 0 <= i < |nodes| ==> TotalsInRangeAt(nodes, i))
    && (nodes[last].over.Ongoing? ==> last > 0 && nodes[last].visits == 0 && nodes[last].choices.children == [])
  }

  lemma NewNodeFits<S(!new), A(!new), U(!new)>(game: Game<S, A, U>, s: S)
    requires game.good(s)
    ensures NodeFits(game, NewNode(game, s)) && TotalsInRange(NewNode(game, s))
  {
  }

  lemma GrowKeepsEdges<S(!new), A(!new), U(!new)>(game: Game<S, A, U>, nodes: seq<Node<S, A, U>>, i: nat,
          choices: Choices<A, U>, action: A, after: seq<Node<S, A, U>>)
    requires Grown(game, nodes) && i < |nodes| && game.legal(nodes[i].state, action)
    requires choices.children == nodes[i].choices.children && after == Grow(game, nodes, i, choices, action)
    ensures forall j, k :: 0 <= j < |after| && 0 <= k < |after[j].choices.children| ==> EdgeFits(game, after, j, k)
    ensures OneParent(after) && HasChild(after, i, |nodes|)
  {
    forall j, k | 0 <= j < |after| && 0 <= k < |after[j].choices.children|
      ensures EdgeFits(game, after, j, k)
    {
      if j < |nodes| && k < |nodes[j].choices.children| {
        assert EdgeFits(game, nodes, j, k);
      }
    }
    assert IsChild(after, i, |nodes[i].choices.children|, |nodes|);
    forall j: nat, k: nat, c: nat | IsChild(after, j, k, c)
      ensures if c == |nodes| then j == i && k == |nodes[i].choices.children| else IsChild(nodes, j, k, c)
    {
      if j < |nodes| && k < |nodes[j].choices.children| {
        assert EdgeFits(game, nodes, j, k);
      }
    }
  }

  lemma GrowKeepsCounts<S(!new), A(!new), U(!new)>(game: Game<S, A, U>, nodes: seq<Node<S, A, U>>, i: nat,
          choices: Choices<A, U>, action: A, after: seq<Node<S, A, U>>)
    requires Counted(game, nodes) && i < |nodes|
    requires choices.children == nodes[i].choices.children && after == Grow(game, nodes, i, choices, action)
    ensures forall j :: 0 <= j < |nodes| ==> VisitsAddUp(after, j)
  {
    forall j | 0 <= j < |nodes|
      ensures VisitsAddUp(after, j)
    {
      assert VisitsAddUp(nodes, j);
      var children := nodes[j].choices.children;
      ChildVisitsSame(nodes, after, children, |children|);
      if j == i {
        var grown := after[i].choices.children;
        SamePrefix(after, children, grown, |children|);
        assert ChildVisits(after, grown, |grown|) == ChildVisits(after, grown, |children|) + after[|nodes|].visits;
      }
    }
  }

  lemma {:induction false} SamePrefix<S, A, U>(nodes: seq<Node<S, A, U>>, a: seq<Child<A>>, b: seq<Child<A>>, n: nat)
    requires n <= |a| && n <= |b| && a[..n] == b[..n] && forall k :: 0 <= k < n ==> a[k].index < |nodes|
    ensures (forall k :: 0 <= k < n ==> b[k].index < |nodes|) && ChildVisits(nodes, a, n) == ChildVisits(nodes, b, n)
  {
    forall k | 0 <= k < n
      ensures a[k] == b[k]
    {
      assert a[..n][k] == b[..n][k];
    }
    if n > 0 {
      assert a[..n - 1] == a[..n][..n - 1] && b[..n - 1] == b[..n][..n - 1];
      SamePrefix(nodes, a, b, n - 1);
    }
  }

  lemma GrowKeepsTree<S(!new), A(!new), U(!new)>(game: Game<S, A, U>, nodes: seq<Node<S, A, U>>, i: nat,
          choices: Choices<A, U>, action: A, after: seq<Node<S, A, U>>)
    requires WellBehaved(game) && Counted(game, nodes) && i < |nodes|
    requires nodes[i].over.Ongoing? && game.legal(nodes[i].state, action)
    requires choices.children == nodes[i].choices.children && (choices.Chance? <==> nodes[i].choices.Chance?)
    requires after == Grow(game, nodes, i, choices, action)
    ensures CountedBut(game, after, |nodes|) && HasChild(after, i, |nodes|)
  {
    assert NodeFitsAt(game, nodes, i);
    var s := game.apply(nodes[i].state, action);
    assert game.good(s);
    NewNodeFits(game, s);
    GrowKeepsEdges(game, nodes, i, choices, action, after);
    GrowKeepsCounts(game, nodes, i, choices, action, after);
    forall j | 0 <= j < |after|
      ensures NodeFitsAt(game, after, j) && TotalsInRangeAt(after, j)
    {
      if j < |nodes| {
        assert NodeFitsAt(game, nodes, j) && TotalsInRangeAt(nodes, j);
      }
    }
  }

  /** The same tree with the same counts; only what is left of the generators may differ. */
  ghost predicate SameCounts<S, A, U>(before: seq<Node<S, A, U>>, after: seq<Node<S, A, U>>, j: nat)
    requires j < |before| == |after|
  {
    && after[j].visits == before[j].visits && after[j].total == before[j].total && after[j].over == before[j].over
    && after[j].state == before[j].state && after[j].choices.children == before[j].choices.children
    && (after[j].choices.Chance? <==> before[j].choices.Chance?)
  }

  /** Every pick keeps the tree: what it adds is a leaf, and all counts but the leaf's are in order. */
  lemma PickKeepsTree<S(!new), A(!new), U(!new)>(game: Game<S, A, U>, tuning: Tuning, nodes: seq<Node<S, A, U>>,
          i: nat, draw: nat)
    requires WellBehaved(game) && Counted(game, nodes) && i < |nodes| && Ready(game, nodes, i)
    ensures var pick := PickAt(game, tuning, nodes, i, draw);
      && (!pick.picked.added ==>
            && Counted(game, pick.nodes) && |pick.nodes| == |nodes|
            && forall j :: 0 <= j < |nodes| ==> SameCounts(nodes, pick.nodes, j))
      && (pick.picked.added ==>
            && pick.picked.index == |nodes| && |pick.nodes| == |nodes| + 1 && !pick.picked.terminal
            && CountedBut(game, pick.nodes, |nodes|) && HasChild(pick.nodes, i, |nodes|) && pick.nodes[|nodes|].visits == 0)
      && (forall j :: 0 <= j < |nodes| && j != i ==> pick.nodes[j] == nodes[j])
  {
    var node := nodes[i];
    assert NodeFitsAt(game, nodes, i);
    if !node.over.Ongoing? {
    } else if node.choices.Chance? {
      assert Rolling(game, node.state);
      var action := game.sampleChance(node.state, draw);
      GrowKeepsTree(game, nodes, i, node.choices, action, Grow(game, nodes, i, node.choices, action));
    } else if !node.choices.exhausted && MayWiden(tuning, node) {
      assert Deciding(game, node.state);
      var (action, untried) := game.next(node.choices.untried, node.state, draw);
      if action.Some? {
        var choices := node.choices.(untried := untried);
        GrowKeepsTree(game, nodes, i, choices, action.value, Grow(game, nodes, i, choices, action.value));
      } else {
        var choices := Decision(untried, true, node.choices.children);
        ExhaustedKeepsCounted(game, nodes, i, choices, nodes[i := node.(choices := choices)]);
      }
    }
  }

  // ----------------------------------------------------------------- back-propagation

  /** From the root, each node a child of the one before. */
  ghost predicate IsPath<S, A, U>(nodes: seq<Node<S, A, U>>, path: seq<nat>) {
    && |path| > 0 && path[0] == 0 && (forall t :: 0 <= t < |path| ==> path[t] < |nodes|)
    && forall t :: 0 <= t < |path| - 1 ==> HasChild(nodes, path[t], path[t + 1])
  }

  function AddValue(total: seq<real>, value: seq<real>): (sum: seq<real>)
    requires |total| == |value|
    ensures |sum| == |total|
  {
    seq(|total|, p requires 0 <= p < |total| => total[p] + value[p])
  }

  /** One more visit, and the value of the playout, along the path. */
  function Backed<S, A, U>(nodes: seq<Node<S, A, U>>, path: seq<nat>, value: seq<real>): (after: seq<Node<S, A, U>>)
    requires forall j :: 0 <= j < |nodes| ==> |nodes[j].total| == |value|
    ensures |after| == |nodes|
  {
    seq(|nodes|, j requires 0 <= j < |nodes| =>
      if j in path then nodes[j].(visits := nodes[j].visits + 1, total := AddValue(nodes[j].total, value)) else nodes[j])
  }

  lemma {:induction false} PathGoesUp<S(!new), A(!new), U(!new)>(game: Game<S, A, U>, nodes: seq<Node<S, A, U>>,
          path: seq<nat>, t: nat, u: nat)
    requires Grown(game, nodes) && IsPath(nodes, path) && t < u < |path|
    ensures path[t] < path[u]
    decreases u
  {
    assert HasChild(nodes, path[u - 1], path[u - 1 + 1]);
    var k: nat :| IsChild(nodes, path[u - 1], k, path[u]);
    assert EdgeFits(game, nodes, path[u - 1], k);
    if t < u - 1 {
      PathGoesUp(game, nodes, path, t, u - 1);
    }
  }

  /** A child on the path comes right after its parent there. */
  lemma PathComesThrough<S(!new), A(!new), U(!new)>(game: Game<S, A, U>, nodes: seq<Node<S, A, U>>,
          path: seq<nat>, i: nat, k: nat) returns (t: nat)
    requires Grown(game, nodes) && IsPath(nodes, path) && i < |nodes| && k < |nodes[i].choices.children|
    requires nodes[i].choices.children[k].index in path
    ensures t + 1 < |path| && path[t] == i && path[t + 1] == nodes[i].choices.children[k].index
  {
    var c := nodes[i].choices.children[k].index;
    assert EdgeFits(game, nodes, i, k) && IsChild(nodes, i, k, c);
    var u :| 0 <= u < |path| && path[u] == c;
    t := u - 1;
    assert HasChild(nodes, path[t], path[t + 1]);
    var l: nat :| IsChild(nodes, path[t], l, c);
  }

  function Hits<A>(children: seq<Child<A>>, path: seq<nat>, n: nat): nat
    requires n <= |children|
  {
    if n == 0 then 0 else Hits(children, path, n - 1) + (if children[n - 1].index in path then 1 else 0)
  }

  lemma {:induction false} ChildVisitsBacked<S, A, U>(nodes: seq<Node<S, A, U>>, path: seq<nat>,
          value: seq<real>, children: seq<Child<A>>, n: nat)
    requires forall j :: 0 <= j < |nodes| ==> |nodes[j].total| == |value|
    requires n <= |children| && forall k :: 0 <= k < n ==> children[k].index < |nodes|
    ensures ChildVisits(Backed(nodes, path, value), children, n) == ChildVisits(nodes, children, n) + Hits(children, path, n)
  {
    if n > 0 {
      ChildVisitsBacked(nodes, path, value, children, n - 1);
    }
  }

  lemma {:induction false} OneHit<A>(children: seq<Child<A>>, path: seq<nat>, k: int, n: nat)
    requires n <= |children| && forall l :: 0 <= l < n ==> (children[l].index in path <==> l == k)
    ensures Hits(children, path, n) == if 0 <= k < n then 1 else 0
  {
    if n > 0 {
      OneHit(children, path, k, n - 1);
    }
  }

  /** The path hits one child of each of its nodes but the last, and no others. */
  lemma PathHits<S(!new), A(!new), U(!new)>(game: Game<S, A, U>, nodes: seq<Node<S, A, U>>, path: seq<nat>, i: nat)
    requires Grown(game, nodes) && IsPath(nodes, path) && i < |nodes|
    ensures var children := nodes[i].choices.children;
      Hits(children, path, |children|) == if i in path && i != path[|path| - 1] then 1 else 0
  {
    var children := nodes[i].choices.children;
    if i in path && i != path[|path| - 1] {
      var t :| 0 <= t < |path| && path[t] == i;
      assert HasChild(nodes, path[t], path[t + 1]);
      var k: nat :| IsChild(nodes, i, k, path[t + 1]);
      forall l | 0 <= l < |children|
        ensures children[l].index in path <==> l == k
      {
        if children[l].index in path {
          NextIsNext(game, nodes, path, i, l, t);
          assert IsChild(nodes, i, l, path[t + 1]);
        }
      }
      OneHit(children, path, k, |children|);
    } else {
      forall l | 0 <= l < |children|
        ensures children[l].index !in path
      {
        if children[l].index in path {
          var t := PathComesThrough(game, nodes, path, i, l);
          PathGoesUp(game, nodes, path, t, |path| - 1);
        }
      }
      OneHit(children, path, -1, |children|);
    }
  }

  lemma NextIsNext<S(!new), A(!new), U(!new)>(game: Game<S, A, U>, nodes: seq<Node<S, A, U>>, path: seq<nat>,
          i: nat, l: nat, t: nat)
    requires Grown(game, nodes) && IsPath(nodes, path) && i < |nodes| && l < |nodes[i].choices.children|
    requires nodes[i].choices.children[l].index in path && t + 1 < |path| && path[t] == i
    ensures nodes[i].choices.children[l].index == path[t + 1]
  {
    var u := PathComesThrough(game, nodes, path, i, l);
    if u < t {
      PathGoesUp(game, nodes, path, u, t);
    } else if t < u {
      PathGoesUp(game, nodes, path, t, u);
    }
  }

  lemma BackedKeepsShape<S(!new), A(!new), U(!new)>(game: Game<S, A, U>, nodes: seq<Node<S, A, U>>,
          path: seq<nat>, value: seq<real>)
    requires Grown(game, nodes) && |value| == game.players
    ensures (forall j :: 0 <= j < |nodes| ==> |nodes[j].total| == |value|) && Grown(game, Backed(nodes, path, value))
  {
    forall j | 0 <= j < |nodes|
      ensures |nodes[j].total| == |value|
    {
      assert NodeFitsAt(game, nodes, j);
    }
    var after := Backed(nodes, path, value);
    forall j | 0 <= j < |nodes|
      ensures NodeFitsAt(game, after, j)
    {
      assert NodeFitsAt(game, nodes, j);
    }
    forall j, k | 0 <= j < |after| && 0 <= k < |after[j].choices.children|
      ensures EdgeFits(game, after, j, k)
    {
      assert EdgeFits(game, nodes, j, k);
    }
    assert forall j: nat, k: nat, c: nat :: IsChild(after, j, k, c) ==> IsChild(nodes, j, k, c);
  }

  /** Back-propagation settles all counts: visits add up over children again, and no total outgrows its visits. */
  lemma BackedIsCounted<S(!new), A(!new), U(!new)>(game: Game<S, A, U>, nodes: seq<Node<S, A, U>>,
          path: seq<nat>, value: seq<real>)
    requires IsPath(nodes, path) && CountedBut(game, nodes, path[|path| - 1])
    requires |value| == game.players && forall p :: 0 <= p < |value| ==> -1.0 <= value[p] <= 1.0
    ensures (forall j :: 0 <= j < |nodes| ==> |nodes[j].total| == |value|)
    ensures Counted(game, Backed(nodes, path, value))
    ensures Backed(nodes, path, value)[0].visits == nodes[0].visits + 1
  {
    BackedKeepsShape(game, nodes, path, value);
    var after := Backed(nodes, path, value);
    var last := path[|path| - 1];
    forall i | 0 <= i < |nodes|
      ensures VisitsAddUp(after, i) && TotalsInRangeAt(after, i)
    {
      assert TotalsInRangeAt(nodes, i) && ((i == last && nodes[i].visits == 0) || VisitsAddUp(nodes, i));
      PathHits(game, nodes, path, i);
      var children := nodes[i].choices.children;
      forall k | 0 <= k < |children|
        ensures children[k].index < |nodes|
      {
        assert EdgeFits(game, nodes, i, k);
      }
      ChildVisitsBacked(nodes, path, value, children, |children|);
    }
  }
}
