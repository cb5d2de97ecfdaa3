/**
 Which games can be searched: every search from a position ends, however it is tuned and
 whatever is drawn, exactly when no reachable position has a move that makes another
 player win.
 */
module SearchEnds {
  import opened Options
  import opened SearchTree
  import opened TreeSearch

  // -------------------------------------------------------------------------- plays

  /** What a draw first makes of a position: the dice, or the first action of a fresh generator. */
  function ActionAt<S(!new), A(!new), U(!new)>(game: Game<S, A, U>, s: S, draw: nat): Option<A> {
    if game.isChance(s) then Some(game.sampleChance(s, draw)) else game.next(game.propose(s), s, draw).0
  }

  ghost predicate Moves<S(!new), A(!new), U(!new)>(game: Game<S, A, U>, s: S, draw: nat, after: S) {
    && game.good(s) && game.outcome(s).Ongoing?
    && ActionAt(game, s, draw).Some? && after == game.apply(s, ActionAt(game, s, draw).value)
  }

  ghost predicate IsPlay<S(!new), A(!new), U(!new)>(game: Game<S, A, U>, states: seq<S>, draws: seq<nat>) {
    && |states| == |draws| + 1
    && forall i :: 0 <= i < |draws| ==> Moves(game, states[i], draws[i], states[i + 1])
  }

  ghost predicate Reaches<S(!new), A(!new), U(!new)>(game: Game<S, A, U>, root: S, states: seq<S>,
          draws: seq<nat>, s: S) {
    IsPlay(game, states, draws) && states[0] == root && states[|draws|] == s
  }

  ghost predicate Reachable<S(!new), A(!new), U(!new)>(game: Game<S, A, U>, root: S, s: S) {
    exists states: seq<S>, draws: seq<nat> :: Reaches(game, root, states, draws, s)
  }

  /** The player who decides in `s` may be offered a move that makes another one win. */
  ghost predicate Gift<S(!new), A(!new), U(!new)>(game: Game<S, A, U>, s: S, draw: nat) {
    && Deciding(game, s) && ActionAt(game, s, draw).Some?
    && var over := game.outcome(game.apply(s, ActionAt(game, s, draw).value));
       over.Win? && over.player != game.mover(s)
  }

  ghost predicate GiftReachable<S(!new), A(!new), U(!new)>(game: Game<S, A, U>, root: S) {
    exists s: S, draw: nat :: Reachable(game, root, s) && Gift(game, s, draw)
  }

  /** Whatever a generator comes up with could have come first, as in drawing without replacement. */
  ghost predicate AnyFirst<S(!new), A(!new), U(!new)>(game: Game<S, A, U>) {
    forall u, s, draw :: Deciding(game, s) && game.next(u, s, draw).0.Some? ==>
      ComesFirst(game, s, game.next(u, s, draw).0.value)
  }

  ghost predicate ComesFirst<S(!new), A(!new), U(!new)>(game: Game<S, A, U>, s: S, a: A) {
    exists first: nat :: ActionAt(game, s, first) == Some(a)
  }

  // ----------------------------------------------------------------------- searches

  ghost predicate NextEnds<S(!new), A(!new), U(!new)>(game: Game<S, A, U>, tuning: Tuning, root: S,
          draws: nat -> nat -> nat, simulations: nat -> nat, n: nat)
    requires WellBehaved(game) && game.good(root)
  {
    var tree := TreeAfter(game, tuning, root, draws, simulations, n);
    tree.Some? ==> Ends(game, tuning, tree.value, draws(n))
  }

  /** After any number of iterations the next selection ends, for all that may be tuned and drawn. */
  ghost predicate EverySearchEnds<S(!new), A(!new), U(!new)>(game: Game<S, A, U>, root: S)
    requires WellBehaved(game) && game.good(root)
  {
    forall tuning: Tuning, draws: nat -> nat -> nat, simulations: nat -> nat, n: nat ::
      NextEnds(game, tuning, root, draws, simulations, n)
  }

  // ------------------------------------------------------------ no gift, no dead end

  lemma PlayFurther<S(!new), A(!new), U(!new)>(game: Game<S, A, U>, root: S, s: S, draw: nat)
    requires Reachable(game, root, s) && game.good(s) && game.outcome(s).Ongoing? && ActionAt(game, s, draw).Some?
    ensures Reachable(game, root, game.apply(s, ActionAt(game, s, draw).value))
  {
    var states: seq<S>, draws: seq<nat> :| Reaches(game, root, states, draws, s);
    var after := game.apply(s, ActionAt(game, s, draw).value);
    var longer, more := states + [after], draws + [draw];
    forall i | 0 <= i < |more|
      ensures Moves(game, longer[i], more[i], longer[i + 1])
    {
      if i < |draws| {
        assert Moves(game, states[i], draws[i], states[i + 1]);
      }
    }
    assert Reaches(game, root, longer, more, after);
  }

  /** A node stands for a reachable position, and its first child for a first action there. */
  ghost predicate NodeRooted<S(!new), A(!new), U(!new)>(game: Game<S, A, U>, root: S, node: Node<S, A, U>) {
    && Reachable(game, root, node.state)
    && (node.choices.Decision? && node.choices.children != [] ==>
          ComesFirst(game, node.state, node.choices.children[0].action))
  }

  ghost predicate RootedAt<S(!new), A(!new), U(!new)>(game: Game<S, A, U>, root: S, nodes: seq<Node<S, A, U>>, i: nat)
    requires i < |nodes|
  {
    NodeRooted(game, root, nodes[i])
  }

  ghost predicate Rooted<S(!new), A(!new), U(!new)>(game: Game<S, A, U>, root: S, nodes: seq<Node<S, A, U>>) {
    forall i :: 0 <= i < |nodes| ==> RootedAt(game, root, nodes, i)
  }

  lemma GrowKeepsRooted<S(!new), A(!new), U(!new)>(game: Game<S, A, U>, root: S, nodes: seq<Node<S, A, U>>,
          i: nat, choices: Choices<A, U>, action: A, after: seq<Node<S, A, U>>)
    requires Rooted(game, root, nodes) && i < |nodes| && game.good(nodes[i].state) && game.outcome(nodes[i].state).Ongoing?
    requires choices.children == nodes[i].choices.children && (choices.Chance? <==> nodes[i].choices.Chance?)
    requires ComesFirst(game, nodes[i].state, action) && after == Grow(game, nodes, i, choices, action)
    ensures Rooted(game, root, after)
  {
    assert RootedAt(game, root, nodes, i);
    var first: nat :| ActionAt(game, nodes[i].state, first) == Some(action);
    PlayFurther(game, root, nodes[i].state, first);
    forall j | 0 <= j < |after|
      ensures RootedAt(game, root, after, j)
    {
      if j < |nodes| {
        assert RootedAt(game, root, nodes, j);
      }
    }
  }

  lemma SameChildrenRooted<S(!new), A(!new), U(!new)>(game: Game<S, A, U>, root: S, before: seq<Node<S, A, U>>,
          after: seq<Node<S, A, U>>)
    requires Rooted(game, root, before) && |before| == |after|
    requires forall j :: 0 <= j < |before| ==>
      && after[j].state == before[j].state && after[j].choices.children == before[j].choices.children
      && (after[j].choices.Chance? <==> before[j].choices.Chance?)
    ensures Rooted(game, root, after)
  {
    forall j | 0 <= j < |after|
      ensures RootedAt(game, root, after, j)
    {
      assert RootedAt(game, root, before, j);
    }
  }

  lemma PickKeepsRooted<S(!new), A(!new), U(!new)>(game: Game<S, A, U>, tuning: Tuning, root: S,
          nodes: seq<Node<S, A, U>>, i: nat, draw: nat)
    requires WellBehaved(game) && AnyFirst(game) && Counted(game, nodes) && i < |nodes| && Ready(game, nodes, i)
    requires Rooted(game, root, nodes)
    ensures Rooted(game, root, PickAt(game, tuning, nodes, i, draw).nodes)
  {
    PickKeepsTree(game, tuning, nodes, i, draw);
    assert NodeFitsAt(game, nodes, i);
    var node := nodes[i];
    var pick := PickAt(game, tuning, nodes, i, draw);
    if !pick.picked.added {
      forall j | 0 <= j < |nodes|
        ensures pick.nodes[j].state == nodes[j].state && pick.nodes[j].choices.children == nodes[j].choices.children
        ensures pick.nodes[j].choices.Chance? <==> nodes[j].choices.Chance?
      {
        assert SameCounts(nodes, pick.nodes, j);
      }
      SameChildrenRooted(game, root, nodes, pick.nodes);
    } else if node.choices.Chance? {
      var action := game.sampleChance(node.state, draw);
      assert ActionAt(game, node.state, draw) == Some(action);
      GrowKeepsRooted(game, root, nodes, i, node.choices, action, pick.nodes);
    } else {
      assert Deciding(game, node.state);
      var (action, untried) := game.next(node.choices.untried, node.state, draw);
      GrowKeepsRooted(game, root, nodes, i, node.choices.(untried := untried), action.value, pick.nodes);
    }
  }

  lemma StuckIsGift<S(!new), A(!new), U(!new)>(game: Game<S, A, U>, tuning: Tuning, root: S,
          nodes: seq<Node<S, A, U>>, i: nat, draw: nat)
    requires WellBehaved(game) && Counted(game, nodes) && i < |nodes| && Ready(game, nodes, i)
    requires Rooted(game, root, nodes) && Stuck(game, tuning, nodes, i, draw)
    ensures GiftReachable(game, root)
  {
    ChildrenThere(game, tuning, nodes, i, draw);
    assert NodeFitsAt(game, nodes, i) && RootedAt(game, root, nodes, i);
    var s, child := nodes[i].state, nodes[i].choices.children[0];
    assert EdgeFits(game, nodes, i, 0) && NodeFitsAt(game, nodes, child.index);
    assert ScoreOf(game, tuning, nodes, i, 0).Lost?;
    var first: nat :| ActionAt(game, s, first) == Some(child.action);
    assert Gift(game, s, first);
  }

  lemma {:induction false} NoGiftNoDeadEnd<S(!new), A(!new), U(!new)>(game: Game<S, A, U>, tuning: Tuning,
          root: S, nodes: seq<Node<S, A, U>>, i: nat, draws: nat -> nat, t: nat)
    requires WellBehaved(game) && AnyFirst(game) && Counted(game, nodes) && i < |nodes|
    requires Rooted(game, root, nodes) && !GiftReachable(game, root)
    ensures !DeadEnd(game, tuning, nodes, i, draws, t)
    decreases |nodes| - i
  {
    CountedIsReady(game, nodes, i);
    PickKeepsTree(game, tuning, nodes, i, draws(t));
    PickGoesDown(game, tuning, nodes, i, draws(t));
    PickKeepsRooted(game, tuning, root, nodes, i, draws(t));
    var pick := PickAt(game, tuning, nodes, i, draws(t));
    if Stuck(game, tuning, nodes, i, draws(t)) {
      StuckIsGift(game, tuning, root, nodes, i, draws(t));
      assert false;
    }
    if !pick.picked.terminal && !pick.picked.added {
      NoGiftNoDeadEnd(game, tuning, root, pick.nodes, pick.picked.index, draws, t + 1);
    }
  }

  lemma ContinuedKeepsRooted<S(!new), A(!new), U(!new)>(game: Game<S, A, U>, tuning: Tuning, root: S,
          sel: Selection<S, A, U>, draw: nat)
    requires WellBehaved(game) && AnyFirst(game) && Sound(game, sel) && Rooted(game, root, sel.nodes)
    ensures Rooted(game, root, Continued(game, tuning, sel, draw).nodes)
  {
    if !sel.done {
      CountedIsReady(game, sel.nodes, Last(sel.path));
      PickKeepsRooted(game, tuning, root, sel.nodes, Last(sel.path), draw);
    }
  }

  lemma {:induction false} RunKeepsRooted<S(!new), A(!new), U(!new)>(game: Game<S, A, U>, tuning: Tuning,
          root: S, run: nat -> Selection<S, A, U>, draws: nat -> nat, n: nat)
    requires WellBehaved(game) && AnyFirst(game) && IsRun(game, tuning, run, draws) && Rooted(game, root, run(0).nodes)
    ensures Rooted(game, root, run(n).nodes)
  {
    if n > 0 {
      RunKeepsRooted(game, tuning, root, run, draws, n - 1);
      assert StepOf(game, tuning, run, draws, n - 1);
      ContinuedKeepsRooted(game, tuning, root, run(n - 1), draws(n - 1));
    }
  }

  lemma IteratedKeepsRooted<S(!new), A(!new), U(!new)>(game: Game<S, A, U>, tuning: Tuning, root: S,
          start: seq<Node<S, A, U>>, draws: nat -> nat, simulation: nat)
    requires WellBehaved(game) && AnyFirst(game) && Counted(game, start) && !DeadEnd(game, tuning, start, 0, draws, 0)
    requires Rooted(game, root, start)
    ensures Rooted(game, root, Iterated(game, tuning, start, draws, simulation))
  {
    var run := SelectingIsRun(game, tuning, start, draws);
    RunKeepsRooted(game, tuning, root, run, draws, |start|);
    assert run(|start|) == Selecting(game, tuning, start, draws, |start|);
    SameChildrenRooted(game, root, Finished(game, tuning, start, draws).nodes, Iterated(game, tuning, start, draws, simulation));
  }

  lemma NextTreeRooted<S(!new), A(!new), U(!new)>(game: Game<S, A, U>, tuning: Tuning, root: S,
          tree: seq<Node<S, A, U>>, draws: nat -> nat, simulation: nat)
    requires WellBehaved(game) && AnyFirst(game) && !GiftReachable(game, root)
    requires Counted(game, tree) && Rooted(game, root, tree)
    ensures var next := NextTree(game, tuning, Some(tree), draws, simulation);
      next.Some? && Rooted(game, root, next.value)
  {
    NoGiftNoDeadEnd(game, tuning, root, tree, 0, draws, 0);
    IteratedKeepsRooted(game, tuning, root, tree, draws, simulation);
  }

  lemma RootIsRooted<S(!new), A(!new), U(!new)>(game: Game<S, A, U>, root: S)
    ensures Rooted(game, root, [NewNode(game, root)])
  {
    assert Reaches(game, root, [root], [], root);
    assert RootedAt(game, root, [NewNode(game, root)], 0);
  }

  lemma {:induction false} NoGiftTrees<S(!new), A(!new), U(!new)>(game: Game<S, A, U>, tuning: Tuning,
          trees: nat -> Option<seq<Node<S, A, U>>>, root: S, draws: nat -> nat -> nat, simulations: nat -> nat,
          n: nat)
    requires WellBehaved(game) && AnyFirst(game) && !GiftReachable(game, root)
    requires IsSearch(game, tuning, trees, root, draws, simulations)
    ensures trees(n).Some? && Rooted(game, root, trees(n).value)
  {
    if n == 0 {
      RootIsRooted(game, root);
    } else {
      NoGiftTrees(game, tuning, trees, root, draws, simulations, n - 1);
      assert TreeStep(game, tuning, trees, draws, simulations, n - 1);
      NextTreeRooted(game, tuning, root, trees(n - 1).value, draws(n - 1), simulations(n - 1));
    }
  }

  lemma NoGiftNextEnds<S(!new), A(!new), U(!new)>(game: Game<S, A, U>, tuning: Tuning, root: S,
          draws: nat -> nat -> nat, simulations: nat -> nat, n: nat)
    requires WellBehaved(game) && AnyFirst(game) && game.good(root) && !GiftReachable(game, root)
    ensures TreeAfter(game, tuning, root, draws, simulations, n).Some?
    ensures NextEnds(game, tuning, root, draws, simulations, n)
  {
    var trees := SearchOf(game, tuning, root, draws, simulations);
    NoGiftTrees(game, tuning, trees, root, draws, simulations, n);
    assert trees(n) == TreeAfter(game, tuning, root, draws, simulations, n);
    NoGiftNoDeadEnd(game, tuning, root, trees(n).value, 0, draws(n), 0);
    EndsWithout(game, tuning, trees(n).value, draws(n));
  }

  lemma NoGiftEnds<S(!new), A(!new), U(!new)>(game: Game<S, A, U>, root: S)
    requires WellBehaved(game) && AnyFirst(game) && game.good(root) && !GiftReachable(game, root)
    ensures EverySearchEnds(game, root)
  {
    forall tuning: Tuning, draws: nat -> nat -> nat, simulations: nat -> nat, n: nat
      ensures NextEnds(game, tuning, root, draws, simulations, n)
    {
      NoGiftNextEnds(game, tuning, root, draws, simulations, n);
    }
  }

  // ------------------------------------------------------------- a gift, and a search

  /** One child for each node, and no bonus. */
  function Narrow(): Tuning {
    Tuning((visits: nat) => 0.0, (parent: nat, child: nat) => 0.0)
  }

  /** Where one is after `n` steps round a ring. */
  function Round(n: nat, size: nat): (place: nat)
    requires size > 0
    ensures place < size
  {
    if n == 0 || Round(n - 1, size) == size - 1 then 0 else Round(n - 1, size) + 1
  }

  lemma {:induction false} FirstRound(n: nat, size: nat)
    requires n < size
    ensures Round(n, size) == n
  {
    if n > 0 {
      FirstRound(n - 1, size);
    }
  }

  /** The same draws down the tree in every iteration, round and round. */
  function Again(draws: seq<nat>): nat -> nat
    requires draws != []
  {
    (t: nat) => draws[Round(t, |draws|)]
  }

  /** A play up to a gift, and its first `k` moves as a tree of one branch. */
  ghost predicate EndsInGift<S(!new), A(!new), U(!new)>(game: Game<S, A, U>, states: seq<S>, draws: seq<nat>) {
    && IsPlay(game, states, draws) && draws != []
    && Gift(game, states[|draws| - 1], draws[|draws| - 1])
  }

  ghost predicate LinkAt<S(!new), A(!new), U(!new)>(game: Game<S, A, U>, states: seq<S>, draws: seq<nat>,
          nodes: seq<Node<S, A, U>>, k: nat, j: nat)
    requires |states| == |draws| + 1 && j <= k < |states| && |nodes| == k + 1
  {
    && nodes[j].state == states[j]
    && if j == k then nodes[j].choices.children == []
       else ActionAt(game, states[j], draws[j]).Some?
            && nodes[j].choices.children == [Child(ActionAt(game, states[j], draws[j]).value, j + 1)]
  }

  ghost predicate IsChain<S(!new), A(!new), U(!new)>(game: Game<S, A, U>, states: seq<S>, draws: seq<nat>,
          nodes: seq<Node<S, A, U>>, k: nat)
    requires |states| == |draws| + 1 && k < |states|
  {
    && Counted(game, nodes) && |nodes| == k + 1
    && forall j :: 0 <= j <= k ==> LinkAt(game, states, draws, nodes, k, j)
  }

  lemma Link<S(!new), A(!new), U(!new)>(game: Game<S, A, U>, states: seq<S>, draws: seq<nat>,
          nodes: seq<Node<S, A, U>>, k: nat, j: nat)
    requires WellBehaved(game) && IsPlay(game, states, draws) && k < |states| && IsChain(game, states, draws, nodes, k)
    requires j <= k && j < |draws|
    ensures Ready(game, nodes, j) && LinkAt(game, states, draws, nodes, k, j) && Moves(game, states[j], draws[j], states[j + 1])
    ensures NodeFitsAt(game, nodes, j) && nodes[j].over.Ongoing?
    ensures j < k ==> NodeFitsAt(game, nodes, j + 1) && nodes[j + 1].state == states[j + 1]
  {
    CountedIsReady(game, nodes, j);
    assert NodeFitsAt(game, nodes, j) && LinkAt(game, states, draws, nodes, k, j);
    if j < k {
      assert NodeFitsAt(game, nodes, j + 1) && LinkAt(game, states, draws, nodes, k, j + 1);
    }
  }

  /** Along the chain a pick goes one node down, or back to the root from the gift, and changes nothing. */
  lemma ChainPick<S(!new), A(!new), U(!new)>(game: Game<S, A, U>, states: seq<S>, draws: seq<nat>,
          nodes: seq<Node<S, A, U>>, k: nat, j: nat)
    requires WellBehaved(game) && EndsInGift(game, states, draws) && k < |states| && IsChain(game, states, draws, nodes, k)
    requires j < k
    ensures Ready(game, nodes, j)
    ensures PickAt(game, Narrow(), nodes, j, draws[j])
         == Pick(Picked(if j == |draws| - 1 then 0 else j + 1, false, false), nodes)
    ensures Stuck(game, Narrow(), nodes, j, draws[j]) ==> j == |draws| - 1
  {
    Link(game, states, draws, nodes, k, j);
    if nodes[j].choices.Decision? {
      assert !MayWiden(Narrow(), nodes[j]);
      OneChild(game, nodes, j);
      if j < |draws| - 1 {
        assert Moves(game, states[j + 1], draws[j + 1], states[j + 2]);
      }
    }
  }

  /** An only child is the best unless it is lost. */
  lemma OneChild<S(!new), A(!new), U(!new)>(game: Game<S, A, U>, nodes: seq<Node<S, A, U>>, i: nat)
    requires i < |nodes| && Rateable(game, nodes, i) && |nodes[i].choices.children| == 1
    ensures Down(game, Narrow(), nodes, i)
         == Picked(if ScoreOf(game, Narrow(), nodes, i, 0).Lost? then 0 else nodes[i].choices.children[0].index, false, false)
  {
    assert BestChild(game, Narrow(), nodes, i, 0) == -1;
  }

  /** At its end it grows by one. */
  lemma ChainGrows<S(!new), A(!new), U(!new)>(game: Game<S, A, U>, states: seq<S>, draws: seq<nat>,
          nodes: seq<Node<S, A, U>>, k: nat)
    requires WellBehaved(game) && EndsInGift(game, states, draws) && k < |draws| && IsChain(game, states, draws, nodes, k)
    ensures Ready(game, nodes, k)
    ensures var pick := PickAt(game, Narrow(), nodes, k, draws[k]);
      && pick.picked == Picked(k + 1, true, false) && |pick.nodes| == k + 2
      && (forall j :: 0 <= j < k ==> pick.nodes[j] == nodes[j])
      && pick.nodes[k].state == states[k] && pick.nodes[k + 1].state == states[k + 1]
      && pick.nodes[k].choices.children == [Child(ActionAt(game, states[k], draws[k]).value, k + 1)]
      && pick.nodes[k + 1].choices.children == []
  {
    Link(game, states, draws, nodes, k, k);
    if nodes[k].choices.Decision? {
      assert Deciding(game, nodes[k].state);
    }
  }

  lemma {:induction false} ChainIsClear<S(!new), A(!new), U(!new)>(game: Game<S, A, U>, states: seq<S>,
          draws: seq<nat>, nodes: seq<Node<S, A, U>>, k: nat, j: nat)
    requires WellBehaved(game) && EndsInGift(game, states, draws) && k < |draws| && IsChain(game, states, draws, nodes, k)
    requires j <= k
    ensures !DeadEnd(game, Narrow(), nodes, j, Again(draws), j)
    decreases k - j
  {
    FirstRound(j, |draws|);
    if j == k {
      ChainGrows(game, states, draws, nodes, k);
    } else {
      ChainPick(game, states, draws, nodes, k, j);
      ChainIsClear(game, states, draws, nodes, k, j + 1);
    }
  }

  /** A selection that stands at node `j` of a tree that has not changed. */
  ghost predicate StandsAt<S, A, U>(nodes: seq<Node<S, A, U>>, sel: Selection<S, A, U>, j: nat) {
    sel.nodes == nodes && !sel.done && sel.path != [] && Last(sel.path) == j
  }

  lemma ChainStep<S(!new), A(!new), U(!new)>(game: Game<S, A, U>, states: seq<S>, draws: seq<nat>,
          nodes: seq<Node<S, A, U>>, k: nat, sel: Selection<S, A, U>, j: nat)
    requires WellBehaved(game) && EndsInGift(game, states, draws) && k < |states| && IsChain(game, states, draws, nodes, k)
    requires Sound(game, sel) && StandsAt(nodes, sel, j) && j < k
    ensures StandsAt(nodes, Continued(game, Narrow(), sel, draws[j]), if j == |draws| - 1 then 0 else j + 1)
  {
    ChainPick(game, states, draws, nodes, k, j);
  }

  lemma ChainNextPick<S(!new), A(!new), U(!new)>(game: Game<S, A, U>, states: seq<S>, draws: seq<nat>,
          nodes: seq<Node<S, A, U>>, k: nat, run: nat -> Selection<S, A, U>, n: nat, j: nat)
    requires WellBehaved(game) && EndsInGift(game, states, draws) && k < |states| && IsChain(game, states, draws, nodes, k)
    requires IsRun(game, Narrow(), run, Again(draws)) && j == Round(n, |draws|) && j < k
    requires StandsAt(nodes, run(n), j)
    ensures StandsAt(nodes, run(n + 1), Round(n + 1, |draws|))
  {
    assert StepOf(game, Narrow(), run, Again(draws), n);
    ChainStep(game, states, draws, nodes, k, run(n), j);
  }

  lemma {:induction false} ChainPicks<S(!new), A(!new), U(!new)>(game: Game<S, A, U>, states: seq<S>,
          draws: seq<nat>, nodes: seq<Node<S, A, U>>, k: nat, run: nat -> Selection<S, A, U>, n: nat)
    requires WellBehaved(game) && EndsInGift(game, states, draws) && k < |draws| && IsChain(game, states, draws, nodes, k)
    requires IsRun(game, Narrow(), run, Again(draws)) && run(0) == Selection(nodes, [0], false) && n <= k
    ensures StandsAt(nodes, run(n), n)
  {
    if n > 0 {
      ChainPicks(game, states, draws, nodes, k, run, n - 1);
      FirstRound(n - 1, |draws|);
      FirstRound(n, |draws|);
      ChainNextPick(game, states, draws, nodes, k, run, n - 1, n - 1);
    }
  }

  lemma ChainEnds<S(!new), A(!new), U(!new)>(game: Game<S, A, U>, states: seq<S>, draws: seq<nat>,
          nodes: seq<Node<S, A, U>>, k: nat, sel: Selection<S, A, U>)
    requires WellBehaved(game) && EndsInGift(game, states, draws) && k < |draws| && IsChain(game, states, draws, nodes, k)
    requires Sound(game, sel) && StandsAt(nodes, sel, k)
    ensures Ready(game, nodes, k)
    ensures Continued(game, Narrow(), sel, draws[k]).nodes == PickAt(game, Narrow(), nodes, k, draws[k]).nodes
  {
    ChainGrows(game, states, draws, nodes, k);
  }

  lemma ChainFinished<S(!new), A(!new), U(!new)>(game: Game<S, A, U>, states: seq<S>, draws: seq<nat>,
          nodes: seq<Node<S, A, U>>, k: nat)
    requires WellBehaved(game) && EndsInGift(game, states, draws) && k < |draws| && IsChain(game, states, draws, nodes, k)
    ensures Ready(game, nodes, k)
    ensures Selecting(game, Narrow(), nodes, Again(draws), k + 1).nodes == PickAt(game, Narrow(), nodes, k, draws[k]).nodes
  {
    var run := SelectingIsRun(game, Narrow(), nodes, Again(draws));
    ChainPicks(game, states, draws, nodes, k, run, k);
    assert StepOf(game, Narrow(), run, Again(draws), k);
    FirstRound(k, |draws|);
    ChainEnds(game, states, draws, nodes, k, run(k));
    assert run(k + 1) == Selecting(game, Narrow(), nodes, Again(draws), k + 1);
  }

  /** The iteration from a chain gives the chain that is one longer. */
  lemma ChainIterates<S(!new), A(!new), U(!new)>(game: Game<S, A, U>, states: seq<S>, draws: seq<nat>,
          nodes: seq<Node<S, A, U>>, k: nat, simulation: nat)
    requires WellBehaved(game) && EndsInGift(game, states, draws) && k < |draws| && IsChain(game, states, draws, nodes, k)
    ensures !DeadEnd(game, Narrow(), nodes, 0, Again(draws), 0)
    ensures IsChain(game, states, draws, Iterated(game, Narrow(), nodes, Again(draws), simulation), k + 1)
  {
    ChainIsClear(game, states, draws, nodes, k, 0);
    ChainFinished(game, states, draws, nodes, k);
    ChainGrows(game, states, draws, nodes, k);
    Link(game, states, draws, nodes, k, k);
    ChainOneLonger(game, states, draws, nodes, k, PickAt(game, Narrow(), nodes, k, draws[k]).nodes,
                   Iterated(game, Narrow(), nodes, Again(draws), simulation));
  }

  lemma ChainOneLonger<S(!new), A(!new), U(!new)>(game: Game<S, A, U>, states: seq<S>, draws: seq<nat>,
          nodes: seq<Node<S, A, U>>, k: nat, grown: seq<Node<S, A, U>>, after: seq<Node<S, A, U>>)
    requires WellBehaved(game) && IsPlay(game, states, draws) && k < |draws| && IsChain(game, states, draws, nodes, k)
    requires Counted(game, after) && |grown| == |after| == k + 2
    requires forall j :: 0 <= j < |after| ==>
      after[j].state == grown[j].state && after[j].choices.children == grown[j].choices.children
    requires forall j :: 0 <= j < k ==> grown[j] == nodes[j]
    requires grown[k].state == states[k] && grown[k + 1].state == states[k + 1] && grown[k + 1].choices.children == []
    requires ActionAt(game, states[k], draws[k]).Some?
    requires grown[k].choices.children == [Child(ActionAt(game, states[k], draws[k]).value, k + 1)]
    ensures IsChain(game, states, draws, after, k + 1)
  {
    forall j {:trigger LinkAt(game, states, draws, after, k + 1, j)} | 0 <= j <= k + 1
      ensures LinkAt(game, states, draws, after, k + 1, j)
    {
      if j < k {
        assert LinkAt(game, states, draws, nodes, k, j);
      }
    }
  }

  function Always(draws: seq<nat>): nat -> nat -> nat
    requires draws != []
  {
    (i: nat) => Again(draws)
  }

  lemma RootIsChain<S(!new), A(!new), U(!new)>(game: Game<S, A, U>, states: seq<S>, draws: seq<nat>)
    requires WellBehaved(game) && EndsInGift(game, states, draws) && game.good(states[0])
    ensures IsChain(game, states, draws, [NewNode(game, states[0])], 0)
  {
    RootIsCounted(game, states[0]);
    assert LinkAt(game, states, draws, [NewNode(game, states[0])], 0, 0);
  }

  lemma ChainTree<S(!new), A(!new), U(!new)>(game: Game<S, A, U>, states: seq<S>, draws: seq<nat>,
          tree: seq<Node<S, A, U>>, simulation: nat, k: nat)
    requires WellBehaved(game) && EndsInGift(game, states, draws) && k < |draws| && IsChain(game, states, draws, tree, k)
    ensures var next := NextTree(game, Narrow(), Some(tree), Again(draws), simulation);
      next.Some? && IsChain(game, states, draws, next.value, k + 1)
  {
    ChainIterates(game, states, draws, tree, k, simulation);
  }

  lemma ChainNext<S(!new), A(!new), U(!new)>(game: Game<S, A, U>, states: seq<S>, draws: seq<nat>,
          trees: nat -> Option<seq<Node<S, A, U>>>, simulations: nat -> nat, n: nat)
    requires WellBehaved(game) && EndsInGift(game, states, draws) && n < |draws|
    requires IsSearch(game, Narrow(), trees, states[0], Always(draws), simulations)
    requires trees(n).Some? && IsChain(game, states, draws, trees(n).value, n)
    ensures trees(n + 1).Some? && IsChain(game, states, draws, trees(n + 1).value, n + 1)
  {
    ChainTree(game, states, draws, trees(n).value, simulations(n), n);
    assert TreeStep(game, Narrow(), trees, Always(draws), simulations, n);
    assert Always(draws)(n) == Again(draws);
  }

  lemma {:induction false} ChainAfter<S(!new), A(!new), U(!new)>(game: Game<S, A, U>, states: seq<S>,
          draws: seq<nat>, trees: nat -> Option<seq<Node<S, A, U>>>, simulations: nat -> nat, n: nat)
    requires WellBehaved(game) && EndsInGift(game, states, draws) && game.good(states[0]) && n <= |draws|
    requires IsSearch(game, Narrow(), trees, states[0], Always(draws), simulations)
    ensures trees(n).Some? && IsChain(game, states, draws, trees(n).value, n)
  {
    if n == 0 {
      RootIsChain(game, states, draws);
    } else {
      ChainAfter(game, states, draws, trees, simulations, n - 1);
      ChainNext(game, states, draws, trees, simulations, n - 1);
    }
  }

  /** On the whole chain the picks go round for ever. */
  lemma {:induction false} ChainHangs<S(!new), A(!new), U(!new)>(game: Game<S, A, U>, states: seq<S>,
          draws: seq<nat>, nodes: seq<Node<S, A, U>>, run: nat -> Selection<S, A, U>, n: nat)
    requires WellBehaved(game) && EndsInGift(game, states, draws) && IsChain(game, states, draws, nodes, |draws|)
    requires IsRun(game, Narrow(), run, Again(draws)) && run(0) == Selection(nodes, [0], false)
    ensures StandsAt(nodes, run(n), Round(n, |draws|))
  {
    if n > 0 {
      ChainHangs(game, states, draws, nodes, run, n - 1);
      ChainNextPick(game, states, draws, nodes, |draws|, run, n - 1, Round(n - 1, |draws|));
    }
  }

  lemma ChainNeverEnds<S(!new), A(!new), U(!new)>(game: Game<S, A, U>, states: seq<S>, draws: seq<nat>,
          nodes: seq<Node<S, A, U>>)
    requires WellBehaved(game) && EndsInGift(game, states, draws) && IsChain(game, states, draws, nodes, |draws|)
    ensures !Ends(game, Narrow(), nodes, Again(draws))
  {
    var run := SelectingIsRun(game, Narrow(), nodes, Again(draws));
    forall n: nat
      ensures !Selecting(game, Narrow(), nodes, Again(draws), n).done
    {
      ChainHangs(game, states, draws, nodes, run, n);
      assert run(n) == Selecting(game, Narrow(), nodes, Again(draws), n);
    }
  }

  lemma GiftPlay<S(!new), A(!new), U(!new)>(game: Game<S, A, U>, root: S) returns (states: seq<S>, draws: seq<nat>)
    requires GiftReachable(game, root)
    ensures EndsInGift(game, states, draws) && states[0] == root
  {
    var s: S, draw: nat :| Reachable(game, root, s) && Gift(game, s, draw);
    var before: seq<S>, drawn: seq<nat> :| Reaches(game, root, before, drawn, s);
    states, draws := before + [game.apply(s, ActionAt(game, s, draw).value)], drawn + [draw];
    forall i | 0 <= i < |draws|
      ensures Moves(game, states[i], draws[i], states[i + 1])
    {
      if i < |drawn| {
        assert Moves(game, before[i], drawn[i], before[i + 1]);
      }
    }
  }

  lemma GiftHangs<S(!new), A(!new), U(!new)>(game: Game<S, A, U>, root: S)
    requires WellBehaved(game) && game.good(root) && GiftReachable(game, root)
    ensures !EverySearchEnds(game, root)
  {
    var states, draws := GiftPlay(game, root);
    var simulations: nat -> nat := (i: nat) => 0;
    var trees := SearchOf(game, Narrow(), root, Always(draws), simulations);
    ChainAfter(game, states, draws, trees, simulations, |draws|);
    ChainNeverEnds(game, states, draws, trees(|draws|).value);
    assert trees(|draws|) == TreeAfter(game, Narrow(), root, Always(draws), simulations, |draws|);
    assert Always(draws)(|draws|) == Again(draws);
    assert !NextEnds(game, Narrow(), root, Always(draws), simulations, |draws|);
  }

  /**
   Every search from `root` ends, however it is tuned and whatever is drawn, if and only if no
   position reachable from there has a move that makes another player win; chance nodes included.
   */
  lemma SearchEndsExactly<S(!new), A(!new), U(!new)>(game: Game<S, A, U>, root: S)
    requires WellBehaved(game) && AnyFirst(game) && game.good(root)
    ensures EverySearchEnds(game, root) <==> !GiftReachable(game, root)
  {
    if GiftReachable(game, root) {
      GiftHangs(game, root);
    } else {
      NoGiftEnds(game, root);
    }
  }
}
