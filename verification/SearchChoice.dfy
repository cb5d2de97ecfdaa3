/**
 What one pick and one iteration do to the tree, said of visits, totals and outcomes: which child
 is gone to, when a node gets another one, and what a playout leaves behind.
 */
module SearchChoice {
  import opened Options
  import opened SearchTree

  // ------------------------------------------------------------------- which child is gone to

  /** What a child is worth to the player who decides: nothing if drawn, else its mean value and its bonus. */
  function Worth<S(!new), A(!new), U(!new)>(game: Game<S, A, U>, tuning: Tuning, nodes: seq<Node<S, A, U>>,
          i: nat, k: nat): real
    requires i < |nodes| && Rateable(game, nodes, i) && k < |nodes[i].choices.children|
  {
    var child := nodes[nodes[i].choices.children[k].index];
    if child.over.Draw? then 0.0
    else child.total[game.mover(nodes[i].state)] / child.visits as real + tuning.bonus(nodes[i].visits, child.visits)
  }

  /** Child `k` ends play, and the player who decides has won. */
  predicate WonAt<S(!new), A(!new), U(!new)>(game: Game<S, A, U>, nodes: seq<Node<S, A, U>>, i: nat, k: nat)
    requires i < |nodes| && k < |nodes[i].choices.children| && nodes[i].choices.children[k].index < |nodes|
  {
    nodes[nodes[i].choices.children[k].index].over == Win(game.mover(nodes[i].state))
  }

  /** Child `k` ends play, and somebody else has won. */
  predicate LostAt<S(!new), A(!new), U(!new)>(game: Game<S, A, U>, nodes: seq<Node<S, A, U>>, i: nat, k: nat)
    requires i < |nodes| && k < |nodes[i].choices.children| && nodes[i].choices.children[k].index < |nodes|
  {
    var over := nodes[nodes[i].choices.children[k].index].over;
    over.Win? && over.player != game.mover(nodes[i].state)
  }

  /** The first won child; or, with none won, of those not lost one of the greatest worth, the first of equal ones. */
  ghost predicate Preferred<S(!new), A(!new), U(!new)>(game: Game<S, A, U>, tuning: Tuning,
          nodes: seq<Node<S, A, U>>, i: nat, k: nat)
    requires i < |nodes| && Rateable(game, nodes, i) && k < |nodes[i].choices.children|
  {
    var n := |nodes[i].choices.children|;
    if WonAt(game, nodes, i, k) then forall j :: 0 <= j < k ==> !WonAt(game, nodes, i, j)
    else
      && !LostAt(game, nodes, i, k)
      && forall j :: 0 <= j < n ==>
           && !WonAt(game, nodes, i, j)
           && (!LostAt(game, nodes, i, j) ==> Worth(game, tuning, nodes, i, j) <= Worth(game, tuning, nodes, i, k))
           && (!LostAt(game, nodes, i, j) && j < k ==> Worth(game, tuning, nodes, i, j) < Worth(game, tuning, nodes, i, k))
  }

  /** Going down from node `i` leads to `index`: to the preferred child, or to the root if all are lost. */
  ghost predicate LeadsDown<S(!new), A(!new), U(!new)>(game: Game<S, A, U>, tuning: Tuning,
          nodes: seq<Node<S, A, U>>, i: nat, index: nat)
    requires i < |nodes| && Rateable(game, nodes, i)
  {
    var children := nodes[i].choices.children;
    if forall k :: 0 <= k < |children| ==> LostAt(game, nodes, i, k) then index == 0
    else exists k :: 0 <= k < |children| && index == children[k].index && Preferred(game, tuning, nodes, i, k)
  }

  lemma ScoreIsWorth<S(!new), A(!new), U(!new)>(game: Game<S, A, U>, tuning: Tuning, nodes: seq<Node<S, A, U>>,
          i: nat, k: nat)
    requires i < |nodes| && Rateable(game, nodes, i) && k < |nodes[i].choices.children|
    ensures var score := ScoreOf(game, tuning, nodes, i, k);
      && (score.Won? <==> WonAt(game, nodes, i, k)) && (score.Lost? <==> LostAt(game, nodes, i, k))
      && (score.Rated? ==> score.value == Worth(game, tuning, nodes, i, k))
  {
  }

  lemma DownIsPreferred<S(!new), A(!new), U(!new)>(game: Game<S, A, U>, tuning: Tuning, nodes: seq<Node<S, A, U>>,
          i: nat)
    requires i < |nodes| && Rateable(game, nodes, i)
    ensures LeadsDown(game, tuning, nodes, i, Down(game, tuning, nodes, i).index)
  {
    var n := |nodes[i].choices.children|;
    var best := BestChild(game, tuning, nodes, i, n);
    BestChildIsBest(game, tuning, nodes, i, n);
    forall k | 0 <= k < n
      ensures var score := ScoreOf(game, tuning, nodes, i, k);
        && (score.Won? <==> WonAt(game, nodes, i, k)) && (score.Lost? <==> LostAt(game, nodes, i, k))
        && (score.Rated? ==> score.value == Worth(game, tuning, nodes, i, k))
    {
      ScoreIsWorth(game, tuning, nodes, i, k);
    }
    if best >= 0 {
      BestIsPreferred(game, tuning, nodes, i, best);
    }
  }

  lemma BestIsPreferred<S(!new), A(!new), U(!new)>(game: Game<S, A, U>, tuning: Tuning, nodes: seq<Node<S, A, U>>,
          i: nat, best: nat)
    requires i < |nodes| && Rateable(game, nodes, i)
    requires best == BestChild(game, tuning, nodes, i, |nodes[i].choices.children|)
    ensures !LostAt(game, nodes, i, best) && Preferred(game, tuning, nodes, i, best)
  {
    var n := |nodes[i].choices.children|;
    BestChildIsBest(game, tuning, nodes, i, n);
    ScoreIsWorth(game, tuning, nodes, i, best);
    var score := ScoreOf(game, tuning, nodes, i, best);
    forall j | 0 <= j < n
      ensures WonAt(game, nodes, i, j) ==> score.Won? && best <= j
      ensures !LostAt(game, nodes, i, j) && !score.Won? ==>
        && Worth(game, tuning, nodes, i, j) <= Worth(game, tuning, nodes, i, best)
        && (j < best ==> Worth(game, tuning, nodes, i, j) < Worth(game, tuning, nodes, i, best))
    {
      ScoreIsWorth(game, tuning, nodes, i, j);
      assert !Beats(ScoreOf(game, tuning, nodes, i, j), score);
    }
  }

  lemma WonIsNotLost<S(!new), A(!new), U(!new)>(game: Game<S, A, U>, nodes: seq<Node<S, A, U>>, i: nat, k: nat)
    requires i < |nodes| && k < |nodes[i].choices.children| && nodes[i].choices.children[k].index < |nodes|
    ensures WonAt(game, nodes, i, k) ==> !LostAt(game, nodes, i, k)
  {
  }

  /** There is at most one child to prefer. */
  lemma PreferredIsOne<S(!new), A(!new), U(!new)>(game: Game<S, A, U>, tuning: Tuning, nodes: seq<Node<S, A, U>>,
          i: nat, j: nat, k: nat)
    requires i < |nodes| && Rateable(game, nodes, i)
    requires j < |nodes[i].choices.children| && k < |nodes[i].choices.children|
    requires Preferred(game, tuning, nodes, i, j) && Preferred(game, tuning, nodes, i, k)
    ensures j == k
  {
    WonIsNotLost(game, nodes, i, j);
    WonIsNotLost(game, nodes, i, k);
  }

  lemma MeansCompare(a: real, b: real, visits: nat)
    requires visits > 0
    ensures a / visits as real < b / visits as real <==> a < b
  {
    var v := visits as real;
    assert a == (a / v) * v && b == (b / v) * v;
    if a / v < b / v {
      assert (a / v) * v < (b / v) * v;
    } else {
      assert (a / v) * v >= (b / v) * v;
    }
  }

  /** Children that play goes on in: as often visited, the one with the larger total is preferred; as good on average, the one with the larger bonus. */
  lemma PreferredIsGoodForTheMover<S(!new), A(!new), U(!new)>(game: Game<S, A, U>, tuning: Tuning,
          nodes: seq<Node<S, A, U>>, i: nat, j: nat, k: nat)
    requires i < |nodes| && Rateable(game, nodes, i)
    requires j < |nodes[i].choices.children| && k < |nodes[i].choices.children|
    requires Preferred(game, tuning, nodes, i, k)
    requires nodes[nodes[i].choices.children[j].index].over.Ongoing? && nodes[nodes[i].choices.children[k].index].over.Ongoing?
    ensures var mover := game.mover(nodes[i].state);
      var a, b := nodes[nodes[i].choices.children[j].index], nodes[nodes[i].choices.children[k].index];
      var extra := (node: Node<S, A, U>) => tuning.bonus(nodes[i].visits, node.visits);
      && (a.visits == b.visits ==> a.total[mover] <= b.total[mover] && (j < k ==> a.total[mover] < b.total[mover]))
      && (a.total[mover] / a.visits as real == b.total[mover] / b.visits as real ==>
            extra(a) <= extra(b) && (j < k ==> extra(a) < extra(b)))
  {
    var mover := game.mover(nodes[i].state);
    var a, b := nodes[nodes[i].choices.children[j].index], nodes[nodes[i].choices.children[k].index];
    assert !LostAt(game, nodes, i, j);
    MeansCompare(a.total[mover], b.total[mover], a.visits);
    MeansCompare(b.total[mover], a.total[mover], a.visits);
  }

  /** Against a drawn child, one that play goes on in is preferred only from 0 up, and passed over only from 0 down. */
  lemma DrawsAreWorthNothing<S(!new), A(!new), U(!new)>(game: Game<S, A, U>, tuning: Tuning,
          nodes: seq<Node<S, A, U>>, i: nat, j: nat, k: nat)
    requires i < |nodes| && Rateable(game, nodes, i)
    requires j < |nodes[i].choices.children| && k < |nodes[i].choices.children|
    requires nodes[nodes[i].choices.children[j].index].over.Ongoing? && nodes[nodes[i].choices.children[k].index].over.Draw?
    ensures var node := nodes[nodes[i].choices.children[j].index];
      var worth := node.total[game.mover(nodes[i].state)] / node.visits as real + tuning.bonus(nodes[i].visits, node.visits);
      && (Preferred(game, tuning, nodes, i, j) ==> worth >= 0.0)
      && (Preferred(game, tuning, nodes, i, k) ==> worth <= 0.0)
  {
    assert !LostAt(game, nodes, i, j) && !LostAt(game, nodes, i, k);
    assert !WonAt(game, nodes, i, j) && !WonAt(game, nodes, i, k);
  }

  // ------------------------------------------------------------------- when a node gets another child

  /** What was rolled has not been rolled here before; or the node may widen, and its generator has an action left. */
  ghost predicate Expands<S(!new), A(!new), U(!new)>(game: Game<S, A, U>, tuning: Tuning, node: Node<S, A, U>, draw: nat) {
    match node.choices
    case Chance(children) => forall k :: 0 <= k < |children| ==> children[k].action != game.sampleChance(node.state, draw)
    case Decision(untried, exhausted, children) =>
      && !exhausted && (children == [] || |children| as real < tuning.limit(node.visits))
      && game.next(untried, node.state, draw).0.Some?
  }

  /** Node `i` has one more child, which nobody has visited; all else is as it was. */
  ghost predicate HasNewChild<S(!new), A(!new), U(!new)>(game: Game<S, A, U>, nodes: seq<Node<S, A, U>>, i: nat,
          draw: nat, after: seq<Node<S, A, U>>)
    requires i < |nodes|
  {
    var node := nodes[i];
    var action := if node.choices.Chance? then Some(game.sampleChance(node.state, draw))
                  else game.next(node.choices.untried, node.state, draw).0;
    && action.Some? && |after| == |nodes| + 1
    && (forall j :: 0 <= j < |nodes| && j != i ==> after[j] == nodes[j])
    && after[i].(choices := node.choices) == node
    && after[i].choices.children == node.choices.children + [Child(action.value, |nodes|)]
    && (node.choices.Chance? <==> after[i].choices.Chance?)
    && (node.choices.Decision? ==>
          !after[i].choices.exhausted && after[i].choices.untried == game.next(node.choices.untried, node.state, draw).1)
    && var child := after[|nodes|];
    && child.visits == 0 && |child.total| == game.players && (forall p :: 0 <= p < game.players ==> child.total[p] == 0.0)
    && child.state == game.apply(node.state, action.value) && child.over == game.outcome(child.state)
    && child.choices.children == [] && (child.choices.Chance? <==> game.isChance(child.state))
    && (child.choices.Decision? ==> !child.choices.exhausted && child.choices.untried == game.propose(child.state))
  }

  /** The only change, if any: node `i` has found its generator to have no more. */
  ghost predicate OnlyExhausted<S(!new), A(!new), U(!new)>(game: Game<S, A, U>, tuning: Tuning,
          nodes: seq<Node<S, A, U>>, i: nat, draw: nat, after: seq<Node<S, A, U>>)
    requires i < |nodes| && nodes[i].choices.Decision?
  {
    var (node, choices) := (nodes[i], nodes[i].choices);
    && |after| == |nodes| && (forall j :: 0 <= j < |nodes| && j != i ==> after[j] == nodes[j])
    && if choices.exhausted || (choices.children != [] && |choices.children| as real >= tuning.limit(node.visits)) then after[i] == node
       else after[i] == node.(choices := Decision(game.next(choices.untried, node.state, draw).1, true, choices.children))
  }

  /** A pick stops where play has ended; adds a child where it can; follows the roll; or goes down to the preferred child. */
  lemma PickTells<S(!new), A(!new), U(!new)>(game: Game<S, A, U>, tuning: Tuning, nodes: seq<Node<S, A, U>>,
          i: nat, draw: nat)
    requires Ready(game, nodes, i)
    ensures var pick := PickAt(game, tuning, nodes, i, draw);
      && (pick.picked.terminal <==> !nodes[i].over.Ongoing?)
      && (pick.picked.terminal ==> pick.picked == Picked(i, false, true) && pick.nodes == nodes)
      && (!pick.picked.terminal ==>
            (pick.picked.added <==> Expands(game, tuning, nodes[i], draw)))
      && (pick.picked.added ==> pick.picked.index == |nodes| && HasNewChild(game, nodes, i, draw, pick.nodes))
      && (!pick.picked.terminal && !pick.picked.added ==>
            match nodes[i].choices
            case Chance(children) =>
              && pick.nodes == nodes
              && (exists k :: 0 <= k < |children| && children[k] == Child(game.sampleChance(nodes[i].state, draw), pick.picked.index))
            case Decision(_, _, _) =>
              && OnlyExhausted(game, tuning, nodes, i, draw, pick.nodes)
              && LeadsDown(game, tuning, nodes, i, pick.picked.index))
  {
    var node := nodes[i];
    var pick := PickAt(game, tuning, nodes, i, draw);
    if node.over.Ongoing? {
      if node.choices.Decision? {
        DownIsPreferred(game, tuning, nodes, i);
      } else {
        var k := FindAction(node.choices.children, game.sampleChance(node.state, draw));
        if k < |node.choices.children| {
          assert node.choices.children[k] == Child(game.sampleChance(node.state, draw), pick.picked.index);
        }
      }
    }
  }
}
