/**
 A search that descends, grows, plays out and counts, again and again: which selections end,
 what every iteration keeps, and what the answer has behind it.
 */
module TreeSearch {
  import opened Options
  import opened SearchTree
  import opened SearchChoice

  // ------------------------------------------------------------------------ selection

  /** The tree and the path some picks into a selection. */
  datatype Selection<S, A, U> = Selection(nodes: seq<Node<S, A, U>>, path: seq<nat>, done: bool)

  function Last(path: seq<nat>): nat
    requires path != []
  {
    path[|path| - 1]
  }

  /** A selection under way ends its path at a node of a tree between iterations. */
  ghost predicate Sound<S(!new), A(!new), U(!new)>(game: Game<S, A, U>, sel: Selection<S, A, U>) {
    sel.path != [] && (!sel.done ==> Counted(game, sel.nodes) && Last(sel.path) < |sel.nodes|)
  }

  /** One more pick, where the path ends. */
  ghost function Continued<S(!new), A(!new), U(!new)>(game: Game<S, A, U>, tuning: Tuning,
          sel: Selection<S, A, U>, draw: nat): (after: Selection<S, A, U>)
    requires WellBehaved(game) && Sound(game, sel)
    ensures Sound(game, after)
  {
    if sel.done then sel
    else
      var i := Last(sel.path);
      CountedIsReady(game, sel.nodes, i);
      PickKeepsTree(game, tuning, sel.nodes, i, draw);
      PickGoesDown(game, tuning, sel.nodes, i, draw);
      var pick := PickAt(game, tuning, sel.nodes, i, draw);
      if pick.picked.terminal then Selection(pick.nodes, sel.path, true)
      else Selection(pick.nodes, sel.path + [pick.picked.index], pick.picked.added)
  }

  /** The first `n` picks of a selection, or all there were. */
  ghost function Selecting<S(!new), A(!new), U(!new)>(game: Game<S, A, U>, tuning: Tuning,
          nodes: seq<Node<S, A, U>>, draws: nat -> nat, n: nat): (sel: Selection<S, A, U>)
    requires WellBehaved(game) && Counted(game, nodes)
    ensures Sound(game, sel)
  {
    if n == 0 then Selection(nodes, [0], false)
    else Continued(game, tuning, Selecting(game, tuning, nodes, draws, n - 1), draws(n - 1))
  }

  ghost predicate Ends<S(!new), A(!new), U(!new)>(game: Game<S, A, U>, tuning: Tuning,
          nodes: seq<Node<S, A, U>>, draws: nat -> nat)
    requires WellBehaved(game) && Counted(game, nodes)
  {
    exists n: nat :: Selecting(game, tuning, nodes, draws, n).done
  }

  /** Pick `n` of a run. */
  ghost predicate StepOf<S(!new), A(!new), U(!new)>(game: Game<S, A, U>, tuning: Tuning,
          run: nat -> Selection<S, A, U>, draws: nat -> nat, n: nat)
    requires WellBehaved(game)
  {
    Sound(game, run(n)) && run(n + 1) == Continued(game, tuning, run(n), draws(n))
  }

  ghost predicate IsRun<S(!new), A(!new), U(!new)>(game: Game<S, A, U>, tuning: Tuning,
          run: nat -> Selection<S, A, U>, draws: nat -> nat)
    requires WellBehaved(game)
  {
    forall n: nat :: StepOf(game, tuning, run, draws, n)
  }

  lemma SelectingIsRun<S(!new), A(!new), U(!new)>(game: Game<S, A, U>, tuning: Tuning,
          nodes: seq<Node<S, A, U>>, draws: nat -> nat) returns (run: nat -> Selection<S, A, U>)
    requires WellBehaved(game) && Counted(game, nodes)
    ensures IsRun(game, tuning, run, draws) && run(0) == Selection(nodes, [0], false)
    ensures forall n: nat :: run(n) == Selecting(game, tuning, nodes, draws, n)
  {
    run := (n: nat) => Selecting(game, tuning, nodes, draws, n);
  }

  /** The walk down from `i` comes to a node with nothing to add and only lost children. */
  ghost predicate DeadEnd<S(!new), A(!new), U(!new)>(game: Game<S, A, U>, tuning: Tuning,
          nodes: seq<Node<S, A, U>>, i: nat, draws: nat -> nat, t: nat)
    requires WellBehaved(game) && Counted(game, nodes) && i < |nodes|
    decreases |nodes| - i
  {
    CountedIsReady(game, nodes, i);
    PickKeepsTree(game, tuning, nodes, i, draws(t));
    PickGoesDown(game, tuning, nodes, i, draws(t));
    var pick := PickAt(game, tuning, nodes, i, draws(t));
    if pick.picked.terminal || pick.picked.added then false
    else Stuck(game, tuning, nodes, i, draws(t)) || DeadEnd(game, tuning, pick.nodes, pick.picked.index, draws, t + 1)
  }

  /** Without a dead end ahead the next pick ends the selection or goes down, still without one ahead. */
  lemma GoesOn<S(!new), A(!new), U(!new)>(game: Game<S, A, U>, tuning: Tuning, sel: Selection<S, A, U>,
          after: Selection<S, A, U>, draws: nat -> nat, n: nat)
    requires WellBehaved(game) && Sound(game, sel) && !sel.done && after == Continued(game, tuning, sel, draws(n))
    requires !DeadEnd(game, tuning, sel.nodes, Last(sel.path), draws, n)
    ensures !after.done ==>
      && |after.nodes| == |sel.nodes| && Last(sel.path) < Last(after.path)
      && !DeadEnd(game, tuning, after.nodes, Last(after.path), draws, n + 1)
  {
    CountedIsReady(game, sel.nodes, Last(sel.path));
    PickKeepsTree(game, tuning, sel.nodes, Last(sel.path), draws(n));
    PickGoesDown(game, tuning, sel.nodes, Last(sel.path), draws(n));
  }

  /** Without a dead end ahead, a selection ends within as many picks as there are nodes below. */
  lemma {:induction false} EndsFrom<S(!new), A(!new), U(!new)>(game: Game<S, A, U>, tuning: Tuning,
          run: nat -> Selection<S, A, U>, draws: nat -> nat, n: nat) returns (m: nat)
    requires WellBehaved(game) && IsRun(game, tuning, run, draws) && Sound(game, run(n)) && !run(n).done
    requires !DeadEnd(game, tuning, run(n).nodes, Last(run(n).path), draws, n)
    ensures n < m <= n + |run(n).nodes| - Last(run(n).path) && run(m).done
    decreases |run(n).nodes| - Last(run(n).path)
  {
    assert StepOf(game, tuning, run, draws, n);
    GoesOn(game, tuning, run(n), run(n + 1), draws, n);
    if run(n + 1).done {
      m := n + 1;
    } else {
      m := EndsFrom(game, tuning, run, draws, n + 1);
    }
  }

  // ---------------------------------------------------------------- going round for ever

  /** No more children to add, whatever is drawn. */
  predicate Closed<S, A, U>(tuning: Tuning, node: Node<S, A, U>) {
    node.over.Ongoing? && node.choices.Decision? && (node.choices.exhausted || !MayWiden(tuning, node))
  }

  /** From node `i` every pick goes on to `next` and changes nothing. */
  ghost predicate Leads<S(!new), A(!new), U(!new)>(game: Game<S, A, U>, tuning: Tuning,
          nodes: seq<Node<S, A, U>>, i: nat, next: nat) {
    i < |nodes| && Ready(game, nodes, i) && Closed(tuning, nodes[i]) && Down(game, tuning, nodes, i).index == next
  }

  /** The path so far would be walked again. */
  ghost predicate Worn<S(!new), A(!new), U(!new)>(game: Game<S, A, U>, tuning: Tuning,
          nodes: seq<Node<S, A, U>>, path: seq<nat>) {
    path != [] && path[0] == 0 && forall t :: 0 <= t < |path| - 1 ==> Leads(game, tuning, nodes, path[t], path[t + 1])
  }

  lemma {:induction false} SameBest<S(!new), A(!new), U(!new)>(game: Game<S, A, U>, tuning: Tuning,
          before: seq<Node<S, A, U>>, after: seq<Node<S, A, U>>, i: nat, n: nat)
    requires |before| == |after| && forall j :: 0 <= j < |before| ==> SameCounts(before, after, j)
    requires i < |before| && Rateable(game, before, i) && Rateable(game, after, i)
    requires n <= |before[i].choices.children| && n <= |after[i].choices.children|
    ensures BestChild(game, tuning, after, i, n) == BestChild(game, tuning, before, i, n)
  {
    assert SameCounts(before, after, i);
    if n > 0 {
      SameBest(game, tuning, before, after, i, n - 1);
      forall k | 0 <= k < n
        ensures ScoreOf(game, tuning, after, i, k) == ScoreOf(game, tuning, before, i, k)
      {
        assert SameCounts(before, after, before[i].choices.children[k].index);
      }
    }
  }

  lemma LeadsStill<S(!new), A(!new), U(!new)>(game: Game<S, A, U>, tuning: Tuning, before: seq<Node<S, A, U>>,
          after: seq<Node<S, A, U>>, i: nat, next: nat)
    requires |before| == |after| && forall j :: 0 <= j < |before| ==> SameCounts(before, after, j)
    requires i < |before| && Ready(game, before, i) && Ready(game, after, i)
    requires before[i].over.Ongoing? && before[i].choices.Decision? && Closed(tuning, after[i])
    requires Down(game, tuning, before, i).index == next
    ensures Leads(game, tuning, after, i, next)
  {
    assert SameCounts(before, after, i);
    SameBest(game, tuning, before, after, i, |before[i].choices.children|);
  }

  ghost predicate Plain<S(!new), A(!new), U(!new)>(game: Game<S, A, U>) {
    forall s :: !game.isChance(s)
  }

  /** A pick that goes on wears one more step, and keeps the earlier ones worn. */
  lemma PickWears<S(!new), A(!new), U(!new)>(game: Game<S, A, U>, tuning: Tuning, nodes: seq<Node<S, A, U>>,
          i: nat, draw: nat, path: seq<nat>)
    requires WellBehaved(game) && Plain(game) && Counted(game, nodes) && i < |nodes| && Ready(game, nodes, i)
    requires Worn(game, tuning, nodes, path) && Last(path) == i
    requires var picked := PickAt(game, tuning, nodes, i, draw).picked; !picked.terminal && !picked.added
    ensures var pick := PickAt(game, tuning, nodes, i, draw);
      Worn(game, tuning, pick.nodes, path + [pick.picked.index])
  {
    var pick := PickAt(game, tuning, nodes, i, draw);
    PickKeepsTree(game, tuning, nodes, i, draw);
    var longer := path + [pick.picked.index];
    forall t | 0 <= t < |longer| - 1
      ensures Leads(game, tuning, pick.nodes, longer[t], longer[t + 1])
    {
      assert longer[t] == path[t];
      if t < |path| - 1 {
        assert Leads(game, tuning, nodes, path[t], path[t + 1]);
      }
      CountedIsReady(game, nodes, longer[t]);
      CountedIsReady(game, pick.nodes, longer[t]);
      assert NodeFitsAt(game, nodes, longer[t]);
      LeadsStill(game, tuning, nodes, pick.nodes, longer[t], longer[t + 1]);
    }
  }

  /** The path has come back to the root, and would be walked again. */
  ghost predicate IsBack<S(!new), A(!new), U(!new)>(game: Game<S, A, U>, tuning: Tuning, sel: Selection<S, A, U>) {
    !sel.done && |sel.path| > 1 && Last(sel.path) == 0 && Worn(game, tuning, sel.nodes, sel.path)
  }

  /** On the way to a dead end, over a path that would be walked again. */
  ghost predicate Astray<S(!new), A(!new), U(!new)>(game: Game<S, A, U>, tuning: Tuning,
          sel: Selection<S, A, U>, draws: nat -> nat, n: nat)
    requires WellBehaved(game)
  {
    && Sound(game, sel) && !sel.done && Worn(game, tuning, sel.nodes, sel.path)
    && DeadEnd(game, tuning, sel.nodes, Last(sel.path), draws, n)
  }

  /** With a dead end ahead, the next pick goes down, the dead end still ahead, or back to the root. */
  lemma GoesAstray<S(!new), A(!new), U(!new)>(game: Game<S, A, U>, tuning: Tuning, sel: Selection<S, A, U>,
          after: Selection<S, A, U>, draws: nat -> nat, n: nat)
    requires WellBehaved(game) && Plain(game) && Sound(game, sel) && !sel.done
    requires after == Continued(game, tuning, sel, draws(n)) && Worn(game, tuning, sel.nodes, sel.path)
    requires DeadEnd(game, tuning, sel.nodes, Last(sel.path), draws, n)
    ensures !after.done && |after.nodes| == |sel.nodes| && Worn(game, tuning, after.nodes, after.path)
    ensures IsBack(game, tuning, after)
         || (Last(sel.path) < Last(after.path) && DeadEnd(game, tuning, after.nodes, Last(after.path), draws, n + 1))
  {
    var i := Last(sel.path);
    CountedIsReady(game, sel.nodes, i);
    PickKeepsTree(game, tuning, sel.nodes, i, draws(n));
    PickGoesDown(game, tuning, sel.nodes, i, draws(n));
    PickWears(game, tuning, sel.nodes, i, draws(n), sel.path);
  }

  lemma GoesAstrayNext<S(!new), A(!new), U(!new)>(game: Game<S, A, U>, tuning: Tuning,
          run: nat -> Selection<S, A, U>, draws: nat -> nat, n: nat)
    requires WellBehaved(game) && Plain(game) && IsRun(game, tuning, run, draws) && Astray(game, tuning, run(n), draws, n)
    ensures !run(n + 1).done && |run(n + 1).nodes| == |run(n).nodes|
    ensures IsBack(game, tuning, run(n + 1))
         || (Astray(game, tuning, run(n + 1), draws, n + 1) && Last(run(n).path) < Last(run(n + 1).path))
  {
    assert StepOf(game, tuning, run, draws, n);
    GoesAstray(game, tuning, run(n), run(n + 1), draws, n);
  }

  /** On a walk with a dead end, the path comes back to the root over a path that is worn. */
  lemma {:induction false} BackToTheRoot<S(!new), A(!new), U(!new)>(game: Game<S, A, U>, tuning: Tuning,
          run: nat -> Selection<S, A, U>, draws: nat -> nat, n: nat) returns (m: nat)
    requires WellBehaved(game) && Plain(game) && IsRun(game, tuning, run, draws) && Astray(game, tuning, run(n), draws, n)
    ensures m > n && IsBack(game, tuning, run(m)) && forall k :: n <= k <= m ==> !run(k).done
    decreases |run(n).nodes| - Last(run(n).path)
  {
    GoesAstrayNext(game, tuning, run, draws, n);
    if IsBack(game, tuning, run(n + 1)) {
      m := n + 1;
    } else {
      m := BackToTheRoot(game, tuning, run, draws, n + 1);
    }
  }

  /** On the way round: the tree is as it was, and the path ends on the loop. */
  ghost predicate OnLoop<S, A, U>(back: Selection<S, A, U>, sel: Selection<S, A, U>)
    requires back.path != [] && sel.path != []
  {
    !sel.done && sel.nodes == back.nodes && exists t :: 0 <= t < |back.path| - 1 && back.path[t] == Last(sel.path)
  }

  lemma GoesRound<S(!new), A(!new), U(!new)>(game: Game<S, A, U>, tuning: Tuning, back: Selection<S, A, U>,
          sel: Selection<S, A, U>, draw: nat)
    requires WellBehaved(game) && Sound(game, sel) && IsBack(game, tuning, back) && OnLoop(back, sel)
    ensures OnLoop(back, Continued(game, tuning, sel, draw))
  {
    var t :| 0 <= t < |back.path| - 1 && back.path[t] == Last(sel.path);
    assert Leads(game, tuning, back.nodes, back.path[t], back.path[t + 1]);
    var after := Continued(game, tuning, sel, draw);
    assert Last(after.path) == back.path[t + 1] && !after.done && after.nodes == back.nodes;
    if t + 1 == |back.path| - 1 {
      assert back.path[0] == Last(after.path);
    }
  }

  /** From there on the path goes round and round, and the tree stays as it is. */
  lemma {:induction false} RoundAndRound<S(!new), A(!new), U(!new)>(game: Game<S, A, U>, tuning: Tuning,
          run: nat -> Selection<S, A, U>, draws: nat -> nat, m: nat, n: nat)
    requires WellBehaved(game) && IsRun(game, tuning, run, draws) && n >= m && IsBack(game, tuning, run(m))
    ensures run(n).path != [] && OnLoop(run(m), run(n))
    decreases n
  {
    if n == m {
      assert run(m).path[0] == 0;
    } else {
      RoundAndRound(game, tuning, run, draws, m, n - 1);
      assert StepOf(game, tuning, run, draws, n - 1);
      GoesRound(game, tuning, run(m), run(n - 1), draws(n - 1));
    }
  }

  lemma EndsWithout<S(!new), A(!new), U(!new)>(game: Game<S, A, U>, tuning: Tuning, nodes: seq<Node<S, A, U>>,
          draws: nat -> nat)
    requires WellBehaved(game) && Counted(game, nodes) && !DeadEnd(game, tuning, nodes, 0, draws, 0)
    ensures exists n :: 0 < n <= |nodes| && Selecting(game, tuning, nodes, draws, n).done
  {
    var run := SelectingIsRun(game, tuning, nodes, draws);
    var n := EndsFrom(game, tuning, run, draws, 0);
    assert run(n) == Selecting(game, tuning, nodes, draws, n);
  }

  lemma DeadEndGoesOn<S(!new), A(!new), U(!new)>(game: Game<S, A, U>, tuning: Tuning, nodes: seq<Node<S, A, U>>,
          draws: nat -> nat, n: nat)
    requires WellBehaved(game) && Plain(game) && Counted(game, nodes) && DeadEnd(game, tuning, nodes, 0, draws, 0)
    ensures !Selecting(game, tuning, nodes, draws, n).done
  {
    var run := SelectingIsRun(game, tuning, nodes, draws);
    var m := BackToTheRoot(game, tuning, run, draws, 0);
    if n > m {
      RoundAndRound(game, tuning, run, draws, m, n);
    }
    assert run(n) == Selecting(game, tuning, nodes, draws, n);
  }

  /** Without chance nodes, a selection ends if and only if its walk from the root comes to no dead end. */
  lemma EndsExactly<S(!new), A(!new), U(!new)>(game: Game<S, A, U>, tuning: Tuning, nodes: seq<Node<S, A, U>>,
          draws: nat -> nat)
    requires WellBehaved(game) && Plain(game) && Counted(game, nodes)
    ensures Ends(game, tuning, nodes, draws) <==> !DeadEnd(game, tuning, nodes, 0, draws, 0)
  {
    if DeadEnd(game, tuning, nodes, 0, draws, 0) {
      forall n: nat
        ensures !Selecting(game, tuning, nodes, draws, n).done
      {
        DeadEndGoesOn(game, tuning, nodes, draws, n);
      }
    } else {
      EndsWithout(game, tuning, nodes, draws);
    }
  }

  /** Where no move makes another player win, no walk comes to a dead end. */
  lemma {:induction false} NoGiftsNoDeadEnd<S(!new), A(!new), U(!new)>(game: Game<S, A, U>, tuning: Tuning,
          nodes: seq<Node<S, A, U>>, i: nat, draws: nat -> nat, t: nat)
    requires WellBehaved(game) && NoGifts(game) && Counted(game, nodes) && i < |nodes|
    ensures !DeadEnd(game, tuning, nodes, i, draws, t)
    decreases |nodes| - i
  {
    CountedIsReady(game, nodes, i);
    PickKeepsTree(game, tuning, nodes, i, draws(t));
    PickGoesDown(game, tuning, nodes, i, draws(t));
    var pick := PickAt(game, tuning, nodes, i, draws(t));
    if Stuck(game, tuning, nodes, i, draws(t)) {
      ChildrenThere(game, tuning, nodes, i, draws(t));
      NotAllLost(game, tuning, nodes, i);
      assert false;
    }
    if !pick.picked.terminal && !pick.picked.added {
      NoGiftsNoDeadEnd(game, tuning, pick.nodes, pick.picked.index, draws, t + 1);
    }
  }

  lemma NotAllLost<S(!new), A(!new), U(!new)>(game: Game<S, A, U>, tuning: Tuning, nodes: seq<Node<S, A, U>>, i: nat)
    requires WellBehaved(game) && NoGifts(game) && Counted(game, nodes) && i < |nodes| && Ready(game, nodes, i)
    requires nodes[i].over.Ongoing? && nodes[i].choices.Decision? && nodes[i].choices.children != []
    ensures !ScoreOf(game, tuning, nodes, i, 0).Lost?
  {
    var child := nodes[i].choices.children[0];
    assert NodeFitsAt(game, nodes, i) && EdgeFits(game, nodes, i, 0) && NodeFitsAt(game, nodes, child.index);
    assert Deciding(game, nodes[i].state);
  }

  // ---------------------------------------------------------------------- the runner

  /** The playout's worth for each seat: 1 for the winner and -1 for the others, or nothing. */
  function ValueOf(players: nat, outcome: Outcome): (value: seq<real>)
    ensures |value| == players && forall p :: 0 <= p < players ==> -1.0 <= value[p] <= 1.0
  {
    match outcome
    case Win(player) => seq(players, p => if p == player then 1.0 else -1.0)
    case _ => seq(players, p => 0.0)
  }

  predicate SameRoot<S(==), A, U>(nodes: seq<Node<S, A, U>>, root: Node<S, A, U>) {
    nodes != [] && nodes[0].visits == root.visits && nodes[0].state == root.state
  }

  /** A selection under way: its path is one of the tree, whose root has been counted as often as before. */
  ghost predicate Descending<S(!new), A(!new), U(!new)>(game: Game<S, A, U>, sel: Selection<S, A, U>,
          root: Node<S, A, U>) {
    && IsPath(sel.nodes, sel.path) && SameRoot(sel.nodes, root)
    && if sel.done then CountedBut(game, sel.nodes, Last(sel.path)) else Counted(game, sel.nodes)
  }

  lemma PathStays<S, A, U>(before: seq<Node<S, A, U>>, after: seq<Node<S, A, U>>, path: seq<nat>)
    requires IsPath(before, path) && |before| <= |after|
    requires forall i, j :: 0 <= i < |before| && 0 <= j < |before| && HasChild(before, i, j) ==> HasChild(after, i, j)
    ensures IsPath(after, path)
  {
  }

  lemma SamePlaces<S, A, U>(before: seq<Node<S, A, U>>, after: seq<Node<S, A, U>>, i: nat, j: nat)
    requires i < |before| <= |after| && HasChild(before, i, j)
    requires before[i].choices.children <= after[i].choices.children
    ensures HasChild(after, i, j)
  {
    var k: nat :| IsChild(before, i, k, j);
    assert IsChild(after, i, k, j);
  }

  /** A pick only adds to the children there are. */
  lemma PickOnlyAdds<S(!new), A(!new), U(!new)>(game: Game<S, A, U>, tuning: Tuning, nodes: seq<Node<S, A, U>>,
          i: nat, draw: nat)
    requires WellBehaved(game) && Counted(game, nodes) && i < |nodes| && Ready(game, nodes, i)
    ensures var after := PickAt(game, tuning, nodes, i, draw).nodes;
      && |nodes| <= |after| && SameRoot(after, nodes[0])
      && forall j, c :: 0 <= j < |nodes| && 0 <= c < |nodes| && HasChild(nodes, j, c) ==> HasChild(after, j, c)
  {
    PickKeepsTree(game, tuning, nodes, i, draw);
    var after := PickAt(game, tuning, nodes, i, draw).nodes;
    assert forall j :: 0 <= j < |nodes| ==> nodes[j].choices.children <= after[j].choices.children;
    forall j, c | 0 <= j < |nodes| && 0 <= c < |nodes| && HasChild(nodes, j, c)
      ensures HasChild(after, j, c)
    {
      SamePlaces(nodes, after, j, c);
    }
  }

  /** Clear of dead ends, each pick keeps the path one of the tree. */
  lemma PickDescends<S(!new), A(!new), U(!new)>(game: Game<S, A, U>, tuning: Tuning, sel: Selection<S, A, U>,
          root: Node<S, A, U>, draws: nat -> nat, n: nat)
    requires WellBehaved(game) && Sound(game, sel) && !sel.done && Descending(game, sel, root)
    requires !DeadEnd(game, tuning, sel.nodes, Last(sel.path), draws, n)
    ensures Descending(game, Continued(game, tuning, sel, draws(n)), root)
  {
    var i := Last(sel.path);
    CountedIsReady(game, sel.nodes, i);
    PickKeepsTree(game, tuning, sel.nodes, i, draws(n));
    PickGoesDown(game, tuning, sel.nodes, i, draws(n));
    PickOnlyAdds(game, tuning, sel.nodes, i, draws(n));
    var pick := PickAt(game, tuning, sel.nodes, i, draws(n));
    PathStays(sel.nodes, pick.nodes, sel.path);
    if !pick.picked.terminal {
      var longer := sel.path + [pick.picked.index];
      if !pick.picked.added {
        assert HasChild(sel.nodes, i, pick.picked.index);
      }
      forall t | 0 <= t < |longer| - 1
        ensures HasChild(pick.nodes, longer[t], longer[t + 1])
      {
        if t < |sel.path| - 1 {
          assert HasChild(pick.nodes, sel.path[t], sel.path[t + 1]);
        }
      }
    }
  }

  /** On a path of the tree, with no dead end ahead. */
  ghost predicate Clear<S(!new), A(!new), U(!new)>(game: Game<S, A, U>, tuning: Tuning,
          start: seq<Node<S, A, U>>, draws: nat -> nat, n: nat, sel: Selection<S, A, U>)
    requires WellBehaved(game) && Counted(game, start)
  {
    && Descending(game, sel, start[0])
    && (!sel.done ==> |sel.nodes| == |start| && !DeadEnd(game, tuning, sel.nodes, Last(sel.path), draws, n))
  }

  /** The first `n` picks, clear of dead ends. */
  ghost predicate Underway<S(!new), A(!new), U(!new)>(game: Game<S, A, U>, tuning: Tuning,
          start: seq<Node<S, A, U>>, draws: nat -> nat, n: nat, sel: Selection<S, A, U>)
    requires WellBehaved(game) && Counted(game, start)
  {
    sel == Selecting(game, tuning, start, draws, n) && Clear(game, tuning, start, draws, n, sel)
  }

  /** What the selection from `start` ended with: its picks, along a path of the tree. */
  ghost predicate Selected<S(!new), A(!new), U(!new)>(game: Game<S, A, U>, tuning: Tuning,
          start: seq<Node<S, A, U>>, draws: nat -> nat, nodes: seq<Node<S, A, U>>, path: seq<nat>)
    requires WellBehaved(game) && Counted(game, start)
  {
    exists n: nat :: Underway(game, tuning, start, draws, n, Selection(nodes, path, true))
  }

  lemma StaysClear<S(!new), A(!new), U(!new)>(game: Game<S, A, U>, tuning: Tuning, start: seq<Node<S, A, U>>,
          draws: nat -> nat, n: nat, sel: Selection<S, A, U>, after: Selection<S, A, U>)
    requires WellBehaved(game) && Counted(game, start) && Sound(game, sel) && Clear(game, tuning, start, draws, n, sel)
    requires after == Continued(game, tuning, sel, draws(n))
    ensures Clear(game, tuning, start, draws, n + 1, after)
    ensures !sel.done && !after.done ==> Last(sel.path) < Last(after.path) < |start|
  {
    if !sel.done {
      PickDescends(game, tuning, sel, start[0], draws, n);
      GoesOn(game, tuning, sel, after, draws, n);
    }
  }

  lemma OneFurther<S(!new), A(!new), U(!new)>(game: Game<S, A, U>, tuning: Tuning, start: seq<Node<S, A, U>>,
          draws: nat -> nat, n: nat, sel: Selection<S, A, U>, after: Selection<S, A, U>)
    requires WellBehaved(game) && Counted(game, start) && Underway(game, tuning, start, draws, n, sel) && !sel.done
    requires after == Continued(game, tuning, sel, draws(n))
    ensures Underway(game, tuning, start, draws, n + 1, after)
    ensures !after.done ==> Last(sel.path) < Last(after.path) < |start|
  {
    StaysClear(game, tuning, start, draws, n, sel, after);
  }

  /** The same, in the terms of the pick. */
  lemma OnePick<S(!new), A(!new), U(!new)>(game: Game<S, A, U>, tuning: Tuning, start: seq<Node<S, A, U>>,
          draws: nat -> nat, n: nat, sel: Selection<S, A, U>, picked: Picked, nodes: seq<Node<S, A, U>>)
    requires WellBehaved(game) && Counted(game, start) && Underway(game, tuning, start, draws, n, sel) && !sel.done
    requires sel.path != [] && Ready(game, sel.nodes, Last(sel.path))
    requires Pick(picked, nodes) == PickAt(game, tuning, sel.nodes, Last(sel.path), draws(n))
    ensures picked.terminal ==>
      Underway(game, tuning, start, draws, n + 1, Selection(nodes, sel.path, true)) && picked.index == Last(sel.path)
    ensures !picked.terminal ==>
      Underway(game, tuning, start, draws, n + 1, Selection(nodes, sel.path + [picked.index], picked.added))
    ensures !picked.terminal && !picked.added ==> Last(sel.path) < picked.index < |start|
  {
    PickGoesDown(game, tuning, sel.nodes, Last(sel.path), draws(n));
    OneFurther(game, tuning, start, draws, n, sel, Continued(game, tuning, sel, draws(n)));
  }

  lemma {:induction false} ClearThroughout<S(!new), A(!new), U(!new)>(game: Game<S, A, U>, tuning: Tuning,
          start: seq<Node<S, A, U>>, run: nat -> Selection<S, A, U>, draws: nat -> nat, n: nat)
    requires WellBehaved(game) && Counted(game, start) && IsRun(game, tuning, run, draws)
    requires Clear(game, tuning, start, draws, 0, run(0))
    ensures Clear(game, tuning, start, draws, n, run(n))
  {
    if n > 0 {
      ClearThroughout(game, tuning, start, run, draws, n - 1);
      assert StepOf(game, tuning, run, draws, n - 1);
      StaysClear(game, tuning, start, draws, n - 1, run(n - 1), run(n));
    }
  }

  lemma StaysUnderway<S(!new), A(!new), U(!new)>(game: Game<S, A, U>, tuning: Tuning, start: seq<Node<S, A, U>>,
          draws: nat -> nat, n: nat)
    requires WellBehaved(game) && Counted(game, start) && !DeadEnd(game, tuning, start, 0, draws, 0)
    ensures Clear(game, tuning, start, draws, n, Selecting(game, tuning, start, draws, n))
  {
    var run := SelectingIsRun(game, tuning, start, draws);
    ClearThroughout(game, tuning, start, run, draws, n);
    assert run(n) == Selecting(game, tuning, start, draws, n);
  }

  /** Once done, a selection stays as it is. */
  lemma {:induction false} StaysDone<S(!new), A(!new), U(!new)>(game: Game<S, A, U>, tuning: Tuning,
          run: nat -> Selection<S, A, U>, draws: nat -> nat, n: nat, m: nat)
    requires WellBehaved(game) && IsRun(game, tuning, run, draws) && n <= m && run(n).done
    ensures run(m) == run(n)
    decreases m
  {
    if n < m {
      StaysDone(game, tuning, run, draws, n, m - 1);
      assert StepOf(game, tuning, run, draws, m - 1);
    }
  }

  lemma SameEnd<S(!new), A(!new), U(!new)>(game: Game<S, A, U>, tuning: Tuning, start: seq<Node<S, A, U>>,
          draws: nat -> nat, n: nat, m: nat)
    requires WellBehaved(game) && Counted(game, start) && n <= m && Selecting(game, tuning, start, draws, n).done
    ensures Selecting(game, tuning, start, draws, m) == Selecting(game, tuning, start, draws, n)
  {
    var run := SelectingIsRun(game, tuning, start, draws);
    assert run(n) == Selecting(game, tuning, start, draws, n) && run(m) == Selecting(game, tuning, start, draws, m);
    StaysDone(game, tuning, run, draws, n, m);
  }

  /** What a selection clear of dead ends comes to: a path of the tree, to a new leaf or an end of play. */
  ghost function Finished<S(!new), A(!new), U(!new)>(game: Game<S, A, U>, tuning: Tuning,
          start: seq<Node<S, A, U>>, draws: nat -> nat): (sel: Selection<S, A, U>)
    requires WellBehaved(game) && Counted(game, start) && !DeadEnd(game, tuning, start, 0, draws, 0)
    ensures sel.done && IsPath(sel.nodes, sel.path) && CountedBut(game, sel.nodes, Last(sel.path))
    ensures SameRoot(sel.nodes, start[0])
  {
    IsFinished(game, tuning, start, draws);
    Selecting(game, tuning, start, draws, |start|)
  }

  lemma IsFinished<S(!new), A(!new), U(!new)>(game: Game<S, A, U>, tuning: Tuning, start: seq<Node<S, A, U>>,
          draws: nat -> nat)
    requires WellBehaved(game) && Counted(game, start) && !DeadEnd(game, tuning, start, 0, draws, 0)
    ensures var sel := Selecting(game, tuning, start, draws, |start|);
      sel.done && Descending(game, sel, start[0])
  {
    EndsWithout(game, tuning, start, draws);
    var n :| 0 < n <= |start| && Selecting(game, tuning, start, draws, n).done;
    SameEnd(game, tuning, start, draws, n, |start|);
    StaysUnderway(game, tuning, start, draws, |start|);
  }

  lemma SelectedIsFinished<S(!new), A(!new), U(!new)>(game: Game<S, A, U>, tuning: Tuning,
          start: seq<Node<S, A, U>>, draws: nat -> nat, nodes: seq<Node<S, A, U>>, path: seq<nat>)
    requires WellBehaved(game) && Counted(game, start) && !DeadEnd(game, tuning, start, 0, draws, 0)
    requires Selected(game, tuning, start, draws, nodes, path)
    ensures Finished(game, tuning, start, draws) == Selection(nodes, path, true)
  {
    var n: nat :| Underway(game, tuning, start, draws, n, Selection(nodes, path, true));
    IsFinished(game, tuning, start, draws);
    if n <= |start| {
      SameEnd(game, tuning, start, draws, n, |start|);
    } else {
      SameEnd(game, tuning, start, draws, |start|, n);
    }
  }

  /** The tree after one more iteration: selection, playout and back-propagation. */
  ghost function Iterated<S(!new), A(!new), U(!new)>(game: Game<S, A, U>, tuning: Tuning,
          start: seq<Node<S, A, U>>, draws: nat -> nat, simulation: nat): (after: seq<Node<S, A, U>>)
    requires WellBehaved(game) && Counted(game, start) && !DeadEnd(game, tuning, start, 0, draws, 0)
    ensures Counted(game, after)
    ensures after[0].visits == start[0].visits + 1 && after[0].state == start[0].state
  {
    var sel := Finished(game, tuning, start, draws);
    var value := ValueOf(game.players, game.rollout(sel.nodes[Last(sel.path)].state, simulation));
    BackedIsCounted(game, sel.nodes, sel.path, value);
    Backed(sel.nodes, sel.path, value)
  }

  /** What a node has of one more playout: a visit, and for each seat 1 if it won, -1 if another did, nothing without a winner. */
  predicate CountsPlayout<S(==), A(==), U(==)>(before: Node<S, A, U>, after: Node<S, A, U>, outcome: Outcome) {
    && after == before.(visits := before.visits + 1, total := after.total) && |after.total| == |before.total|
    && forall p :: 0 <= p < |after.total| ==>
         after.total[p] - before.total[p] == match outcome
                                             case Win(player) => if p == player then 1.0 else -1.0
                                             case _ => 0.0
  }

  /** An iteration plays out from where its path ends, and counts that in the nodes of the path and in no others. */
  lemma IterationTells<S(!new), A(!new), U(!new)>(game: Game<S, A, U>, tuning: Tuning, start: seq<Node<S, A, U>>,
          draws: nat -> nat, simulation: nat)
    requires WellBehaved(game) && Counted(game, start) && !DeadEnd(game, tuning, start, 0, draws, 0)
    ensures var sel := Finished(game, tuning, start, draws);
      var after := Iterated(game, tuning, start, draws, simulation);
      && |after| == |sel.nodes|
      && forall j :: 0 <= j < |after| ==>
           if j in sel.path then CountsPlayout(sel.nodes[j], after[j], game.rollout(sel.nodes[Last(sel.path)].state, simulation))
           else after[j] == sel.nodes[j]
  {
    var sel := Finished(game, tuning, start, draws);
    BackedKeepsShape(game, sel.nodes, sel.path, ValueOf(game.players, Draw));
  }

  /** The children of the root by visits: none has more than the one at `k`, and those before it have fewer. */
  predicate MostVisited<S, A, U>(nodes: seq<Node<S, A, U>>, children: seq<Child<A>>, n: nat, k: nat)
    requires k < n <= |children| && forall l :: 0 <= l < n ==> children[l].index < |nodes|
  {
    && (forall l :: 0 <= l < n ==> nodes[children[l].index].visits <= nodes[children[k].index].visits)
    && (forall l :: 0 <= l < k ==> nodes[children[l].index].visits < nodes[children[k].index].visits)
  }

  /** A legal action, that of the first most visited child of the root, on which at least an even share of the visits went. */
  ghost predicate IsRobust<S(!new), A(!new), U(!new)>(game: Game<S, A, U>, nodes: seq<Node<S, A, U>>, action: A)
    requires Counted(game, nodes)
  {
    assert VisitsAddUp(nodes, 0);
    var children := nodes[0].choices.children;
    && game.legal(nodes[0].state, action)
    && exists k: nat :: k < |children| && children[k].action == action && MostVisited(nodes, children, |children|, k)
                        && nodes[0].visits <= |children| * nodes[children[k].index].visits
  }

  /** The most visited child has at least its even share. */
  lemma {:induction false} EvenShare<S, A, U>(nodes: seq<Node<S, A, U>>, children: seq<Child<A>>, n: nat, most: nat)
    requires n <= |children| && forall l :: 0 <= l < n ==> children[l].index < |nodes|
    requires forall l :: 0 <= l < n ==> nodes[children[l].index].visits <= most
    ensures ChildVisits(nodes, children, n) <= n * most
  {
    if n > 0 {
      EvenShare(nodes, children, n - 1, most);
    }
  }

  lemma DownStays<S(!new), A(!new), U(!new)>(game: Game<S, A, U>, tuning: Tuning, before: seq<Node<S, A, U>>,
          after: seq<Node<S, A, U>>, i: nat)
    requires WellBehaved(game) && Counted(game, before) && Counted(game, after) && i < |before| == |after|
    requires forall j :: 0 <= j < |before| ==> SameCounts(before, after, j)
    requires before[i].over.Ongoing? && before[i].choices.Decision?
    ensures Ready(game, before, i) && Ready(game, after, i) && Rateable(game, after, i)
    ensures Down(game, tuning, after, i) == Down(game, tuning, before, i)
  {
    CountedIsReady(game, before, i);
    CountedIsReady(game, after, i);
    assert SameCounts(before, after, i);
    SameBest(game, tuning, before, after, i, |before[i].choices.children|);
  }

  /** There always is one to answer with. */
  lemma RobustExists<S(!new), A(!new), U(!new)>(game: Game<S, A, U>, nodes: seq<Node<S, A, U>>)
    requires WellBehaved(game) && Counted(game, nodes) && Deciding(game, nodes[0].state) && nodes[0].visits > 0
    ensures exists action: A :: IsRobust(game, nodes, action)
  {
    assert NodeFitsAt(game, nodes, 0) && VisitsAddUp(nodes, 0);
    var children := nodes[0].choices.children;
    var k := MostVisitedOf(nodes, children, |children|);
    EvenShare(nodes, children, |children|, nodes[children[k].index].visits);
    assert EdgeFits(game, nodes, 0, k);
    assert IsRobust(game, nodes, children[k].action);
  }

  lemma {:induction false} MostVisitedOf<S, A, U>(nodes: seq<Node<S, A, U>>, children: seq<Child<A>>,
          n: nat) returns (k: nat)
    requires 0 < n <= |children| && forall l :: 0 <= l < n ==> children[l].index < |nodes|
    ensures k < n && MostVisited(nodes, children, n, k)
  {
    k := 0;
    if n > 1 {
      k := MostVisitedOf(nodes, children, n - 1);
      if nodes[children[k].index].visits < nodes[children[n - 1].index].visits {
        k := n - 1;
      }
    }
  }

  class Runner<S(!new), A(!new, ==), U(!new)> {
    const game: Game<S, A, U>
    var nodes: seq<Node<S, A, U>>
    var path: seq<nat>

    ghost predicate Valid()
      reads this
    {
      WellBehaved(game) && Counted(game, nodes)
    }

    /** A search begins with the root alone. */
    constructor (game: Game<S, A, U>, root: S)
      requires WellBehaved(game) && game.good(root)
      ensures Valid() && this.game == game && nodes == [NewNode(game, root)]
    {
      this.game := game;
      nodes := [NewNode(game, root)];
      path := [];
      new;
      RootIsCounted(game, root);
    }

    /** The child the scan over the scores settles on, or the root. */
    method Favourite(tuning: Tuning, i: nat) returns (index: nat)
      requires Valid() && i < |nodes| && Rateable(game, nodes, i)
      ensures Picked(index, false, false) == Down(game, tuning, nodes, i)
      ensures LeadsDown(game, tuning, nodes, i, index)
    {
      DownIsPreferred(game, tuning, nodes, i);
      var children := nodes[i].choices.children;
      var bestScore := Lost;
      index := 0;
      var k := 0;
      while k < |children|
        invariant k <= |children|
        invariant var best := BestChild(game, tuning, nodes, i, k);
          && bestScore == BestScore(game, tuning, nodes, i, best)
          && index == if best < 0 then 0 else children[best].index
      {
        var score := ScoreOf(game, tuning, nodes, i, k);
        k := k + 1;
        if Beats(score, bestScore) {
          bestScore := score;
          index := children[k - 1].index;
          if bestScore.Won? {
            break;
          }
        }
      }
      if bestScore.Won? {
        WinStopsTheScan(game, tuning, nodes, i, k, |children|);
      }
    }

    /** The node picker: stops at the end of play, adds a child, or goes down to one. */
    method PickNode(tuning: Tuning, i: nat, draw: nat) returns (picked: Picked)
      requires Valid() && i < |nodes|
      modifies this`nodes
      ensures Ready(game, old(nodes), i) && Pick(picked, nodes) == PickAt(game, tuning, old(nodes), i, draw)
    {
      CountedIsReady(game, nodes, i);
      PickKeepsTree(game, tuning, nodes, i, draw);
      var node := nodes[i];
      if !node.over.Ongoing? {
        return Picked(i, false, true);
      }
      if node.choices.Chance? {
        var action := game.sampleChance(node.state, draw);
        var k := FindAction(node.choices.children, action);
        if k == |node.choices.children| {
          nodes := Grow(game, nodes, i, node.choices, action);
          return Picked(|nodes| - 1, true, false);
        }
        return Picked(node.choices.children[k].index, false, false);
      }
      if !node.choices.exhausted && MayWiden(tuning, node) {
        var (action, untried) := game.next(node.choices.untried, node.state, draw);
        if action.Some? {
          nodes := Grow(game, nodes, i, node.choices.(untried := untried), action.value);
          return Picked(|nodes| - 1, true, false);
        }
        nodes := nodes[i := node.(choices := Decision(untried, true, node.choices.children))];
      }
      ChildrenThere(game, tuning, old(nodes), i, draw);
      assert nodes[i].choices.children != [];
      DownStays(game, tuning, old(nodes), nodes, i);
      var index := Favourite(tuning, i);
      picked := Picked(index, false, false);
    }

    /** From the root down to a new leaf or an end of play. */
    method Select(tuning: Tuning, draws: nat -> nat) returns (index: nat)
      requires Valid() && path == [0] && !DeadEnd(game, tuning, nodes, 0, draws, 0)
      modifies this
      ensures Selected(game, tuning, old(nodes), draws, nodes, path) && path != [] && index == Last(path)
    {
      ghost var start := nodes;
      var n: nat := 0;
      var picked := Picked(0, false, false);
      while !picked.added
        invariant Underway(game, tuning, start, draws, n, Selection(nodes, path, picked.added))
        invariant path != [] && (if picked.added then picked.index == Last(path) else Last(path) < |start|)
        decreases if picked.added then 0 else 1 + |start| - Last(path)
      {
        ghost var sel := Selection(nodes, path, false);
        picked := PickNode(tuning, path[|path| - 1], draws(n));
        OnePick(game, tuning, start, draws, n, sel, picked, nodes);
        n := n + 1;
        if picked.terminal {
          break;
        }
        path := path + [picked.index];
      }
      index := picked.index;
    }

    /** One iteration: select, play out, and count along the path. */
    method OneIteration(tuning: Tuning, draws: nat -> nat, simulation: nat)
      requires Valid() && !DeadEnd(game, tuning, nodes, 0, draws, 0)
      modifies this
      ensures Valid() && nodes == Iterated(game, tuning, old(nodes), draws, simulation)
    {
      path := [0];
      var index := Select(tuning, draws);
      SelectedIsFinished(game, tuning, old(nodes), draws, nodes, path);
      var value := ValueOf(game.players, game.rollout(nodes[index].state, simulation));
      BackedIsCounted(game, nodes, path, value);
      Backpropagate(value);
    }

    /** The action of the most visited child of the root. */
    method BestAction() returns (action: A)
      requires Valid() && Deciding(game, nodes[0].state) && nodes[0].visits > 0
      ensures IsRobust(game, nodes, action)
    {
      var children := nodes[0].choices.children;
      assert NodeFitsAt(game, nodes, 0) && VisitsAddUp(nodes, 0);
      assert children != [];
      var k := 0;
      for l := 1 to |children|
        invariant k < l && MostVisited(nodes, children, l, k)
      {
        if nodes[children[k].index].visits < nodes[children[l].index].visits {
          k := l;
        }
      }
      action := children[k].action;
      EvenShare(nodes, children, |children|, nodes[children[k].index].visits);
      assert EdgeFits(game, nodes, 0, k);
    }

    /** One more visit, and the value, for each node of the path. */
    method Backpropagate(value: seq<real>)
      requires Grown(game, nodes) && IsPath(nodes, path)
      requires forall j :: 0 <= j < |nodes| ==> |nodes[j].total| == |value|
      modifies this`nodes
      ensures nodes == Backed(old(nodes), path, value)
    {
      ghost var before := nodes;
      assert path[..|path|] == path;
      for t := 0 to |path|
        invariant |nodes| == |before| && nodes == Backed(before, path[..t], value)
      {
        OneMoreBacked(game, before, path, value, t);
        var node := nodes[path[t]];
        nodes := nodes[path[t] := node.(visits := node.visits + 1, total := AddValue(node.total, value))];
      }
    }
  }

  lemma RootIsCounted<S(!new), A(!new), U(!new)>(game: Game<S, A, U>, root: S)
    requires WellBehaved(game) && game.good(root)
    ensures Counted(game, [NewNode(game, root)])
  {
    NewNodeFits(game, root);
  }

  lemma OneMoreBacked<S(!new), A(!new), U(!new)>(game: Game<S, A, U>, nodes: seq<Node<S, A, U>>, path: seq<nat>,
          value: seq<real>, t: nat)
    requires Grown(game, nodes) && IsPath(nodes, path) && t < |path|
    requires forall j :: 0 <= j < |nodes| ==> |nodes[j].total| == |value|
    ensures var before := Backed(nodes, path[..t], value);
      && before[path[t]] == nodes[path[t]]
      && Backed(nodes, path[..t + 1], value)
         == before[path[t] := nodes[path[t]].(visits := nodes[path[t]].visits + 1, total := AddValue(nodes[path[t]].total, value))]
  {
    assert path[t] !in path[..t] by {
      if path[t] in path[..t] {
        var u :| 0 <= u < t && path[u] == path[t];
        PathGoesUp(game, nodes, path, u, t);
      }
    }
    assert path[..t + 1] == path[..t] + [path[t]];
  }

  // --------------------------------------------------------------------- whole searches

  /** The tree after one more iteration, unless that comes to a dead end. */
  ghost function NextTree<S(!new), A(!new), U(!new)>(game: Game<S, A, U>, tuning: Tuning,
          tree: Option<seq<Node<S, A, U>>>, draws: nat -> nat,
          simulation: nat): (next: Option<seq<Node<S, A, U>>>)
    requires WellBehaved(game) && (tree.Some? ==> Counted(game, tree.value))
    ensures next.Some? ==>
      && tree.Some? && Counted(game, next.value)
      && next.value[0].state == tree.value[0].state && next.value[0].visits == tree.value[0].visits + 1
  {
    if tree.None? || DeadEnd(game, tuning, tree.value, 0, draws, 0) then None
    else Some(Iterated(game, tuning, tree.value, draws, simulation))
  }

  /** The tree after `n` iterations, unless one of them came to a dead end. */
  ghost function TreeAfter<S(!new), A(!new), U(!new)>(game: Game<S, A, U>, tuning: Tuning, root: S,
          draws: nat -> nat -> nat, simulations: nat -> nat, n: nat): (tree: Option<seq<Node<S, A, U>>>)
    requires WellBehaved(game) && game.good(root)
    ensures tree.Some? ==> Counted(game, tree.value) && tree.value[0].state == root && tree.value[0].visits == n
  {
    if n == 0 then
      RootIsCounted(game, root);
      Some([NewNode(game, root)])
    else
      NextTree(game, tuning, TreeAfter(game, tuning, root, draws, simulations, n - 1), draws(n - 1), simulations(n - 1))
  }

  /** Iteration `n` of a search. */
  ghost predicate TreeStep<S(!new), A(!new), U(!new)>(game: Game<S, A, U>, tuning: Tuning,
          trees: nat -> Option<seq<Node<S, A, U>>>, draws: nat -> nat -> nat, simulations: nat -> nat, n: nat)
    requires WellBehaved(game)
  {
    && (trees(n).Some? ==> Counted(game, trees(n).value))
    && trees(n + 1) == NextTree(game, tuning, trees(n), draws(n), simulations(n))
  }

  ghost predicate IsSearch<S(!new), A(!new), U(!new)>(game: Game<S, A, U>, tuning: Tuning,
          trees: nat -> Option<seq<Node<S, A, U>>>, root: S, draws: nat -> nat -> nat, simulations: nat -> nat)
    requires WellBehaved(game)
  {
    trees(0) == Some([NewNode(game, root)]) && forall n: nat :: TreeStep(game, tuning, trees, draws, simulations, n)
  }

  lemma SearchOf<S(!new), A(!new), U(!new)>(game: Game<S, A, U>, tuning: Tuning, root: S,
          draws: nat -> nat -> nat, simulations: nat -> nat) returns (trees: nat -> Option<seq<Node<S, A, U>>>)
    requires WellBehaved(game) && game.good(root)
    ensures IsSearch(game, tuning, trees, root, draws, simulations)
    ensures forall n: nat :: trees(n) == TreeAfter(game, tuning, root, draws, simulations, n)
  {
    trees := (n: nat) => TreeAfter(game, tuning, root, draws, simulations, n);
  }

  lemma OneTreeBefore<S(!new), A(!new), U(!new)>(game: Game<S, A, U>, tuning: Tuning,
          trees: nat -> Option<seq<Node<S, A, U>>>, root: S, draws: nat -> nat -> nat, simulations: nat -> nat,
          n: nat)
    requires WellBehaved(game) && IsSearch(game, tuning, trees, root, draws, simulations) && trees(n + 1).Some?
    ensures trees(n).Some?
  {
    assert TreeStep(game, tuning, trees, draws, simulations, n);
  }

  lemma {:induction false} TreesBefore<S(!new), A(!new), U(!new)>(game: Game<S, A, U>, tuning: Tuning,
          trees: nat -> Option<seq<Node<S, A, U>>>, root: S, draws: nat -> nat -> nat, simulations: nat -> nat,
          m: nat, n: nat)
    requires WellBehaved(game) && IsSearch(game, tuning, trees, root, draws, simulations) && m <= n && trees(n).Some?
    ensures trees(m).Some?
  {
    if m < n {
      OneTreeBefore(game, tuning, trees, root, draws, simulations, n - 1);
      TreesBefore(game, tuning, trees, root, draws, simulations, m, n - 1);
    }
  }

  lemma {:induction false} NoGiftsTrees<S(!new), A(!new), U(!new)>(game: Game<S, A, U>, tuning: Tuning,
          trees: nat -> Option<seq<Node<S, A, U>>>, root: S, draws: nat -> nat -> nat, simulations: nat -> nat,
          n: nat)
    requires WellBehaved(game) && NoGifts(game) && IsSearch(game, tuning, trees, root, draws, simulations)
    ensures trees(n).Some?
  {
    if n > 0 {
      NoGiftsTrees(game, tuning, trees, root, draws, simulations, n - 1);
      assert TreeStep(game, tuning, trees, draws, simulations, n - 1);
      NoGiftsNoDeadEnd(game, tuning, trees(n - 1).value, 0, draws(n - 1), 0);
    }
  }

  /** Where no move makes another player win, no iteration comes to a dead end. */
  lemma NoGiftsAlwaysTree<S(!new), A(!new), U(!new)>(game: Game<S, A, U>, tuning: Tuning, root: S,
          draws: nat -> nat -> nat, simulations: nat -> nat, n: nat)
    requires WellBehaved(game) && NoGifts(game) && game.good(root)
    ensures TreeAfter(game, tuning, root, draws, simulations, n).Some?
  {
    var trees := SearchOf(game, tuning, root, draws, simulations);
    NoGiftsTrees(game, tuning, trees, root, draws, simulations, n);
    assert trees(n) == TreeAfter(game, tuning, root, draws, simulations, n);
  }

  /** The policy: so many iterations from the root alone, then the action they went to most. */
  method Decide<S(!new), A(!new, ==), U(!new)>(game: Game<S, A, U>, root: S, tuning: Tuning, iterations: nat,
          draws: nat -> nat -> nat, simulations: nat -> nat)
    returns (action: A, tree: seq<Node<S, A, U>>)
    requires WellBehaved(game) && Deciding(game, root) && iterations > 0
    requires TreeAfter(game, tuning, root, draws, simulations, iterations).Some?
    ensures TreeAfter(game, tuning, root, draws, simulations, iterations) == Some(tree)
    ensures game.legal(root, action) && IsRobust(game, tree, action)
  {
    ghost var trees := SearchOf(game, tuning, root, draws, simulations);
    ghost var last := TreeAfter(game, tuning, root, draws, simulations, iterations);
    assert trees(iterations) == last;
    action, tree := Iterate(game, root, tuning, iterations, draws, simulations, trees);
  }

  method Iterate<S(!new), A(!new, ==), U(!new)>(game: Game<S, A, U>, root: S, tuning: Tuning, iterations: nat,
          draws: nat -> nat -> nat, simulations: nat -> nat, 
                                                ghost trees: nat -> Option<seq<Node<S, A, U>>>)
    returns (action: A, tree: seq<Node<S, A, U>>)
    requires WellBehaved(game) && Deciding(game, root) && iterations > 0
    requires IsSearch(game, tuning, trees, root, draws, simulations) && trees(iterations).Some?
    ensures trees(iterations) == Some(tree) && Counted(game, tree)
    ensures game.legal(root, action) && IsRobust(game, tree, action)
  {
    var runner := new Runner(game, root);
    for i := 0 to iterations
      invariant fresh(runner) && runner.Valid() && runner.game == game && trees(i) == Some(runner.nodes)
      invariant runner.nodes[0].state == root && runner.nodes[0].visits == i
    {
      TreesBefore(game, tuning, trees, root, draws, simulations, i + 1, iterations);
      assert TreeStep(game, tuning, trees, draws, simulations, i);
      runner.OneIteration(tuning, draws(i), simulations(i));
    }
    action := runner.BestAction();
    tree := runner.nodes;
  }

  // ----------------------------------------------------------------- a search that hangs

  /** A game of one move, which loses: state 0, and state 1 in which player 1 has won. */
  function OneLosingMove(): Game<nat, nat, bool> {
    Game(2,
         (s: nat) => if s == 0 then Ongoing else Win(1),
         (s: nat) => 0,
         (s: nat) => false,
         (s: nat, a: nat) => 1,
         (s: nat, a: nat) => a == 0,
         (s: nat) => true,
         (s: nat) => true,
         (u: bool, s: nat, draw: nat) => (if u then Some(0) else None, false),
         (s: nat, draw: nat) => 0,
         (s: nat, draw: nat) => if s == 0 then Draw else Win(1))
  }

  /** The tree after its first iteration. */
  function AfterOne(): seq<Node<nat, nat, bool>> {
    [Node(1, [-1.0, 1.0], 0, Ongoing, Decision(false, false, [Child(0, 1)])),
     Node(1, [-1.0, 1.0], 1, Win(1), Decision(true, false, []))]
  }

  lemma LosingMoveIsGame()
    ensures WellBehaved(OneLosingMove()) && Plain(OneLosingMove())
    ensures Counted(OneLosingMove(), [NewNode(OneLosingMove(), 0)]) && Counted(OneLosingMove(), AfterOne())
  {
    RootIsCounted(OneLosingMove(), 0);
  }

  /** What the first selection ends with: the root has its only child. */
  function Added(): seq<Node<nat, nat, bool>> {
    [Node(0, [0.0, 0.0], 0, Ongoing, Decision(false, false, [Child(0, 1)])),
     Node(0, [0.0, 0.0], 1, Win(1), Decision(true, false, []))]
  }

  lemma FirstSelection(tuning: Tuning, draws: nat -> nat)
    requires WellBehaved(OneLosingMove()) && Counted(OneLosingMove(), [NewNode(OneLosingMove(), 0)])
    ensures Selecting(OneLosingMove(), tuning, [NewNode(OneLosingMove(), 0)], draws, 1) == Selection(Added(), [0, 1], true)
  {
    var game := OneLosingMove();
    var root := [NewNode(game, 0)];
    CountedIsReady(game, root, 0);
    assert NewNode(game, 0).total == [0.0, 0.0] && NewNode(game, 1).total == [0.0, 0.0];
    var none: seq<Child<nat>> := [];
    assert none + [Child(0, 1)] == [Child(0, 1)];
    var grown := Grow(game, root, 0, Decision(false, false, none), 0);
    assert |grown| == 2 && grown[0] == Added()[0] && grown[1] == Added()[1];
    assert grown == Added();
    assert PickAt(game, tuning, root, 0, draws(0)) == Pick(Picked(1, true, false), Added());
  }

  /** The first iteration gives that tree. */
  lemma FirstIteration(tuning: Tuning, draws: nat -> nat)
    ensures WellBehaved(OneLosingMove()) && Counted(OneLosingMove(), [NewNode(OneLosingMove(), 0)])
    ensures Selecting(OneLosingMove(), tuning, [NewNode(OneLosingMove(), 0)], draws, 1) == Selection(Added(), [0, 1], true)
    ensures AfterOne() == Backed(Added(), [0, 1], ValueOf(2, OneLosingMove().rollout(1, 0)))
  {
    LosingMoveIsGame();
    FirstSelection(tuning, draws);
    var value := ValueOf(2, Win(1));
    assert value == [-1.0, 1.0] && AddValue([0.0, 0.0], value) == value;
  }

  /** Whatever is tuned and drawn, its second selection never ends. */
  lemma LosingMoveHangs(tuning: Tuning, draws: nat -> nat)
    ensures WellBehaved(OneLosingMove()) && Counted(OneLosingMove(), AfterOne())
    ensures !Ends(OneLosingMove(), tuning, AfterOne(), draws)
  {
    LosingMoveIsGame();
    EndsExactly(OneLosingMove(), tuning, AfterOne(), draws);
  }
}
