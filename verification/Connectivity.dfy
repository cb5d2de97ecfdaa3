/** Territories joined through neighbours of one owner, and the depth-first search that finds them. */
module Connectivity {
  import opened RiskRules

  ghost predicate Edge(board: Board, land: seq<Territory>, t: nat, u: nat)
    requires |board.neighbors| == |land| == NUM_TERRITORIES
  {
    t < NUM_TERRITORIES && u < NUM_TERRITORIES && u in board.neighbors[t] && land[t].owner == land[u].owner
  }

  ghost predicate IsPath(board: Board, land: seq<Territory>, path: seq<nat>)
    requires |board.neighbors| == |land| == NUM_TERRITORIES
  {
    |path| > 0 && forall i :: 0 <= i < |path| - 1 ==> Edge(board, land, path[i], path[i + 1])
  }

  /** `t` can be reached from `seed` stepping between neighbours of the same owner. */
  ghost predicate Connected(board: Board, land: seq<Territory>, seed: nat, t: nat)
    requires |board.neighbors| == |land| == NUM_TERRITORIES
  {
    exists path :: IsPath(board, land, path) && path[0] == seed && path[|path| - 1] == t
  }

  lemma ConnectedSelf(board: Board, land: seq<Territory>, seed: nat)
    requires |board.neighbors| == |land| == NUM_TERRITORIES
    ensures Connected(board, land, seed, seed)
  {
    assert IsPath(board, land, [seed]);
  }

  lemma ConnectedStep(board: Board, land: seq<Territory>, seed: nat, t: nat, u: nat)
    requires |board.neighbors| == |land| == NUM_TERRITORIES
    requires Connected(board, land, seed, t) && Edge(board, land, t, u)
    ensures Connected(board, land, seed, u)
  {
    var path :| IsPath(board, land, path) && path[0] == seed && path[|path| - 1] == t;
    var longer := path + [u];
    assert IsPath(board, land, longer);
  }

  /** Every edge out of `from` has been followed. */
  ghost predicate Followed(board: Board, land: seq<Territory>, from: set<nat>, found: set<nat>)
    requires |board.neighbors| == |land| == NUM_TERRITORIES
  {
    forall t, u {:trigger Edge(board, land, t, u)} :: t in from && Edge(board, land, t, u) ==> u in found
  }

  lemma ClosedHoldsPath(board: Board, land: seq<Territory>, s: set<nat>, path: seq<nat>)
    requires |board.neighbors| == |land| == NUM_TERRITORIES
    requires Followed(board, land, s, s) && IsPath(board, land, path) && path[0] in s
    ensures path[|path| - 1] in s
  {
    for i := 0 to |path| - 1
      invariant path[i] in s
    {
      assert Edge(board, land, path[i], path[i + 1]);
    }
  }

  lemma ClosedHoldsConnected(board: Board, land: seq<Territory>, s: set<nat>, seed: nat, t: nat)
    requires |board.neighbors| == |land| == NUM_TERRITORIES
    requires Followed(board, land, s, s) && seed in s && Connected(board, land, seed, t)
    ensures t in s
  {
    var path :| IsPath(board, land, path) && path[0] == seed && path[|path| - 1] == t;
    ClosedHoldsPath(board, land, s, path);
  }

  lemma {:induction false} BoundedCount(s: set<nat>, n: nat)
    requires forall t :: t in s ==> t < n
    ensures |s| <= n
  {
    if n == 0 {
      assert s == {};
    } else {
      BoundedCount(s - {n - 1}, n - 1);
    }
  }

  /** The search's books: what was found is what was expanded plus what is stacked, once each. */
  ghost predicate Books(found: set<nat>, expanded: set<nat>, stacked: seq<nat>) {
    && (forall t :: t in found ==> t < NUM_TERRITORIES)
    && (forall t :: t in found <==> t in expanded || t in stacked)
    && (forall t :: t in stacked ==> t !in expanded)
    && (forall i, j :: 0 <= i < j < |stacked| ==> stacked[i] != stacked[j])
    && |found| == |expanded| + |stacked|
  }

  lemma PopKeepsBooks(found: set<nat>, expanded: set<nat>, stacked: seq<nat>)
    requires Books(found, expanded, stacked) && stacked != []
    ensures var elem := stacked[|stacked| - 1];
            && elem < NUM_TERRITORIES && elem in found && elem !in expanded
            && Books(found, expanded + {elem}, stacked[..|stacked| - 1])
    ensures |expanded| < NUM_TERRITORIES
  {
    BoundedCount(found, NUM_TERRITORIES);
    var elem := stacked[|stacked| - 1];
    var rest := stacked[..|stacked| - 1];
    assert stacked == rest + [elem];
    assert |expanded + {elem}| == |expanded| + 1;
  }

  /** A fresh territory always finds room on the stack. */
  lemma PushKeepsBooks(found: set<nat>, expanded: set<nat>, stacked: seq<nat>, elem: nat)
    requires Books(found, expanded, stacked) && elem < NUM_TERRITORIES && elem !in found
    ensures |stacked| < NUM_TERRITORIES
    ensures Books(found + {elem}, expanded, stacked + [elem])
  {
    BoundedCount(found + {elem}, NUM_TERRITORIES);
  }

  lemma FollowedGrows(board: Board, land: seq<Territory>, from: set<nat>, found: set<nat>, elem: nat)
    requires |board.neighbors| == |land| == NUM_TERRITORIES
    requires Followed(board, land, from, found)
    ensures Followed(board, land, from, found + {elem})
  {
  }

  lemma FollowedExpands(board: Board, land: seq<Territory>, from: set<nat>, found: set<nat>, elem: nat)
    requires ValidBoard(board) && |land| == NUM_TERRITORIES && elem < NUM_TERRITORIES
    requires Followed(board, land, from, found)
    requires forall j :: 0 <= j < |board.neighbors[elem]| && land[elem].owner == land[board.neighbors[elem][j]].owner
               ==> board.neighbors[elem][j] in found
    ensures Followed(board, land, from + {elem}, found)
  {
  }

  ghost predicate AllConnected(board: Board, land: seq<Territory>, seed: nat, found: set<nat>)
    requires |board.neighbors| == |land| == NUM_TERRITORIES
  {
    forall t :: t in found ==> Connected(board, land, seed, t)
  }

  lemma AllConnectedGrows(board: Board, land: seq<Territory>, seed: nat, found: set<nat>, elem: nat, neighbor: nat)
    requires |board.neighbors| == |land| == NUM_TERRITORIES
    requires AllConnected(board, land, seed, found) && elem in found && Edge(board, land, elem, neighbor)
    ensures AllConnected(board, land, seed, found + {neighbor})
  {
    ConnectedStep(board, land, seed, elem, neighbor);
  }

  /** Stacks the unseen neighbours of `elem` that share its owner. */
  method PushNeighbors(board: Board, land: seq<Territory>, ghost seed: nat, elem: nat, stack: array<nat>,
                       top0: nat, found0: set<nat>, ghost expanded: set<nat>)
    returns (top: nat, found: set<nat>)
    requires ValidBoard(board) && |land| == NUM_TERRITORIES == stack.Length && elem < NUM_TERRITORIES
    requires top0 <= NUM_TERRITORIES && elem in found0
    requires Books(found0, expanded + {elem}, stack[..top0])
    requires AllConnected(board, land, seed, found0) && Followed(board, land, expanded, found0)
    modifies stack
    ensures top <= NUM_TERRITORIES && found0 <= found
    ensures Books(found, expanded + {elem}, stack[..top])
    ensures AllConnected(board, land, seed, found) && Followed(board, land, expanded + {elem}, found)
  {
    top, found := top0, found0;
    for i := 0 to |board.neighbors[elem]|
      invariant top <= NUM_TERRITORIES && found0 <= found
      invariant Books(found, expanded + {elem}, stack[..top])
      invariant AllConnected(board, land, seed, found) && Followed(board, land, expanded, found)
      invariant forall j :: 0 <= j < i && land[elem].owner == land[board.neighbors[elem][j]].owner ==>
                  board.neighbors[elem][j] in found
    {
      var neighbor := board.neighbors[elem][i];
      if neighbor !in found && land[elem].owner == land[neighbor].owner {
        PushKeepsBooks(found, expanded + {elem}, stack[..top], neighbor);
        AllConnectedGrows(board, land, seed, found, elem, neighbor);
        FollowedGrows(board, land, expanded, found, neighbor);
        ghost var stacked := stack[..top];
        found := found + {neighbor};
        stack[top] := neighbor;
        top := top + 1;
        assert stack[..top] == stacked + [neighbor];
      }
    }
    FollowedExpands(board, land, expanded, found, elem);
  }

  /**
   The search: a stack in a buffer with one slot per territory, which no push overruns;
   the result is exactly the connected territories.
   */
  method GetConnectedComponent(board: Board, land: seq<Territory>, seed: nat) returns (result: set<nat>)
    requires ValidBoard(board) && |land| == NUM_TERRITORIES && seed < NUM_TERRITORIES
    ensures forall t: nat :: t in result <==> Connected(board, land, seed, t)
  {
    var stack := new nat[NUM_TERRITORIES];
    ghost var expanded: set<nat> := {};
    result := {seed};
    stack[0] := seed;
    var top := 1;
    ConnectedSelf(board, land, seed);
    assert stack[..1] == [seed];
    while top != 0
      invariant 0 <= top <= NUM_TERRITORIES
      invariant seed in result && Books(result, expanded, stack[..top])
      invariant AllConnected(board, land, seed, result) && Followed(board, land, expanded, result)
      decreases NUM_TERRITORIES - |expanded|
    {
      PopKeepsBooks(result, expanded, stack[..top]);
      top := top - 1;
      var elem := stack[top];
      assert stack[..top + 1][..top] == stack[..top];
      top, result := PushNeighbors(board, land, seed, elem, stack, top, result, expanded);
      assert |expanded + {elem}| == |expanded| + 1;
      expanded := expanded + {elem};
    }
    forall t: nat
      ensures t in result <==> Connected(board, land, seed, t)
    {
      if Connected(board, land, seed, t) {
        ClosedHoldsConnected(board, land, result, seed, t);
      }
    }
  }
}
