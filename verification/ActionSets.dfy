/**
 Drawing actions without replacement: rejection of repeats over the proposer, and
 swap-removal from an explicit list.
 */
module ActionSets {
  import opened Options
  import opened RiskRules
  import opened RiskProposer

  const MAX_CONSECUTIVE_COLLISIONS: nat := 64
  const MAX_DRAW_BUDGET: nat := 0x10_0000

  /** A fresh action, the end of the known support, or a budget spent on repeats. */
  datatype Drawn = Fresh(action: Action) | Exhausted | GaveUp

  function Budget(support: Support): nat {
    match support
    case Unknown => MAX_CONSECUTIVE_COLLISIONS
    case Known(count) =>
      if MAX_CONSECUTIVE_COLLISIONS * count <= MAX_DRAW_BUDGET then MAX_CONSECUTIVE_COLLISIONS * count else MAX_DRAW_BUDGET
  }

  /** The proposer can be sampled at this node, and this is its support there. */
  ghost predicate SupportOf(s: State, favorable: bool, support: Support) {
    && DecisionNode(s)
    && BestSource(s, NUM_TERRITORIES).territory < NUM_TERRITORIES
    && (support.Unknown? <==> ReinforcePending(s))
    && (support.Known? ==> support.count == |SupportList(s, favorable)|)
  }

  lemma {:induction false} DistinctSubset(list: seq<Action>, seen: set<Action>)
    requires Distinct(list) && (forall a :: a in seen ==> a in list)
    ensures |seen| <= |list|
    ensures |seen| == |list| ==> forall a :: a in list ==> a in seen
  {
    if list == [] {
      assert seen == {};
    } else {
      var last := |list| - 1;
      var x := list[last];
      forall a | a in seen - {x} ensures a in list[..last] {
        var i :| 0 <= i < |list| && list[i] == a;
        assert list[..last][i] == a;
      }
      DistinctSubset(list[..last], seen - {x});
      assert if x in seen then |seen - {x}| == |seen| - 1 else seen - {x} == seen;
      if |seen| == |list| {
        assert x in seen;
        forall a | a in list
          ensures a in seen
        {
          var i :| 0 <= i < |list| && list[i] == a;
          if i < last {
            assert list[..last][i] == a;
            assert a in list[..last];
          } else {
            assert a == x;
          }
        }
      }
    }
  }

  /** A whole budget of draws goes on what has been handed out. */
  ghost predicate OnlyRepeats(s: State, border: bool, favorable: bool, support: Support, seen: set<Action>,
                              streams: nat -> Draws)
    requires DecisionNode(s)
  {
    forall i: nat :: i < Budget(support) ==> Sampled(s, border, favorable, streams(i)) in seen
  }

  /** The first of `samples` from `i` on, and before `budget`, that is not in `seen`. */
  ghost function FirstNew<A>(samples: nat -> A, seen: set<A>, i: nat, budget: nat): (a: Option<A>)
    requires i <= budget
    ensures a.Some? ==> a.value !in seen && exists j: nat :: i <= j < budget && samples(j) == a.value
    ensures a.None? <==> forall j: nat :: i <= j < budget ==> samples(j) in seen
    decreases budget - i
  {
    if i == budget then None
    else if samples(i) !in seen then Some(samples(i))
    else FirstNew(samples, seen, i + 1, budget)
  }

  lemma {:induction false} FirstNewFrom<A>(samples: nat -> A, seen: set<A>, k: nat, i: nat, budget: nat)
    requires k <= i < budget && samples(i) !in seen && forall j: nat :: k <= j < i ==> samples(j) in seen
    ensures FirstNew(samples, seen, k, budget) == Some(samples(i))
    decreases i - k
  {
    if k < i {
      FirstNewFrom(samples, seen, k + 1, i, budget);
    }
  }

  /** What the proposer makes of the streams. */
  ghost function Samples(s: State, border: bool, favorable: bool, streams: nat -> Draws): nat -> Action
    requires DecisionNode(s)
  {
    (i: nat) => Sampled(s, border, favorable, streams(i))
  }

  ghost predicate SampleAt(s: State, border: bool, favorable: bool, streams: nat -> Draws,
          samples: nat -> Action, i: nat)
    requires DecisionNode(s)
  {
    samples(i) == Sampled(s, border, favorable, streams(i))
  }

  ghost predicate AreSamples(s: State, border: bool, favorable: bool, streams: nat -> Draws, samples: nat -> Action)
    requires DecisionNode(s)
  {
    forall i: nat :: SampleAt(s, border, favorable, streams, samples, i)
  }

  lemma SamplesAreSamples(s: State, border: bool, favorable: bool, streams: nat -> Draws)
    requires DecisionNode(s)
    ensures AreSamples(s, border, favorable, streams, Samples(s, border, favorable, streams))
  {
  }

  ghost function SupportAt(s: State, favorable: bool): (support: Support)
    requires DecisionNode(s)
    ensures SupportOf(s, favorable, support)
  {
    SourceOnBoard(s, NUM_TERRITORIES);
    if ReinforcePending(s) then Unknown else Known(|SupportList(s, favorable)|)
  }

  /** What the sampler hands out next, and what it has then handed out. */
  ghost function NextOf(s: State, border: bool, favorable: bool, seen: set<Action>,
          streams: nat -> Draws): (Option<Action>, set<Action>)
    requires DecisionNode(s)
  {
    var support := SupportAt(s, favorable);
    if support.Known? && |seen| >= support.count then (None, seen)
    else
      var action := FirstNew(Samples(s, border, favorable, streams), seen, 0, Budget(support));
      (action, if action.Some? then seen + {action.value} else seen)
  }

  function Result(drawn: Drawn, seen: set<Action>): (Option<Action>, set<Action>) {
    (if drawn.Fresh? then Some(drawn.action) else None, seen)
  }

  lemma SampleIsListed(s: State, border: bool, favorable: bool, support: Support, streams: nat -> Draws,
          samples: nat -> Action, i: nat)
    requires SupportOf(s, favorable, support) && AreSamples(s, border, favorable, streams, samples)
    ensures Legal(s, samples(i)) && (support.Known? ==> samples(i) in SupportList(s, favorable))
  {
    assert SampleAt(s, border, favorable, streams, samples, i);
    SampledIsLegal(s, border, favorable, streams(i));
    if support.Known? {
      ChoiceIsListed(s, favorable, streams(i));
    }
  }

  lemma RepeatsAreOld(s: State, border: bool, favorable: bool, support: Support, seen: set<Action>,
          streams: nat -> Draws, 
                      samples: nat -> Action)
    requires DecisionNode(s) && AreSamples(s, border, favorable, streams, samples)
    ensures OnlyRepeats(s, border, favorable, support, seen, streams)
       <==> forall i: nat :: i < Budget(support) ==> samples(i) in seen
  {
    forall i: nat
      ensures samples(i) == Sampled(s, border, favorable, streams(i))
    {
      assert SampleAt(s, border, favorable, streams, samples, i);
    }
  }

  /** What is new is legal and listed; there is none where all draws are repeats. */
  lemma NewIsListed(s: State, border: bool, favorable: bool, support: Support, seen: set<Action>,
          streams: nat -> Draws, 
                    samples: nat -> Action, a: Option<Action>)
    requires SupportOf(s, favorable, support) && AreSamples(s, border, favorable, streams, samples)
    requires a == FirstNew(samples, seen, 0, Budget(support))
    ensures a.None? <==> OnlyRepeats(s, border, favorable, support, seen, streams)
    ensures a.Some? ==> a.value !in seen && Legal(s, a.value)
    ensures a.Some? && support.Known? ==> a.value in SupportList(s, favorable)
  {
    RepeatsAreOld(s, border, favorable, support, seen, streams, samples);
    if a.Some? {
      var i: nat :| i < Budget(support) && samples(i) == a.value;
      SampleIsListed(s, border, favorable, support, streams, samples, i);
    }
  }

  lemma NewIsNext(s: State, border: bool, favorable: bool, support: Support, seen: set<Action>,
          streams: nat -> Draws, a: Option<Action>)
    requires SupportOf(s, favorable, support) && (support.Known? ==> |seen| < support.count)
    requires a == FirstNew(Samples(s, border, favorable, streams), seen, 0, Budget(support))
    ensures NextOf(s, border, favorable, seen, streams) == (a, if a.Some? then seen + {a.value} else seen)
  {
    assert SupportAt(s, favorable) == support;
  }

  /** The budget is spent, and the assert that follows fails: a known support is not handed out yet. */
  ghost predicate AssertFails(s: State, border: bool, favorable: bool, support: Support, seen: set<Action>,
                              streams: nat -> Draws)
    requires DecisionNode(s)
  {
    support.Known? && |seen| < support.count && OnlyRepeats(s, border, favorable, support, seen, streams)
  }

  class DedupSampler {
    const border: bool
    const favorable: bool
    const support: Support
    var seen: set<Action>

    ghost predicate Valid(s: State)
      reads this
    {
      && SupportOf(s, favorable, support)
      && (support.Known? ==> forall a :: a in seen ==> a in SupportList(s, favorable))
    }

    constructor (s: State, border: bool, favorable: bool)
      requires DecisionNode(s)
      ensures Valid(s) && seen == {} && this.border == border && this.favorable == favorable
    {
      var found := SupportSize(s, favorable);
      this.border, this.favorable, support, seen := border, favorable, found, {};
    }

    /**
     Samples until something new comes up. The exact stop means that every action there is
     has been handed out; running out of budget only means that every draw was a repeat.
     */
    method Next(s: State, streams: nat -> Draws) returns (drawn: Drawn)
      requires Valid(s)
      modifies this
      ensures Valid(s)
      ensures drawn.Fresh? ==>
        drawn.action !in old(seen) && Legal(s, drawn.action) && seen == old(seen) + {drawn.action}
      ensures !drawn.Fresh? ==> seen == old(seen)
      ensures drawn.Exhausted? <==> support.Known? && old(|seen|) >= support.count
      ensures drawn.Exhausted? ==> forall a :: a in SupportList(s, favorable) <==> a in seen
      ensures drawn.GaveUp? <==>
        && (support.Known? ==> old(|seen|) < support.count)
        && OnlyRepeats(s, border, favorable, support, old(seen), streams)
      ensures Result(drawn, seen) == NextOf(s, border, favorable, old(seen), streams)
    {
      if support.Known? && |seen| >= support.count {
        SupportIsDistinct(s, favorable);
        DistinctSubset(SupportList(s, favorable), seen);
        return Exhausted;
      }
      ghost var samples := Samples(s, border, favorable, streams);
      SamplesAreSamples(s, border, favorable, streams);
      var action := DrawNew(s, border, favorable, seen, Budget(support), streams, samples);
      NewIsListed(s, border, favorable, support, seen, streams, samples, action);
      NewIsNext(s, border, favorable, support, seen, streams, action);
      if action.None? {
        return GaveUp;
      }
      seen := seen + {action.value};
      drawn := Fresh(action.value);
    }
  }

  /** Draws until something new comes up, or the budget is spent. */
  method DrawNew(s: State, border: bool, favorable: bool, seen: set<Action>, budget: nat, streams: nat -> Draws,
                 ghost samples: nat -> Action) returns (action: Option<Action>)
    requires DecisionNode(s) && AreSamples(s, border, favorable, streams, samples)
    ensures action == FirstNew(samples, seen, 0, budget)
  {
    for draws := 0 to budget
      invariant forall i: nat :: i < draws ==> samples(i) in seen
    {
      var drawn := DrawOne(s, border, favorable, streams, samples, draws);
      if drawn !in seen {
        FirstNewFrom(samples, seen, 0, draws, budget);
        return Some(drawn);
      }
    }
    action := None;
  }

  method DrawOne(s: State, border: bool, favorable: bool, streams: nat -> Draws, ghost samples: nat -> Action, i: nat)
    returns (action: Action)
    requires DecisionNode(s) && AreSamples(s, border, favorable, streams, samples)
    ensures action == samples(i)
  {
    assert SampleAt(s, border, favorable, streams, samples, i);
    action := Sample(s, border, favorable, streams(i));
  }

  /** Once anything has been handed out, some stream of draws repeats it. */
  lemma RepeatsCanSpendAnyBudget(s: State, favorable: bool, support: Support, seen: set<Action>)
    returns (draws: Draws)
    requires SupportOf(s, favorable, support) && support.Known?
    requires seen != {} && forall a :: a in seen ==> a in SupportList(s, favorable)
    ensures Choice(s, favorable, draws) in seen
  {
    var a :| a in seen;
    draws := DrawsFor(s, favorable, a);
  }

  /**
   The assert that calls a support over-reported can fail although the support is exact:
   some draws make it fail exactly when something has been handed out and something has not.
   */
  lemma AssertCanFail(s: State, border: bool, favorable: bool, support: Support, seen: set<Action>)
    requires SupportOf(s, favorable, support) && support.Known?
    requires forall a :: a in seen ==> a in SupportList(s, favorable)
    ensures (exists streams: nat -> Draws :: AssertFails(s, border, favorable, support, seen, streams))
       <==> seen != {} && |seen| < support.count
  {
    if seen != {} && |seen| < support.count {
      var draws := RepeatsCanSpendAnyBudget(s, favorable, support, seen);
      var streams: nat -> Draws := (i: nat) => draws;
      assert AssertFails(s, border, favorable, support, seen, streams);
    }
    if streams: nat -> Draws :| AssertFails(s, border, favorable, support, seen, streams) {
      assert Sampled(s, border, favorable, streams(0)) in seen;
    }
  }

  /** A fresh generator has an action to give: it neither stops nor gives up. */
  lemma FirstDrawIsNew(s: State, border: bool, favorable: bool, support: Support, streams: nat -> Draws)
    requires SupportOf(s, favorable, support)
    ensures support.Known? ==> support.count > 0
    ensures !OnlyRepeats(s, border, favorable, support, {}, streams)
  {
    if support.Known? {
      ChoiceIsListed(s, favorable, streams(0));
    }
    assert Sampled(s, border, favorable, streams(0)) !in {};
  }

  // ------------------------------------------------------------------ swap-removal

  /** A list drawn from by moving the pick to the back and dropping it. */
  class LegalActionSet<A(==)> {
    const actions: array<A>
    var size: nat

    ghost predicate Valid()
      reads this
    {
      size <= actions.Length
    }

    constructor (actions: array<A>)
      ensures Valid() && this.actions == actions && size == actions.Length
    {
      this.actions, size := actions, actions.Length;
    }

    /** `pick` is the generator's choice among what is left; what is drawn is gone, the rest stays. */
    method Next(pick: nat) returns (drawn: Option<A>)
      requires Valid() && (size > 0 ==> pick < size)
      modifies this, actions
      ensures Valid()
      ensures drawn.None? <==> old(size) == 0
      ensures drawn.None? ==> size == 0
      ensures drawn.Some? ==>
        && size == old(size) - 1
        && drawn.value == old(actions[pick])
        && multiset(old(actions[..size])) == multiset(actions[..size]) + multiset{drawn.value}
    {
      if size == 0 {
        return None;
      }
      ghost var before := actions[..size];
      actions[pick], actions[size - 1] := actions[size - 1], actions[pick];
      var value := actions[size - 1];
      size := size - 1;
      SwapRemoval(before, actions[..size], pick);
      drawn := Some(value);
    }
  }

  lemma SwapRemoval<A>(before: seq<A>, after: seq<A>, pick: nat)
    requires pick < |before| == |after| + 1
    requires forall i :: 0 <= i < |after| ==> after[i] == if i == pick then before[|after|] else before[i]
    ensures multiset(before) == multiset(after) + multiset{before[pick]}
  {
    var n := |after|;
    assert before == before[..n] + [before[n]];
    if pick < n {
      assert before[..n] == before[..pick] + [before[pick]] + before[pick + 1..n];
      assert after == before[..pick] + [before[n]] + before[pick + 1..n];
    } else {
      assert after == before[..n];
    }
  }
}
