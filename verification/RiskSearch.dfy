/**
 Risk as a game to search: the rules, the proposer's sampler and the dice are well behaved,
 and no move wins, so that no search of it comes to a dead end.
 */
module RiskSearch {
  import opened Options
  import opened RiskRules
  import opened RiskInvariant
  import opened RiskRuns
  import opened RiskProposer
  import opened ActionSets
  import RiskMatch
  import SearchTree
  import TreeSearch

  /** What the generator gives during one pick: a stream for each draw of the proposer. */
  type Reading = nat -> nat -> Draws

  type Playout = (State, nat) -> SearchTree.Outcome

  function Verdict(s: State): SearchTree.Outcome {
    if s.territories != [] && Wins(s.territories, s.territories[0].owner) then SearchTree.Win(s.territories[0].owner)
    else SearchTree.Ongoing
  }

  ghost predicate Playable(s: State, action: Action) {
    Inv(s) && Legal(s, action) && (action.RollDice? ==> RollReady(s))
  }

  /** The game of `players` seats as the search sees it, for either switch of the proposer. */
  ghost function GameOf(players: nat, border: bool, favorable: bool, read: Reading,
          playout: Playout): SearchTree.Game<State, Action, set<Action>> {
    SearchTree.Game(
      players,
      (s: State) => Verdict(s),
      (s: State) => s.current,
      (s: State) => s.current == -1,
      (s: State, action: Action) => if Playable(s, action) then Apply(s, action) else s,
      (s: State, action: Action) => Playable(s, action),
      (s: State) => Inv(s) && s.players == players,
      (s: State) => {},
      (seen: set<Action>, s: State, draw: nat) =>
        if DecisionNode(s) then NextOf(s, border, favorable, seen, read(draw)) else (None, seen),
      (s: State, draw: nat) => if RollReady(s) then RiskMatch.Dice(s, read(draw)(0)) else InitialPlace(0),
      playout)
  }

  ghost predicate SeatsWin(players: nat, playout: Playout) {
    forall s: State, draw: nat :: playout(s, draw).Win? ==> 0 <= playout(s, draw).player < players
  }

  lemma MoverIsSeat(s: State)
    requires Inv(s) && s.current != -1
    ensures 0 <= s.current < s.players
  {
  }

  lemma DiceAreReady(s: State, draws: Draws)
    requires Inv(s) && s.current == -1
    ensures RollReady(s) && Playable(s, RiskMatch.Dice(s, draws))
  {
    RiskMatch.DiceAreTheLegalOnes(s, RiskMatch.Dice(s, draws));
  }

  /** A fresh sampler gives an action. */
  lemma FreshGives(s: State, border: bool, favorable: bool, streams: nat -> Draws)
    requires DecisionNode(s)
    ensures NextOf(s, border, favorable, {}, streams).0.Some?
  {
    FirstDrawIsNew(s, border, favorable, SupportAt(s, favorable), streams);
    SamplesAreSamples(s, border, favorable, streams);
    RepeatsAreOld(s, border, favorable, SupportAt(s, favorable), {}, streams, Samples(s, border, favorable, streams));
  }

  lemma PlayKeepsGame(s: State, action: Action)
    requires Playable(s, action)
    ensures Inv(Apply(s, action)) && Apply(s, action).players == s.players
  {
    StepKeepsInv(s, action);
    StepKeepsTable(s, action);
  }

  lemma SeatsDecide(players: nat, border: bool, favorable: bool, read: Reading, playout: Playout)
    ensures SearchTree.MoversAreSeats(GameOf(players, border, favorable, read, playout))
  {
    var game := GameOf(players, border, favorable, read, playout);
    forall s | SearchTree.Deciding(game, s)
      ensures 0 <= game.mover(s) < game.players
    {
      MoverIsSeat(s);
    }
  }

  lemma SamplersGive(players: nat, border: bool, favorable: bool, read: Reading, playout: Playout)
    ensures SearchTree.GeneratorsGive(GameOf(players, border, favorable, read, playout))
  {
    var game := GameOf(players, border, favorable, read, playout);
    forall s, draw | SearchTree.Deciding(game, s)
      ensures game.next(game.propose(s), s, draw).0.Some?
    {
      FreshGives(s, border, favorable, read(draw));
    }
  }

  lemma SamplesAreLegal(players: nat, border: bool, favorable: bool, read: Reading, playout: Playout)
    ensures SearchTree.GivenIsLegal(GameOf(players, border, favorable, read, playout))
  {
    var game := GameOf(players, border, favorable, read, playout);
    forall seen, s, draw | SearchTree.Deciding(game, s) && game.next(seen, s, draw).0.Some?
      ensures game.legal(s, game.next(seen, s, draw).0.value)
    {
      NextIsPlayable(s, border, favorable, seen, read(draw));
    }
  }

  lemma NextIsPlayable(s: State, border: bool, favorable: bool, seen: set<Action>, streams: nat -> Draws)
    requires DecisionNode(s) && NextOf(s, border, favorable, seen, streams).0.Some?
    ensures Playable(s, NextOf(s, border, favorable, seen, streams).0.value)
  {
    var action := NextOf(s, border, favorable, seen, streams).0;
    SamplesAreSamples(s, border, favorable, streams);
    NewIsListed(s, border, favorable, SupportAt(s, favorable), seen, streams, Samples(s, border, favorable, streams), action);
    LegalRollIsReady(s, action.value);
  }

  lemma LegalRollIsReady(s: State, action: Action)
    requires Inv(s) && Legal(s, action)
    ensures action.RollDice? ==> RollReady(s)
  {
  }

  lemma DiceAreLegal(players: nat, border: bool, favorable: bool, read: Reading, playout: Playout)
    ensures SearchTree.RolledIsLegal(GameOf(players, border, favorable, read, playout))
  {
    var game := GameOf(players, border, favorable, read, playout);
    forall s, draw | SearchTree.Rolling(game, s)
      ensures game.legal(s, game.sampleChance(s, draw))
    {
      DiceAreReady(s, read(draw)(0));
    }
  }

  lemma PlayStaysGood(players: nat, border: bool, favorable: bool, read: Reading, playout: Playout)
    ensures SearchTree.PlayStaysGood(GameOf(players, border, favorable, read, playout))
  {
    var game := GameOf(players, border, favorable, read, playout);
    forall s, a | game.good(s) && game.outcome(s).Ongoing? && game.legal(s, a)
      ensures game.good(game.apply(s, a))
    {
      PlayKeepsGame(s, a);
    }
  }

  lemma IsWellBehaved(players: nat, border: bool, favorable: bool, read: Reading, playout: Playout)
    requires SeatsWin(players, playout)
    ensures SearchTree.WellBehaved(GameOf(players, border, favorable, read, playout))
  {
    SeatsDecide(players, border, favorable, read, playout);
    SamplersGive(players, border, favorable, read, playout);
    SamplesAreLegal(players, border, favorable, read, playout);
    DiceAreLegal(players, border, favorable, read, playout);
    PlayStaysGood(players, border, favorable, read, playout);
  }

  lemma HasNoGifts(players: nat, border: bool, favorable: bool, read: Reading, playout: Playout)
    ensures SearchTree.NoGifts(GameOf(players, border, favorable, read, playout))
  {
    var game := GameOf(players, border, favorable, read, playout);
    forall s, a | SearchTree.Deciding(game, s) && game.legal(s, a)
      ensures !game.outcome(game.apply(s, a)).Win?
    {
      DecisionWinsNothing(s, a);
    }
  }

  lemma DecisionWinsNothing(s: State, action: Action)
    requires Playable(s, action) && s.current != -1 && Verdict(s).Ongoing?
    ensures !Verdict(Apply(s, action)).Win?
  {
    StepKeepsInv(s, action);
    var seat := Apply(s, action).territories[0].owner;
    OnlyRollsWin(s, action, seat);
    WinnerIsSeen(s, seat);
  }

  lemma WinnerIsSeen(s: State, seat: int)
    requires Inv(s) && Verdict(s).Ongoing?
    ensures !Wins(s.territories, seat)
  {
    assert s.territories[0].owner != seat || !Wins(s.territories, seat);
  }

  /** No search of Risk comes to a dead end. */
  lemma SearchGoesOn(players: nat, border: bool, favorable: bool, read: Reading, playout: Playout, root: State,
                     tuning: SearchTree.Tuning, draws: nat -> nat -> nat, simulations: nat -> nat, n: nat)
    requires SeatsWin(players, playout) && Inv(root) && root.players == players
    ensures var game := GameOf(players, border, favorable, read, playout);
      SearchTree.WellBehaved(game) && TreeSearch.TreeAfter(game, tuning, root, draws, simulations, n).Some?
  {
    IsWellBehaved(players, border, favorable, read, playout);
    HasNoGifts(players, border, favorable, read, playout);
    TreeSearch.NoGiftsAlwaysTree(GameOf(players, border, favorable, read, playout), tuning, root, draws, simulations, n);
  }

  /**
   So where a player decides, any number of iterations ends, the policy may be asked, and what
   it answers is a legal action with at least an even share of the iterations behind it.
   */
  lemma SearchAnswers(players: nat, border: bool, favorable: bool, read: Reading, playout: Playout, root: State,
                      tuning: SearchTree.Tuning, draws: nat -> nat -> nat, simulations: nat -> nat, n: nat)
    requires SeatsWin(players, playout) && DecisionNode(root) && root.players == players && Verdict(root).Ongoing? && n > 0
    ensures var game := GameOf(players, border, favorable, read, playout);
      && SearchTree.WellBehaved(game) && SearchTree.Deciding(game, root)
      && var tree := TreeSearch.TreeAfter(game, tuning, root, draws, simulations, n);
         && tree.Some? && (exists action :: TreeSearch.IsRobust(game, tree.value, action))
         && forall action :: TreeSearch.IsRobust(game, tree.value, action) ==> Legal(root, action)
  {
    SearchGoesOn(players, border, favorable, read, playout, root, tuning, draws, simulations, n);
    var game := GameOf(players, border, favorable, read, playout);
    TreeSearch.RobustExists(game, TreeSearch.TreeAfter(game, tuning, root, draws, simulations, n).value);
  }
}
