/**
 One person against a policy in every other seat. Whatever the policies answer and however
 the dice fall, every step played is a legal one, and a call always comes to an end.
 Each use of the generator is an arbitrary stream of its own.
 */
module RiskMatch {
  import opened Arithmetic
  import opened Options
  import opened Sequences
  import opened RiskRules
  import opened RiskInvariant
  import opened RiskRuns
  import opened RiskProposer
  import opened RiskView

  type Policy = (State, Draws) -> Action

  /** A step played: who took it, what it was, and where it left the game. */
  datatype Event = Event(player: int, action: Action, after: State)

  // ------------------------------------------------------------------ legal play

  /** Where the game stands after `events`, played from `start`. */
  function Latest(start: State, events: seq<Event>): State {
    if events == [] then start else events[|events| - 1].after
  }

  /** Every event is a legal step of the player to move, from where the one before left off. */
  ghost predicate Plays(start: State, events: seq<Event>) {
    events == [] ||
    var n := |events| - 1;
    var before := Latest(start, events[..n]);
    && Plays(start, events[..n])
    && events[n].player == before.current
    && Step(before, events[n].action, events[n].after)
  }

  lemma PlaysOneMore(start: State, events: seq<Event>, e: Event)
    requires Plays(start, events)
    requires e.player == Latest(start, events).current && Step(Latest(start, events), e.action, e.after)
    ensures Plays(start, events + [e]) && Latest(start, events + [e]) == e.after
  {
    assert (events + [e])[..|events|] == events;
  }

  lemma JoinOneMore(start: State, first: seq<Event>, rest: seq<Event>, e: Event)
    requires Plays(start, first + rest) && Latest(start, first + rest) == Latest(Latest(start, first), rest)
    requires Plays(Latest(start, first), rest + [e])
    ensures Plays(start, first + rest + [e]) && Latest(start, first + rest + [e]) == e.after
  {
    assert (rest + [e])[..|rest|] == rest;
    PlaysOneMore(start, first + rest, e);
  }

  /** What is played between two answers can be joined into one game. */
  lemma {:induction false} PlaysJoin(start: State, first: seq<Event>, second: seq<Event>)
    requires Plays(start, first) && Plays(Latest(start, first), second)
    ensures Plays(start, first + second) && Latest(start, first + second) == Latest(Latest(start, first), second)
  {
    if second == [] {
      assert first + second == first;
    } else {
      var n := |second| - 1;
      var rest := second[..n];
      PlaysJoin(start, first, rest);
      LastApart(first, second);
      JoinOneMore(start, first, rest, second[n]);
    }
  }

  // ------------------------------------------------------------------------ dice

  /** Fair dice for the battle: one draw for every die in use, none for the others. */
  method SampleChance(s: State, draws: Draws) returns (action: Action)
    requires RollReady(s)
    ensures action == Dice(s, draws)
  {
    var attacker: seq<int>, defender: seq<int> := [0, 0, 0], [0, 0];
    var dice, answered := s.attack.value.dice, s.defense.value;
    for i := 0 to dice
      invariant |attacker| == 3
      invariant forall j :: 0 <= j < 3 ==> attacker[j] == if j < i then draws(j) % 6 + 1 else 0
    {
      attacker := attacker[i := draws(i) % 6 + 1];
    }
    for i := 0 to answered
      invariant |defender| == 2
      invariant forall j :: 0 <= j < 2 ==> defender[j] == if j < i then draws(dice + j) % 6 + 1 else 0
    {
      defender := defender[i := draws(dice + i) % 6 + 1];
    }
    assert attacker == Dice(s, draws).attacker && defender == Dice(s, draws).defender;
    action := RollDice(attacker, defender);
  }

  function Dice(s: State, draws: Draws): (action: Action)
    requires RollReady(s)
    ensures action.RollDice?
  {
    var dice, answered := s.attack.value.dice, s.defense.value;
    RollDice(seq(3, j requires j >= 0 => if j < dice then draws(j) % 6 + 1 else 0),
             seq(2, j requires j >= 0 => if j < answered then draws(dice + j) % 6 + 1 else 0))
  }

  /** The dice that can be thrown are exactly those the rules accept. */
  lemma DiceAreTheLegalOnes(s: State, action: Action)
    requires RollReady(s) && action.RollDice? && |s.board.neighbors| == NUM_TERRITORIES
    ensures Legal(s, action) <==> exists draws: Draws :: Dice(s, draws) == action
  {
    if Legal(s, action) {
      var dice := s.attack.value.dice;
      var draws: Draws := (j: nat) =>
        var face := if j < dice then (if j < 3 then action.attacker[j] else 0)
                    else if j - dice < 2 then action.defender[j - dice] else 0;
        if 1 <= face <= 6 then face - 1 else 0;
      forall j | 0 <= j < 6 ensures j % 6 == j {}
      assert Dice(s, draws).attacker == action.attacker;
      assert Dice(s, draws).defender == action.defender;
    }
  }

  // -------------------------------------------------------------------- one battle

  predicate Pending(s: State) {
    s.attack.Some? && s.defense.None?
  }

  /** As many dice as the rules allow in defence. */
  function MostDice(s: State): Action
    requires Shape(s) && s.attack.Some? && OnBoard(s.attack.value.target)
  {
    QueueDefense(Min(2, s.territories[s.attack.value.target].units))
  }

  /** It may be played, and no defence that may be has more dice. */
  lemma MostDiceIsMost(s: State)
    requires Inv(s) && Pending(s)
    ensures Legal(s, MostDice(s)) && forall dice :: LegalDefense(s, dice) ==> dice <= MostDice(s).dice
  {
  }

  /** Steps that need no one, still to be played. */
  function Unsettled(s: State): nat {
    if s.attack.None? then 0 else if s.defense.None? then 2 else 1
  }

  lemma SettlingGoesOn(s: State, action: Action)
    requires Inv(s) && s.attack.Some? && Legal(s, action)
    ensures action.RollDice? ==> RollReady(s)
    ensures Unsettled(Apply(s, action)) == Unsettled(s) - 1
    ensures Apply(s, action).placing == s.placing
  {
    LegalRollIsReady(s, action);
  }

  /** `after` is `s` with its dice rolled. */
  ghost predicate Rolled(s: State, after: State) {
    && RollReady(s) && |s.board.neighbors| == NUM_TERRITORIES
    && exists roll: Action :: roll.RollDice? && Legal(s, roll) && after == Apply(s, roll)
  }

  /** The attack the person makes: as many dice as the source allows. */
  function Assault(s: State, source: int, target: int, move: int): Action
    requires Shape(s) && OnBoard(source)
  {
    PlayerMove(None, Some(QueuedAttack(source, target, Min(3, s.territories[source].units - 1), move)))
  }

  /** No attack that may be made on the target has more dice; and if any may be, so may this one. */
  lemma AssaultIsMost(s: State, q: QueuedAttack)
    requires Inv(s) && Legal(s, PlayerMove(None, Some(q)))
    ensures var assault := Assault(s, q.source, q.target, MOVE_ALL);
      && Legal(s, assault) && assault.attack.value.dice >= q.dice
      && assault.attack.value.source == q.source && assault.attack.value.target == q.target
  {
  }

  /** `after` is `s` with one whole battle fought between the two territories. */
  ghost predicate Fought(s: State, after: State, source: int, target: int)
    requires Shape(s) && Shape(after) && OnBoard(source) && OnBoard(target)
  {
    && after.attack.None? && after.defense.None? && after.current == s.current
    && after.turns == s.turns && after.placing == s.placing && after.players == s.players && after.board == s.board
    && after.placements == s.placements
    && (forall t :: 0 <= t < NUM_TERRITORIES && t != source && t != target ==> after.territories[t] == s.territories[t])
    && after.territories[source].owner == s.current && after.territories[source].units >= 1
    && after.territories[source].units + after.territories[target].units
       < s.territories[source].units + s.territories[target].units
    && (after.territories[target].owner == s.current || after.territories[target].owner == s.territories[target].owner)
  }

  /** Attack, defence and roll make one battle. */
  lemma BattleIsFought(s: State, q: QueuedAttack, dice: int, roll: Action)
    requires Inv(s) && Legal(s, PlayerMove(None, Some(q)))
    requires var queued := ApplyAttack(s, q); LegalDefense(queued, dice)
    requires var answered := ApplyAttack(s, q).(defense := Some(dice), current := -1);
      roll.RollDice? && Legal(answered, roll)
    ensures var answered := ApplyAttack(s, q).(defense := Some(dice), current := -1);
      Inv(answered) && RollReady(answered) && Fought(s, Apply(answered, roll), q.source, q.target)
  {
    StepKeepsInv(s, PlayerMove(None, Some(q)));
    StepKeepsInv(ApplyAttack(s, q), QueueDefense(dice));
    RollOutcome(ApplyAttack(s, q).(defense := Some(dice), current := -1), roll.attacker, roll.defender);
  }

  /** Until somebody conquers, no battle ends the game. */
  lemma BattleDoesNotEndIt(s: State, after: State, source: int, target: int, maxRounds: int)
    requires Inv(s) && Inv(after) && OnBoard(source) && OnBoard(target) && Fought(s, after, source, target)
    requires !Over(s, maxRounds) && after.territories[target].owner == s.territories[target].owner
    requires s.territories[source].owner == s.current
    ensures !Over(after, maxRounds)
  {
    forall seat | 0 <= seat < s.players
      ensures !Wins(after.territories, seat)
    {
      assert !Wins(s.territories, seat);
      var t :| 0 <= t < NUM_TERRITORIES && s.territories[t].owner != seat;
      assert after.territories[t].owner != seat;
    }
  }

  /** Battles of one blitz add up to one. */
  lemma FoughtAgain(s: State, mid: State, after: State, source: int, target: int)
    requires Shape(s) && Shape(mid) && Shape(after) && OnBoard(source) && OnBoard(target)
    requires Fought(s, mid, source, target) && Fought(mid, after, source, target)
    requires mid.territories[target].owner == s.territories[target].owner
    ensures Fought(s, after, source, target)
  {
  }

  /** A battle that conquers nothing leaves the same attack legal while the source has armies to spare. */
  lemma AssaultStaysLegal(s: State, mid: State, source: int, target: int, move: int, maxRounds: int)
    requires Inv(s) && Inv(mid) && OnBoard(source) && OnBoard(target) && Fought(s, mid, source, target)
    requires Legal(s, Assault(s, source, target, move))
    requires mid.territories[target].owner != s.current && mid.territories[source].units > 1
    ensures Legal(mid, Assault(mid, source, target, move))
    ensures Over(mid, maxRounds) ==> Over(s, maxRounds)
  {
    if !Over(s, maxRounds) {
      BattleDoesNotEndIt(s, mid, source, target, maxRounds);
    }
  }

  /** Queueing an attack or a defence changes nothing the verdict looks at. */
  lemma OverLooksAtLandAndTurns(s: State, after: State, maxRounds: int)
    requires Inv(s) && Inv(after) && after.players == s.players && after.turns == s.turns
    requires after.territories == s.territories && after.placing == s.placing && after.placements == s.placements
    ensures Over(after, maxRounds) <==> Over(s, maxRounds)
  {
  }

  /** Which policy plays a seat: in seat order, the person's left out. */
  function PolicyIndex(human: int, seat: int): int {
    if seat < human then seat else seat - 1
  }

  /** In seat order, no two seats share a policy, the person's apart, and every policy has a seat. */
  lemma PoliciesAreShared(players: nat, human: int, a: int, b: int, i: int)
    requires 0 <= human < players && 0 <= a < b < players && a != human && b != human && 0 <= i < players - 1
    ensures 0 <= PolicyIndex(human, a) < PolicyIndex(human, b) < players - 1
    ensures exists seat :: 0 <= seat < players && seat != human && PolicyIndex(human, seat) == i
  {
    var seat := if i < human then i else i + 1;
    assert PolicyIndex(human, seat) == i;
  }

  // ------------------------------------------------------------------- the match

  class Match {
    const board: Board
    const players: nat
    const policies: seq<Policy>
    const human: int
    const outside: int
    const maxRounds: int
    const randomness: nat -> Draws
    const renderer: StepRenderer
    var fastDefense: bool
    var uses: nat
    var state: State
    var events: seq<Event>

    /** The game is sound, and the record of eliminations is that of its state. */
    ghost predicate Valid()
      reads this, renderer
    {
      && 2 <= players <= 6 && 0 <= human < players && |policies| == players - 1
      && Inv(state) && state.players == players
      && Records(renderer.eliminated, state)
    }

    /** The events not yet reported lead from `start` to the state. */
    ghost predicate Since(start: State)
      reads this
    {
      Plays(start, events) && state == Latest(start, events)
    }

    constructor (board: Board, players: nat, policies: seq<Policy>, human: int, maxRounds: int,
                 randomness: nat -> Draws, outside: int)
      requires ValidBoard(board) && 2 <= players <= 6 && 0 <= human < players && |policies| == players - 1
      ensures Valid() && fresh(renderer) && Since(Initial(board, players)) && events == []
      ensures state == Initial(board, players)
      ensures this.players == players && this.human == human && this.outside == outside && this.maxRounds == maxRounds
    {
      InitialInv(board, players);
      this.board, this.players, this.policies := board, players, policies;
      this.human, this.outside, this.maxRounds, this.randomness := human, outside, maxRounds, randomness;
      renderer := new StepRenderer();
      fastDefense, uses, events := false, 0, [];
      state := Initial(board, players);
    }

    method Draw() returns (draws: Draws)
      modifies this`uses
      ensures draws == randomness(old(uses)) && uses == old(uses) + 1
    {
      draws := randomness(uses);
      uses := uses + 1;
    }

    /** Plays a legal action and notes it; an illegal one leaves the game as it was. */
    method Apply(action: Action, ghost start: State) returns (ok: bool)
      requires Valid() && Since(start)
      modifies this`state, this`events, renderer
      ensures Valid() && Since(start)
      ensures ok <==> Legal(old(state), action)
      ensures !ok ==> state == old(state) && events == old(events)
      ensures ok && action.RollDice? ==> RollReady(old(state))
      ensures ok ==> state == RiskRules.Apply(old(state), action)
      ensures ok ==> events == old(events) + [Event(old(state).current, action, state)]
    {
      if !Legal(state, action) {
        return false;
      }
      StepKeepsInv(state, action);
      StepKeepsTable(state, action);
      RenderKeepsRecord(state, action, renderer.eliminated);
      var before := state;
      state := RiskRules.Apply(before, action);
      renderer.Render(before, state);
      PlaysOneMore(start, events, Event(before.current, action, state));
      events := events + [Event(before.current, action, state)];
      ok := true;
    }

    /** Whether the verdict is in. */
    method IsOver() returns (over: bool)
      requires Valid()
      ensures over <==> Over(state, maxRounds)
    {
      var places := ResultOf(state, maxRounds, renderer.eliminated, false);
      over := places.Some?;
    }

    /** The defence is not the policy's to choose: the person's, or the outside seat's when fast. */
    predicate DefendsUnasked()
      reads this
    {
      Pending(state) && (state.current == human || (state.current == outside && fastDefense))
    }

    /** What is left once everything that needs no one has been played. */
    predicate Settled()
      requires Shape(state)
      reads this
    {
      Over(state, maxRounds) || (state.current != -1 && !DefendsUnasked())
    }

    /** The dice of a battle both sides have committed to. */
    method PlayDice(ghost start: State)
      requires Valid() && Since(start) && state.current == -1
      modifies this`state, this`events, this`uses, renderer
      ensures Valid() && Since(start) && Rolled(old(state), state)
      ensures Unsettled(old(state)) == 1 && Unsettled(state) == 0 && state.placing == old(state).placing
      ensures old(events) <= events && |events| == |old(events)| + 1
    {
      var draws := Draw();
      var roll := SampleChance(state, draws);
      DiceAreTheLegalOnes(state, roll);
      SettlingGoesOn(state, roll);
      var ok := Apply(roll, start);
    }

    /** A defence nobody is asked for: as many dice as are allowed. */
    method PlayDefence(ghost start: State)
      requires Valid() && Since(start) && DefendsUnasked() && state.current != -1
      modifies this`state, this`events, renderer
      ensures Valid() && Since(start)
      ensures Unsettled(old(state)) == 2 && Unsettled(state) == 1 && state.placing == old(state).placing
      ensures old(events) <= events && |events| == |old(events)| + 1
      ensures events[|old(events)|].action == MostDice(old(state))
    {
      var defence := MostDice(state);
      SettlingGoesOn(state, defence);
      var ok := Apply(defence, start);
    }

    /**
     Plays dice and unasked defences. Every one of them is legal, so it ends: at most a
     defence and the roll that follows it.
     */
    method Settle(ghost start: State)
      requires Valid() && Since(start)
      modifies this`state, this`events, this`uses, renderer
      ensures Valid() && Since(start) && Settled()
      ensures Over(old(state), maxRounds) || old(state).attack.None? ==> state == old(state) && events == old(events)
      ensures Unsettled(state) <= Unsettled(old(state)) && state.placing == old(state).placing
      ensures old(events) <= events && |events| <= |old(events)| + Unsettled(old(state))
      ensures !Over(old(state), maxRounds) && Unsettled(old(state)) == 1 ==>
        Rolled(old(state), state) && |events| == |old(events)| + 1
      ensures !Over(old(state), maxRounds) && old(DefendsUnasked()) ==>
        |events| > |old(events)| && events[|old(events)|].action == MostDice(old(state))
    {
      ghost var first := state;
      ghost var before := events;
      var over := IsOver();
      while !over
        invariant Valid() && Since(start) && over == Over(state, maxRounds)
        invariant Unsettled(state) <= Unsettled(first) && state.placing == first.placing
        invariant before <= events && |events| + Unsettled(state) <= |before| + Unsettled(first)
        invariant Unsettled(state) == Unsettled(first) ==> state == first && events == before
        invariant Unsettled(first) == 1 && Unsettled(state) == 0 ==> Rolled(first, state) && |events| == |before| + 1
        invariant Over(first, maxRounds) ==> state == first && events == before
        invariant old(DefendsUnasked()) && events != before ==>
          |events| > |before| && events[|before|].action == MostDice(first)
        decreases Unsettled(state), !over
      {
        if state.current == -1 {
          PlayDice(start);
        } else if DefendsUnasked() {
          PlayDefence(start);
        } else {
          break;
        }
        over := IsOver();
      }
    }

    /** A defence the policy is not asked for. */
    predicate DefendsFast()
      reads this
    {
      (fastDefense || state.current == outside) && Pending(state)
    }

    /** What the policy in the mover's seat answers to the next draws. */
    function PolicyAnswer(): Action
      requires 0 <= human < players && |policies| == players - 1
      requires 0 <= state.current < players && state.current != human
      reads this
    {
      var seat := state.current;
      policies[PolicyIndex(human, seat)](state, randomness(uses))
    }

    /** The mover's action: its policy's, or a random legal one in place of an illegal one. */
    method BotAction() returns (action: Action)
      requires Valid() && state.current != -1 && state.current != human
      modifies this`uses
      ensures Legal(state, action)
      ensures DefendsFast() ==> action == MostDice(state)
      ensures !DefendsFast() ==>
        var answer := old(PolicyAnswer());
        if Legal(state, answer) then action == answer
        else action == Sampled(state, false, false, randomness(old(uses) + 1))
    {
      if DefendsFast() {
        return MostDice(state);
      }
      var seat := state.current;
      var draws := Draw();
      action := policies[PolicyIndex(human, seat)](state, draws);
      if !Legal(state, action) {
        draws := Draw();
        action := RiskProposer.Sample(state, false, false, draws);
      }
    }

    /** Places all the reserves, unless there is nothing left to place this turn. */
    method PlaceReserves(placed: Placement, ghost start: State) returns (ok: bool)
      requires Valid() && Since(start) && state.current == human
      modifies this`state, this`events, renderer
      ensures Valid() && Since(start)
      ensures ok <==> !ReservesPending(old(state)) || Legal(old(state), PlayerMove(Some(placed), None))
      ensures state == if ok && ReservesPending(old(state)) then ApplyReinforce(old(state), placed) else old(state)
      ensures |events| == |old(events)| + (if ok && ReservesPending(old(state)) then 1 else 0)
    {
      if state.reserves[human] == 0 || !state.firstAttack {
        return true;
      }
      ok := Apply(PlayerMove(Some(placed), None), start);
    }

    predicate ReservesPending(s: State)
      requires 0 <= human < |s.reserves|
    {
      s.reserves[human] != 0 && s.firstAttack
    }

    /** A bot under attack chooses its dice. */
    method AnswerAttack(ghost start: State) returns (dice: int, accepted: bool)
      requires Valid() && Since(start) && state.current != -1 && state.current != human
      requires state.attack.Some? && !Over(state, maxRounds)
      modifies this`state, this`events, this`uses, renderer
      ensures Valid() && Since(start) && accepted
      ensures LegalDefense(old(state), dice) && state == old(state).(defense := Some(dice), current := -1)
      ensures |events| == |old(events)| + 1
    {
      var defence := BotAction();
      dice := defence.dice;
      accepted := Apply(defence, start);
    }

    /** One roll of the dice, from the attack being queued to the armies being taken off. */
    method Battle(source: int, target: int, move: int, ghost start: State) returns (ok: bool)
      requires Valid() && Since(start) && state.current == human && OnBoard(source)
      modifies this`state, this`events, this`uses, renderer
      ensures Valid() && Since(start)
      ensures ok <==> Legal(old(state), Assault(old(state), source, target, move))
      ensures !ok ==> state == old(state) && events == old(events)
      ensures ok && !Over(old(state), maxRounds) ==>
        && OnBoard(target) && Fought(old(state), state, source, target) && |events| == |old(events)| + 3
      ensures ok && Over(old(state), maxRounds) ==>
        && state == RiskRules.Apply(old(state), Assault(old(state), source, target, move))
        && |events| == |old(events)| + 1
    {
      ghost var s := state;
      var attack := Assault(state, source, target, move);
      ok := Apply(attack, start);
      if !ok {
        return;
      }
      OverLooksAtLandAndTurns(s, state, maxRounds);
      ghost var queued := state;
      ghost var answered: Option<int> := None;
      var over := IsOver();
      while state.current != human && state.current != -1 && !over
        invariant Valid() && Since(start)
        invariant over == Over(state, maxRounds) == Over(s, maxRounds)
        invariant answered.None? ==> state == queued && |events| == |old(events)| + 1
        invariant answered.Some? ==> LegalDefense(queued, answered.value) && !over
        invariant answered.Some? ==> state == queued.(defense := answered, current := -1)
        invariant answered.Some? ==> |events| == |old(events)| + 2
        decreases Unsettled(state)
      {
        var dice, accepted := AnswerAttack(start);
        answered := Some(dice);
        if !accepted {
          break;
        }
        OverLooksAtLandAndTurns(queued, state, maxRounds);
        over := IsOver();
      }
      ghost var ready := state;
      Settle(start);
      if answered.Some? {
        ghost var roll: Action :| roll.RollDice? && Legal(ready, roll) && state == RiskRules.Apply(ready, roll);
        BattleIsFought(s, attack.attack.value, answered.value, roll);
      }
    }

    /** Reports what was played since the last answer. */
    method Answer() returns (report: seq<Event>)
      modifies this`events
      ensures report == old(events) && events == []
    {
      report := events;
      events := [];
    }

    // The calls a page makes. Each reports the steps it played.

    predicate Refused(s: State, placed: Placement)
      requires Shape(s) && |s.board.neighbors| == NUM_TERRITORIES && s.players == players && 0 <= human < players
    {
      || s.current != human || s.placing
      || (ReservesPending(s) && !Legal(s, PlayerMove(Some(placed), None)))
    }

    /** The state once the person's reserves are placed. */
    function Armed(s: State, placed: Placement): (after: State)
      requires Shape(s) && s.players == players && 0 <= human < players && s.current == human
    {
      if ReservesPending(s) then ApplyReinforce(s, placed) else s
    }

    /**
     An attack, once or until it is decided. It ends, for every battle takes an army off the
     two territories; a blitz ends with the target conquered or the source at one army.
     */
    method Attack(source: int, target: int, placed: Placement, blitz: bool, move: int) returns (report: seq<Event>, ok: bool)
      requires Valid() && events == [] && OnBoard(source)
      modifies this`state, this`events, this`uses, renderer
      ensures Valid() && events == []
      ensures Plays(old(state), report) && state == Latest(old(state), report)
      ensures Refused(old(state), placed) ==> !ok && report == []
      ensures !Refused(old(state), placed) ==>
        var s := Armed(old(state), placed);
        var attack := Assault(s, source, target, move);
        && ok == Legal(s, attack)
        && (!ok ==> state == s)
        && (ok && Over(s, maxRounds) ==> state == RiskRules.Apply(s, attack))
        && (ok && !Over(s, maxRounds) ==>
              && OnBoard(target) && Fought(s, state, source, target)
              && (blitz ==> state.territories[target].owner == human || state.territories[source].units == 1)
              && (!blitz ==> |report| == (if ReservesPending(old(state)) then 4 else 3)))
    {
      ghost var start := state;
      if state.current != human || state.placing {
        report := Answer();
        return report, false;
      }
      var placedAll := PlaceReserves(placed, start);
      if !placedAll {
        report := Answer();
        return report, false;
      }
      ok := Fight(source, target, blitz, move, start);
      report := Answer();
    }

    /** The attack itself, repeated in a blitz. */
    method Fight(source: int, target: int, blitz: bool, move: int, ghost start: State) returns (ok: bool)
      requires Valid() && Since(start) && state.current == human && OnBoard(source)
      modifies this`state, this`events, this`uses, renderer
      ensures Valid() && Since(start)
      ensures ok == Legal(old(state), Assault(old(state), source, target, move))
      ensures !ok ==> state == old(state) && events == old(events)
      ensures ok && Over(old(state), maxRounds) ==>
        state == RiskRules.Apply(old(state), Assault(old(state), source, target, move))
      ensures ok && !Over(old(state), maxRounds) ==>
        && OnBoard(target) && Fought(old(state), state, source, target)
        && (blitz ==> state.territories[target].owner == human || state.territories[source].units == 1)
        && (!blitz ==> |events| == |old(events)| + 3)
    {
      ok := Battle(source, target, move, start);
      if ok && blitz {
        KeepRolling(source, target, move, old(state), start);
      }
    }

    /** The rounds of a blitz after the first. */
    method KeepRolling(source: int, target: int, move: int, ghost s: State, ghost start: State)
      requires Valid() && Since(start) && OnBoard(source) && OnBoard(target)
      requires Inv(s) && s.current == human && Legal(s, Assault(s, source, target, move))
      requires if Over(s, maxRounds) then state.current != human else Fought(s, state, source, target)
      modifies this`state, this`events, this`uses, renderer
      ensures Valid() && Since(start)
      ensures Over(s, maxRounds) ==> state == old(state)
      ensures !Over(s, maxRounds) ==>
        && Fought(s, state, source, target)
        && (state.territories[target].owner == human || state.territories[source].units == 1)
    {
      while state.current == human && state.territories[target].owner != human && state.territories[source].units > 1
        invariant Valid() && Since(start)
        invariant Over(s, maxRounds) ==> state == old(state)
        invariant !Over(s, maxRounds) ==> Fought(s, state, source, target)
        decreases state.territories[source].units + state.territories[target].units
      {
        ghost var mid := state;
        AssaultStaysLegal(s, mid, source, target, move, maxRounds);
        var ok := Battle(source, target, move, start);
        if !ok {
          break;
        }
        FoughtAgain(s, mid, state, source, target);
      }
    }

    /** One placement by the person. */
    method Place(territory: int) returns (report: seq<Event>, ok: bool)
      requires Valid() && events == []
      modifies this`state, this`events, this`uses, renderer
      ensures Valid() && events == []
      ensures Plays(old(state), report) && state == Latest(old(state), report)
      ensures ok <==> old(state).current == human && Legal(old(state), InitialPlace(territory))
      ensures report == if ok then [Event(human, InitialPlace(territory), ApplyPlace(old(state), territory))] else []
    {
      ghost var start := state;
      ok := false;
      if state.current == human {
        ok := PlaceAndSettle(territory, start);
      }
      report := Answer();
    }

    method PlaceAndSettle(territory: int, ghost start: State) returns (ok: bool)
      requires Valid() && Since(start)
      modifies this`state, this`events, this`uses, renderer
      ensures Valid() && Since(start)
      ensures ok == Legal(old(state), InitialPlace(territory))
      ensures !ok ==> state == old(state) && events == old(events)
      ensures ok ==>
        events == old(events) + [Event(old(state).current, InitialPlace(territory), ApplyPlace(old(state), territory))]
    {
      ok := Apply(InitialPlace(territory), start);
      if ok {
        Settle(start);
      }
    }

    /** Deals the rest of the placement at random, for every seat, and reports the last step only. */
    method QuickSetup() returns (report: seq<Event>, ghost steps: seq<Event>)
      requires Valid() && events == []
      modifies this`state, this`events, this`uses, renderer
      ensures Valid() && events == [] && !state.placing
      ensures Plays(old(state), steps) && state == Latest(old(state), steps)
      ensures old(state).placing ==>
        |steps| == players * InitialReserves(players) - old(state).placements > 0
      ensures report == if steps == [] then [] else [steps[|steps| - 1]]
    {
      ghost var start := state;
      if state.placing {
        DealRest(start);
      }
      Settle(start);
      steps := events;
      if events != [] {
        events := events[|events| - 1..];
      }
      report := Answer();
    }

    /** Random placements for whoever moves, until every army is placed. */
    method DealRest(ghost start: State)
      requires Valid() && Since(start) && state.placing && events == [] && start == state
      modifies this`state, this`events, this`uses, renderer
      ensures Valid() && Since(start) && !state.placing && state.attack.None?
      ensures |events| == players * InitialReserves(players) - start.placements > 0
    {
      ghost var total := players * InitialReserves(players);
      while state.placing
        invariant Valid() && Since(start) && start.placements <= state.placements <= total
        invariant |events| == state.placements - start.placements
        invariant !state.placing ==> state.placements == total > start.placements && state.attack.None?
        decreases total - state.placements, state.placing
      {
        PlacedBound(state);
        var draws := Draw();
        var action := RiskProposer.Sample(state, false, false, draws);
        PlacingOnlyPlaces(state, action);
        var ok := Apply(action, start);
      }
    }

    lemma PlacingOnlyPlaces(s: State, action: Action)
      requires Inv(s) && s.placing && Legal(s, action)
      ensures action.InitialPlace? && Inv(ApplyPlace(s, action.territory))
      ensures ApplyPlace(s, action.territory).placements == s.placements + 1
    {
      PlaceKeepsInv(s, action.territory);
    }

    /** Ends the person's turn. */
    method Fortify(source: int, target: int, units: int, placed: Placement) returns (report: seq<Event>, ok: bool)
      requires Valid() && events == []
      modifies this`state, this`events, this`uses, renderer
      ensures Valid() && events == []
      ensures Plays(old(state), report) && state == Latest(old(state), report)
      ensures Refused(old(state), placed) ==> !ok && report == []
      ensures !Refused(old(state), placed) ==>
        var s := Armed(old(state), placed);
        && ok == Legal(s, RiskRules.Action.Fortify(source, target, units))
        && state == if ok then ApplyFortify(s, source, target, units) else s
    {
      ghost var start := state;
      ok := false;
      if state.current == human && !state.placing {
        var placedAll := PlaceReserves(placed, start);
        if placedAll {
          ok := EndTurn(source, target, units, start);
        }
      }
      report := Answer();
    }

    method EndTurn(source: int, target: int, units: int, ghost start: State) returns (ok: bool)
      requires Valid() && Since(start)
      modifies this`state, this`events, this`uses, renderer
      ensures Valid() && Since(start)
      ensures ok == Legal(old(state), RiskRules.Action.Fortify(source, target, units))
      ensures state == if ok then ApplyFortify(old(state), source, target, units) else old(state)
    {
      ok := Apply(RiskRules.Action.Fortify(source, target, units), start);
      if ok {
        Settle(start);
      }
    }

    /** The outside seat's decision, and what follows it. */
    method Act(action: Action) returns (report: seq<Event>, ok: bool)
      requires Valid() && events == []
      modifies this`state, this`events, this`uses, renderer
      ensures Valid() && events == []
      ensures Plays(old(state), report) && state == Latest(old(state), report)
      ensures ok <==> old(state).current == outside && Legal(old(state), action)
      ensures old(state).current != outside ==> report == []
      ensures old(state).current == outside ==> Settled()
      ensures ok ==> report != [] && report[0].action == action && report[0].player == outside
    {
      ghost var start := state;
      ok := false;
      if state.current == outside {
        ok := Apply(action, start);
        Settle(start);
      }
      report := Answer();
    }

    /** One decision of a policy. */
    method PlayBot(ghost start: State)
      requires Valid() && Since(start) && events == [] && state.current != human && state.current != -1
      modifies this`state, this`events, this`uses, renderer
      ensures Valid() && Since(start)
      ensures |events| == 1 && events[0].player == old(state).current
      ensures old(!DefendsFast() && Legal(state, PolicyAnswer())) ==> events[0].action == old(PolicyAnswer())
    {
      var action := BotAction();
      var ok := Apply(action, start);
    }

    /** The next policy's decision, always a legal one, and what follows it. */
    method BotStep() returns (report: seq<Event>)
      requires Valid() && events == []
      modifies this`state, this`events, this`uses, renderer
      ensures Valid() && events == []
      ensures Plays(old(state), report) && state == Latest(old(state), report)
      ensures Settled()
      ensures old(state).current !in {human, outside, -1} && !Over(old(state), maxRounds) ==>
        && report != [] && report[0].player == old(state).current
        && (old(!DefendsFast() && Legal(state, PolicyAnswer())) ==> report[0].action == old(PolicyAnswer()))
    {
      ghost var start := state;
      var over := IsOver();
      if state.current != human && state.current != outside && state.current != -1 && !over {
        PlayBot(start);
      }
      Settle(start);
      report := Answer();
    }
  }
}
