/**
 The rollout shortcut: a queued battle resolved in one step by its expected survivors.
 */
module RolloutShortcut {
  import opened Options
  import opened RiskRules
  import opened RiskInvariant
  import opened RiskGame
  import opened BattleOutcome
  import opened BattleProgram

  /** Where the survivors come from: computed directly, or from the emitted table. */
  datatype Source = Direct | FromTable(tables: Tables)

  ghost predicate GoodSource(source: Source) {
    source.FromTable? ==> TablesMatch(source.tables)
  }

  ghost function Remaining(source: Source, attackers: nat, defenders: nat): Remnants {
    if source.Direct? then Expected(attackers, defenders) else Looked(attackers, defenders)
  }

  method Lookup(source: Source, attackers: nat, defenders: nat) returns (r: Remnants)
    requires GoodSource(source)
    ensures r == Remaining(source, attackers, defenders)
  {
    match source
    case Direct => r := ComputeExpectedRemnants(attackers, defenders);
    case FromTable(tables) => r := LookupExpectedRemnants(tables, attackers, defenders);
  }

  /** Directly or through the transposed table, survivors are few enough and someone survives. */
  lemma RemainingBounds(source: Source, attackers: nat, defenders: nat)
    requires attackers >= 1 && defenders >= 1
    ensures var r := Remaining(source, attackers, defenders);
      && 0 <= r.attackers && 0 <= r.defenders
      && (r.attackers >= 1 || r.defenders >= 1)
      && r.attackers <= (if attackers <= TABLE_SIZE then TABLE_SIZE else attackers)
      && r.defenders <= (if defenders <= TABLE_SIZE then TABLE_SIZE else defenders)
  {
    RoundedSurvivors(attackers, defenders);
    RoundedSurvivors(defenders, attackers);
  }

  /** The battle's map afterwards: survivors move in and are also left behind, or the attack is repelled. */
  ghost function Resolved(territories: seq<Territory>, q: QueuedAttack, left: Remnants): (r: seq<Territory>)
    requires 0 <= q.source < |territories| && 0 <= q.target < |territories| && q.source != q.target
    requires 0 <= left.attackers < MAX_UNITS && 0 <= left.defenders <= MAX_UNITS
    ensures |r| == |territories|
  {
    var src, tgt := territories[q.source], territories[q.target];
    if left.attackers > left.defenders then
      territories[q.source := Territory(src.owner, 1 + left.attackers)][q.target := Territory(src.owner, left.attackers)]
    else
      territories[q.source := Territory(src.owner, 1)][q.target := Territory(tgt.owner, left.defenders)]
  }

  ghost function AfterShortcut(s: State, left: Remnants): State
    requires Inv(s) && s.attack.Some?
    requires 0 <= left.attackers < MAX_UNITS && 0 <= left.defenders <= MAX_UNITS
  {
    var q := s.attack.value;
    s.(territories := Resolved(s.territories, q, left), current := s.territories[q.source].owner,
       attack := None, defense := None)
  }

  ghost predicate BothHeld(s: State, q: QueuedAttack) {
    && 0 <= q.source < |s.territories| && 0 <= q.target < |s.territories|
    && s.territories[q.source].units >= 1 && s.territories[q.target].units >= 1
  }

  /** With someone left standing, the shortcut's state is one the rules allow. */
  lemma ShortcutKeepsInv(s: State, left: Remnants)
    requires Inv(s) && s.attack.Some?
    requires 0 <= left.attackers < MAX_UNITS && 0 <= left.defenders <= MAX_UNITS
    requires left.attackers >= 1 || left.defenders >= 1
    ensures var after := AfterShortcut(s, left);
      Inv(after) && BothHeld(after, s.attack.value)
  {
    var after := AfterShortcut(s, left);
    assert after.territories[s.attack.value.source].owner == after.current;
  }

  /** The battle resolved by the survivors looked up for it, with both territories held. */
  ghost predicate IsShortcut(s: State, source: Source, after: State)
    requires Inv(s) && s.attack.Some? && s.defense.Some?
  {
    var q := s.attack.value;
    var left := Remaining(source, s.territories[q.source].units - 1, s.territories[q.target].units);
    && 0 <= left.attackers < MAX_UNITS && 0 <= left.defenders <= MAX_UNITS
    && after == AfterShortcut(s, left) && BothHeld(after, q)
  }

  /**
   What the survivors make of a battle: the side with more of them has the target. The attackers
   move in and are also left behind, next to the one army that stays; or they are gone but for it.
   */
  predicate BattleSettled(before: seq<Territory>, q: QueuedAttack, left: Remnants, after: seq<Territory>)
    requires 0 <= q.source < |before| == |after| && 0 <= q.target < |before|
  {
    && after[q.source].owner == before[q.source].owner
    && (left.attackers > left.defenders ==>
          && after[q.target].owner == before[q.source].owner && after[q.target].units == left.attackers
          && after[q.source].units == left.attackers + 1)
    && (left.attackers <= left.defenders ==>
          && after[q.target].owner == before[q.target].owner && after[q.target].units == left.defenders
          && after[q.source].units == 1)
    && forall t :: 0 <= t < |before| && t != q.source && t != q.target ==> after[t] == before[t]
  }

  /** The shortcut settles the battle for the larger side and gives the move back; nothing else changes. */
  lemma ShortcutEffect(s: State, source: Source, after: State)
    requires Inv(s) && s.attack.Some? && s.defense.Some? && IsShortcut(s, source, after)
    ensures var q := s.attack.value;
      var left := Remaining(source, s.territories[q.source].units - 1, s.territories[q.target].units);
      && |after.territories| == NUM_TERRITORIES && BattleSettled(s.territories, q, left, after.territories)
      && (after.territories[q.target].owner == s.territories[q.source].owner <==> left.attackers > left.defenders)
      && after.current == s.territories[q.source].owner && after.attack.None? && after.defense.None?
      && after.reserves == s.reserves && after.turns == s.turns && after.firstAttack == s.firstAttack
  {
  }

  lemma ShortcutIsTaken(s: State, source: Source, left: Remnants)
    requires Inv(s) && s.attack.Some? && s.defense.Some?
    requires var q := s.attack.value;
      left == Remaining(source, s.territories[q.source].units - 1, s.territories[q.target].units)
    requires 0 <= left.attackers < MAX_UNITS && 0 <= left.defenders <= MAX_UNITS
    requires left.attackers >= 1 || left.defenders >= 1
    ensures Inv(AfterShortcut(s, left)) && IsShortcut(s, source, AfterShortcut(s, left))
  {
    ShortcutKeepsInv(s, left);
  }

  /**
   Resolves a fully queued battle in place. Whichever way the survivors are looked up, both
   territories keep an army, the queues are cleared, the attacker moves on, and the state
   still satisfies the rules' invariant.
   */
  method ResolveBattleWithExpectationInPlace(state: RiskState, source: Source) returns (resolved: bool)
    requires state.Sized() && Inv(state.Value()) && GoodSource(source)
    modifies state, state.territories
    ensures resolved <==> old(state.attack.Some? && state.defense.Some?)
    ensures !resolved ==> state.Value() == old(state.Value())
    ensures resolved ==> IsShortcut(old(state.Value()), source, state.Value())
    ensures resolved ==>
      var q := old(state.attack.value);
      var left := Remaining(source, old(state.territories[q.source].units) - 1, old(state.territories[q.target].units));
      BattleSettled(old(state.territories[..]), q, left, state.territories[..])
    ensures Inv(state.Value())
  {
    if !state.attack.Some? || !state.defense.Some? {
      return false;
    }
    ghost var s := state.Value();
    var q := state.attack.value;
    var src, tgt := state.territories[q.source], state.territories[q.target];
    var attackers: int := src.units - 1;
    var defenders: int := tgt.units;
    RemainingBounds(source, attackers, defenders);
    var outcome := Lookup(source, attackers, defenders);
    SettleInPlace(state, q, outcome);
    ShortcutIsTaken(s, source, outcome);
    ShortcutEffect(s, source, state.Value());
    resolved := true;
  }

  /** Writes the survivors to the map, clears the queues and gives the move back to the attacker. */
  method SettleInPlace(state: RiskState, q: QueuedAttack, left: Remnants)
    requires state.Sized() && Inv(state.Value()) && state.attack == Some(q)
    requires 0 <= left.attackers < MAX_UNITS && 0 <= left.defenders <= MAX_UNITS
    modifies state, state.territories
    ensures state.Value() == AfterShortcut(old(state.Value()), left)
    ensures BattleSettled(old(state.territories[..]), q, left, state.territories[..])
  {
    ghost var before := state.territories[..];
    var src, tgt := state.territories[q.source], state.territories[q.target];
    var attackers := src.units - 1;
    if left.attackers > left.defenders {
      state.territories[q.source] := Territory(src.owner, src.units - (attackers - left.attackers));
      state.territories[q.target] := Territory(src.owner, left.attackers);
    } else {
      state.territories[q.source] := Territory(src.owner, 1);
      state.territories[q.target] := Territory(tgt.owner, left.defenders);
    }
    state.current := src.owner;
    state.attack := None;
    state.defense := None;
    assert state.territories[..] == Resolved(before, q, left);
  }
}
