/**
 The rules of Risk as a transition system: the state, the legality oracle and the
 transition function. `RiskState` (RiskGame.dfy) is the in-place program that is
 proved to follow them.
 */
module RiskRules {
  import opened Arithmetic
  import opened Options

  const NUM_TERRITORIES: nat := 42
  const MAX_UNITS: nat := 0xFFFF
  const INT_MAX: int := 0x7FFF_FFFF

  type Unsigned16 = x: int | 0 <= x <= 0xFFFF
  type Placement = s: seq<Unsigned16> | |s| == NUM_TERRITORIES witness seq(NUM_TERRITORIES, i => 0)
  type AttackerDice = s: seq<int> | |s| == 3 witness [0, 0, 0]
  type DefenderDice = s: seq<int> | |s| == 2 witness [0, 0]

  datatype Continent = Continent(members: set<nat>, bonus: nat)

  /** The board: the neighbour lists of the territories, and the continents. */
  datatype Board = Board(neighbors: seq<seq<nat>>, continents: seq<Continent>)

  datatype Territory = Territory(owner: int, units: Unsigned16)

  datatype QueuedAttack = QueuedAttack(source: int, target: int, dice: int, move: int)

  datatype Action =
    | InitialPlace(territory: int)
    | PlayerMove(reinforce: Option<Placement>, attack: Option<QueuedAttack>)
    | QueueDefense(dice: int)
    | Fortify(source: int, target: int, units: int)
    | RollDice(attacker: AttackerDice, defender: DefenderDice)

  datatype State = State(
    board: Board,
    players: nat,
    reserves: seq<int>,
    territories: seq<Territory>,
    placing: bool,
    placements: nat,
    firstAttack: bool,
    current: int,
    turns: nat,
    attack: Option<QueuedAttack>,
    defense: Option<int>)

  // ---------------------------------------------------------------- the board

  function BonusTotal(continents: seq<Continent>): nat {
    if continents == [] then 0 else continents[0].bonus + BonusTotal(continents[1..])
  }

  /** The board's lists stay on the board, and no turn's bonus overflows 16 bits. */
  ghost predicate ValidBoard(board: Board) {
    && |board.neighbors| == NUM_TERRITORIES
    && (forall t, i :: 0 <= t < NUM_TERRITORIES && 0 <= i < |board.neighbors[t]| ==>
          board.neighbors[t][i] < NUM_TERRITORIES)
    && BonusTotal(board.continents) <= 1000
  }

  // -------------------------------------------------------- starting position

  /** What each seat starts with, for two to six players. */
  function InitialReserves(players: nat): nat {
    match players
    case 2 => 40
    case 3 => 35
    case 4 => 30
    case 5 => 25
    case _ => 20
  }

  function Initial(board: Board, players: nat): State {
    State(board, players, seq(players, i => InitialReserves(players)),
          seq(NUM_TERRITORIES, i => Territory(-1, 0)), true, 0, true, 0, 0, None, None)
  }

  // ------------------------------------------------------------- small pieces

  predicate OnBoard(t: int) {
    0 <= t < NUM_TERRITORIES
  }

  function SaturatingAdd(units: Unsigned16, add: nat): Unsigned16 {
    if units + add <= MAX_UNITS then units + add else MAX_UNITS
  }

  predicate Shape(s: State) {
    |s.territories| == NUM_TERRITORIES && 2 <= s.players <= 6 && |s.reserves| == s.players
  }

  function Owned(territories: seq<Territory>, seat: int): set<int> {
    set t | 0 <= t < |territories| && territories[t].owner == seat
  }

  predicate OwnsLand(territories: seq<Territory>, seat: int) {
    exists t :: 0 <= t < |territories| && territories[t].owner == seat
  }

  function ContinentBonus(continents: seq<Continent>, mine: set<int>): nat {
    if continents == [] then 0
    else (if continents[0].members <= mine then continents[0].bonus else 0)
         + ContinentBonus(continents[1..], mine)
  }

  /** A third of the territories, at least three, and the bonus of every whole continent. */
  function TurnReinforcements(board: Board, territories: seq<Territory>, seat: int): nat {
    var mine := Owned(territories, seat);
    (if |mine| / 3 < 3 then 3 else |mine| / 3) + ContinentBonus(board.continents, mine)
  }

  function Sum(xs: seq<int>): int {
    if xs == [] then 0 else Sum(xs[..|xs| - 1]) + xs[|xs| - 1]
  }

  function UnitsOf(territories: seq<Territory>): (us: seq<int>)
    ensures |us| == |territories|
  {
    seq(|territories|, i requires 0 <= i < |territories| => territories[i].units)
  }

  /** All the armies on the board. */
  function Armies(territories: seq<Territory>): int {
    Sum(UnitsOf(territories))
  }

  // -------------------------------------------------------------------- seats

  /** The seat to the left. */
  function SeatAfter(seat: int, players: nat): (r: int)
    requires 0 <= seat < players
    ensures r == (seat + 1) % players
  {
    if seat + 1 == players then 0 else seat + 1
  }

  /** The first seat at or after `seat`, going round, that owns land; looks `limit` seats further. */
  function FirstLanded(s: State, seat: int, limit: nat): (r: int)
    requires 0 <= seat < s.players
    ensures 0 <= r < s.players
    decreases limit
  {
    if limit == 0 || OwnsLand(s.territories, seat) then seat
    else FirstLanded(s, SeatAfter(seat, s.players), limit - 1)
  }

  /** The next seat round the table that owns land: the mover itself when no other does. */
  function NextSeat(s: State): (r: int)
    requires 0 <= s.current < s.players
    ensures 0 <= r < s.players
  {
    FirstLanded(s, SeatAfter(s.current, s.players), s.players - 1)
  }

  function StartTurn(s: State): State
    requires |s.reserves| == s.players && 0 <= s.current < s.players
  {
    s.(reserves := s.reserves[s.current := TurnReinforcements(s.board, s.territories, s.current)])
  }

  /** The next seat that owns land moves; the turn count rises where the seats wrap. */
  function NextPlayer(s: State): State
    requires Shape(s) && 0 <= s.current < s.players
  {
    var next := NextSeat(s);
    var turns := if next <= s.current then (s.turns + 1) % 0x1_0000_0000 else s.turns;
    StartTurn(s.(current := next, turns := turns)).(firstAttack := true)
  }

  // -------------------------------------------------------------------- dice

  function Insert(x: int, xs: seq<int>): (r: seq<int>)
    ensures |r| == |xs| + 1
  {
    if xs == [] then [x]
    else if x >= xs[0] then [x] + xs
    else [xs[0]] + Insert(x, xs[1..])
  }

  /** The dice highest first, as they are compared. */
  function SortDescending(xs: seq<int>): (r: seq<int>)
    ensures |r| == |xs|
  {
    if xs == [] then [] else Insert(xs[0], SortDescending(xs[1..]))
  }

  /** How many of the first `pairs` comparisons the attacker wins: ties go to the defender. */
  function AttackerWins(attacker: seq<int>, defender: seq<int>, pairs: nat): (n: nat)
    requires pairs <= |attacker| && pairs <= |defender|
    ensures n <= pairs
  {
    if pairs == 0 then 0
    else AttackerWins(attacker, defender, pairs - 1)
         + (if attacker[pairs - 1] > defender[pairs - 1] then 1 else 0)
  }

  /** Armies moved into a conquered territory: at least the dice, at most all but one. */
  function ConquestMove(q: QueuedAttack, sourceUnits: nat): (r: nat)
    requires 1 <= q.dice && 0 <= q.move && 1 <= sourceUnits
    ensures r < sourceUnits
  {
    var most := sourceUnits - 1;
    var least := Min(q.dice, most);
    var asked := if q.move == 0 then least else q.move;
    if asked < least then least else if most < asked then most else asked
  }

  // ---------------------------------------------------------------- legality

  predicate LegalPlace(s: State, territory: int)
    requires Shape(s) && 0 <= s.current < s.players
  {
    && s.placing
    && OnBoard(territory)
    && (if s.placements < NUM_TERRITORIES then s.territories[territory].owner == -1
        else s.territories[territory].owner == s.current)
    && s.reserves[s.current] != 0
  }

  predicate LegalReinforce(s: State, placed: Placement)
    requires Shape(s) && 0 <= s.current < s.players
  {
    && s.reserves[s.current] != 0
    && s.firstAttack
    && (forall i :: 0 <= i < NUM_TERRITORIES && placed[i] != 0 ==> s.territories[i].owner == s.current)
    && Sum(placed) == s.reserves[s.current]
  }

  predicate LegalAttack(s: State, q: QueuedAttack)
    requires Shape(s) && |s.board.neighbors| == NUM_TERRITORIES
  {
    && OnBoard(q.source) && OnBoard(q.target)
    && q.source != q.target
    && s.territories[q.source].owner == s.current
    && q.target in s.board.neighbors[q.source]
    && s.territories[q.target].owner != s.current
    && 1 <= q.dice <= 3
    && 0 <= q.move
    && s.territories[q.source].units > q.dice
  }

  predicate LegalDefense(s: State, dice: int)
    requires Shape(s)
  {
    && s.attack.Some? && s.defense.None?
    && OnBoard(s.attack.value.target)
    && s.current == s.territories[s.attack.value.target].owner
    && 1 <= dice <= 2
    && dice <= s.territories[s.attack.value.target].units
  }

  /** Dice in use show 1 to 6, the others 0. */
  predicate LegalDice(dice: seq<int>, used: int) {
    forall i :: 0 <= i < |dice| ==> if i < used then 1 <= dice[i] <= 6 else dice[i] == 0
  }

  predicate LegalFortify(s: State, source: int, target: int, units: int)
    requires Shape(s)
  {
    && !s.placing
    && s.attack.None? && s.defense.None?
    && 0 <= s.current < s.players
    && (units <= 1
        || (&& OnBoard(source) && OnBoard(target)
            && s.territories[source].owner == s.current
            && s.territories[target].owner == s.current
            && (if source == target then s.territories[source].units >= units
                else s.territories[source].units >= units + 1)))
  }

  /** The legality oracle. */
  predicate Legal(s: State, action: Action)
    requires Shape(s) && |s.board.neighbors| == NUM_TERRITORIES
  {
    match action
    case InitialPlace(t) =>
      s.placing && 0 <= s.current < s.players && LegalPlace(s, t)
    case PlayerMove(reinforce, attack) =>
      && !s.placing
      && s.attack.None?
      && 0 <= s.current < s.players
      && (reinforce.Some? || attack.Some?)
      && (reinforce.Some? ==> LegalReinforce(s, reinforce.value))
      && (attack.Some? ==> LegalAttack(s, attack.value))
    case QueueDefense(dice) => LegalDefense(s, dice)
    case RollDice(attacker, defender) =>
      && s.attack.Some? && s.defense.Some?
      && LegalDice(attacker, s.attack.value.dice)
      && LegalDice(defender, s.defense.value)
    case Fortify(source, target, units) => LegalFortify(s, source, target, units)
  }

  // -------------------------------------------------------------- transitions

  function ApplyPlace(s: State, t: int): State
    requires Shape(s) && OnBoard(t) && 0 <= s.current < s.players
  {
    var land := s.territories[t := Territory(s.current, SaturatingAdd(s.territories[t].units, 1))];
    var next := SeatAfter(s.current, s.players);
    var placed := s.(territories := land, reserves := s.reserves[s.current := s.reserves[s.current] - 1],
                     current := next, placements := s.placements + 1);
    if next != 0 then placed
    else
      var wrapped := placed.(turns := (s.turns + 1) % 0x1_0000_0000);
      if placed.reserves[0] == 0 then StartTurn(wrapped.(placing := false)) else wrapped
  }

  function Reinforced(territories: seq<Territory>, placed: Placement): (r: seq<Territory>)
    requires |territories| == NUM_TERRITORIES
    ensures |r| == NUM_TERRITORIES
  {
    seq(NUM_TERRITORIES, i requires 0 <= i < NUM_TERRITORIES =>
      Territory(territories[i].owner, SaturatingAdd(territories[i].units, placed[i])))
  }

  function ApplyReinforce(s: State, placed: Placement): State
    requires Shape(s) && 0 <= s.current < s.players
  {
    s.(territories := Reinforced(s.territories, placed),
       reserves := s.reserves[s.current := s.reserves[s.current] - Sum(placed)])
  }

  function ApplyAttack(s: State, q: QueuedAttack): State
    requires Shape(s) && OnBoard(q.target)
  {
    s.(attack := Some(q), current := s.territories[q.target].owner, firstAttack := false)
  }

  /** Takes `units` armies off territory `t`. */
  function Remove(territories: seq<Territory>, t: int, units: int): (r: seq<Territory>)
    requires 0 <= t < |territories| && 0 <= units <= territories[t].units
    ensures |r| == |territories|
  {
    territories[t := Territory(territories[t].owner, territories[t].units - units)]
  }

  function Add(territories: seq<Territory>, t: int, units: nat): (r: seq<Territory>)
    requires 0 <= t < |territories|
    ensures |r| == |territories|
  {
    territories[t := Territory(territories[t].owner, SaturatingAdd(territories[t].units, units))]
  }

  /** The map after a roll: losses first, then the conquest. */
  function AfterRoll(territories: seq<Territory>, q: QueuedAttack, attackerLosses: nat, defenderLosses: nat): (r: seq<Territory>)
    requires 0 <= q.source < |territories| && 0 <= q.target < |territories| && q.source != q.target
    requires 1 <= q.dice && 0 <= q.move
    requires attackerLosses < territories[q.source].units && defenderLosses <= territories[q.target].units
    ensures |r| == |territories|
  {
    var fought := Remove(Remove(territories, q.source, attackerLosses), q.target, defenderLosses);
    var left := fought[q.source].units;
    if fought[q.target].units > 0 then fought
    else
      var moved := ConquestMove(q, left);
      fought[q.source := Territory(fought[q.source].owner, left - moved)]
            [q.target := Territory(fought[q.source].owner, SaturatingAdd(0, moved))]
  }

  predicate RollReady(s: State) {
    && Shape(s)
    && s.attack.Some? && s.defense.Some?
    && OnBoard(s.attack.value.source) && OnBoard(s.attack.value.target)
    && s.attack.value.source != s.attack.value.target
    && 1 <= s.attack.value.dice <= 3 && s.attack.value.dice < s.territories[s.attack.value.source].units
    && 0 <= s.attack.value.move
    && 1 <= s.defense.value <= 2 && s.defense.value <= s.territories[s.attack.value.target].units
  }

  function Comparisons(s: State): (n: nat)
    requires RollReady(s)
  {
    Min(s.attack.value.dice, s.defense.value)
  }

  function DefenderLosses(s: State, attacker: AttackerDice, defender: DefenderDice): (n: nat)
    requires RollReady(s)
    ensures n <= Comparisons(s)
  {
    AttackerWins(SortDescending(attacker), SortDescending(defender), Comparisons(s))
  }

  function ApplyRoll(s: State, attacker: AttackerDice, defender: DefenderDice): State
    requires RollReady(s)
  {
    var q := s.attack.value;
    var lost := DefenderLosses(s, attacker, defender);
    var land := AfterRoll(s.territories, q, Comparisons(s) - lost, lost);
    s.(territories := land, current := s.territories[q.source].owner, attack := None, defense := None)
  }

  function ApplyFortify(s: State, source: int, target: int, units: int): State
    requires Shape(s) && LegalFortify(s, source, target, units)
  {
    if units <= 1 then NextPlayer(s)
    else NextPlayer(s.(territories := Add(Remove(s.territories, source, units), target, units)))
  }

  /** The transition function, for the actions the legality oracle accepts. */
  function Apply(s: State, action: Action): State
    requires Shape(s) && |s.board.neighbors| == NUM_TERRITORIES && Legal(s, action)
    requires action.RollDice? ==> RollReady(s)
  {
    match action
    case InitialPlace(t) => ApplyPlace(s, t)
    case PlayerMove(reinforce, attack) =>
      var placed := if reinforce.Some? then ApplyReinforce(s, reinforce.value) else s;
      if attack.Some? then ApplyAttack(placed, attack.value) else placed
    case QueueDefense(dice) => s.(defense := Some(dice), current := -1)
    case RollDice(attacker, defender) => ApplyRoll(s, attacker, defender)
    case Fortify(source, target, units) => ApplyFortify(s, source, target, units)
  }

  // ------------------------------------------------------------------ outcome

  /** `seat` owns the whole map. */
  predicate Wins(territories: seq<Territory>, seat: int) {
    seat >= 0 && forall t :: 0 <= t < |territories| ==> territories[t].owner == seat
  }

  /** The signed 32-bit value of the low word of `x`. */
  function Int32(x: int): (r: int)
    ensures -0x8000_0000 <= r <= INT_MAX
  {
    var low := x % 0x1_0000_0000;
    if low <= INT_MAX then low else low - 0x1_0000_0000
  }

  /** Full rounds since placement ended: unsigned turns, read back as a signed int, in a 32-bit subtraction. */
  function Rounds(s: State): int
    requires 0 < s.players
  {
    if s.placing then 0 else Int32(Int32(s.turns) - s.placements / s.players)
  }

  /** The exact difference behind `Rounds` is not an int. */
  predicate RoundsOverflow(s: State)
    requires 0 < s.players
  {
    !s.placing && Int32(s.turns) - s.placements / s.players < -0x8000_0000
  }

  /** The verdict: over on the whole map, or at a positive cap on full rounds. */
  predicate Over(s: State, maxRounds: int)
    requires 0 < s.players
  {
    || (exists seat :: 0 <= seat < s.players && Wins(s.territories, seat))
    || (maxRounds > 0 && Rounds(s) >= maxRounds)
  }
}
