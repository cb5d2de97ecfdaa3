/**
 The verdict of a game: a place for every seat, and the order seats were knocked out in.
 */
module RiskView {
  import opened Arithmetic
  import opened Options
  import opened RiskRules
  import opened RiskInvariant
  import opened RiskRuns
  import opened RiskGame

  // ------------------------------------------------------------------------ ranks

  /** How a seat stands, the lower the better: knocked out when, then land, then armies. */
  datatype Standing = Standing(out: int, land: int, armies: int)

  predicate Better(a: Standing, b: Standing) {
    a.out < b.out || (a.out == b.out && (a.land < b.land || (a.land == b.land && a.armies < b.armies)))
  }

  /** The first position of `seat`, or the length. */
  function Find(eliminated: seq<int>, seat: int): (i: nat)
    ensures i <= |eliminated|
    ensures i < |eliminated| <==> seat in eliminated
    ensures i < |eliminated| ==> eliminated[i] == seat
    ensures forall j :: 0 <= j < i ==> eliminated[j] != seat
  {
    if eliminated == [] then 0
    else if eliminated[0] == seat then 0
    else
      var rest := Find(eliminated[1..], seat);
      assert forall j :: 1 <= j < |eliminated| ==> eliminated[j] == eliminated[1..][j - 1];
      rest + 1
  }

  function LandOf(land: seq<Territory>, seat: int): (n: int)
    ensures n >= 0
  {
    if land == [] then 0
    else LandOf(land[..|land| - 1], seat) + (if land[|land| - 1].owner == seat then 1 else 0)
  }

  function ArmiesOf(land: seq<Territory>, seat: int): (n: int)
    ensures n >= 0
  {
    if land == [] then 0
    else ArmiesOf(land[..|land| - 1], seat) + (if land[|land| - 1].owner == seat then land[|land| - 1].units else 0)
  }

  function RankOf(land: seq<Territory>, eliminated: seq<int>, seat: int): Standing {
    Standing(|eliminated| - Find(eliminated, seat), -LandOf(land, seat), -ArmiesOf(land, seat))
  }

  /** The standing of every seat. */
  function Ranks(land: seq<Territory>, eliminated: seq<int>, players: nat): (ranks: seq<Standing>)
    ensures |ranks| == players
  {
    seq(players, seat => RankOf(land, eliminated, seat))
  }

  // ---------------------------------------------------------------------- sorting

  /** Seats by standing, ties in seat order. */
  function InsertSeat(order: seq<nat>, seat: nat, ranks: seq<Standing>): (r: seq<nat>)
    requires seat < |ranks| && forall i :: 0 <= i < |order| ==> order[i] < |ranks|
    ensures |r| == |order| + 1 && forall i :: 0 <= i < |r| ==> r[i] < |ranks|
  {
    if order == [] || Better(ranks[seat], ranks[order[0]]) then [seat] + order
    else [order[0]] + InsertSeat(order[1..], seat, ranks)
  }

  function StableSort(ranks: seq<Standing>, n: nat): (order: seq<nat>)
    requires n <= |ranks|
    ensures |order| == n && forall i :: 0 <= i < n ==> order[i] < |ranks|
  {
    if n == 0 then [] else InsertSeat(StableSort(ranks, n - 1), n - 1, ranks)
  }

  predicate InOrder(order: seq<nat>, ranks: seq<Standing>)
    requires forall i :: 0 <= i < |order| ==> order[i] < |ranks|
  {
    forall i, j :: 0 <= i < j < |order| ==> !Better(ranks[order[j]], ranks[order[i]])
  }

  /** How many of the listed seats stand strictly better than `r`. */
  function BetterCount(order: seq<nat>, ranks: seq<Standing>, r: Standing): (n: nat)
    requires forall i :: 0 <= i < |order| ==> order[i] < |ranks|
    ensures n <= |order|
  {
    if order == [] then 0
    else (if Better(ranks[order[0]], r) then 1 else 0) + BetterCount(order[1..], ranks, r)
  }

  lemma {:induction false} InsertKeepsCount(order: seq<nat>, seat: nat, ranks: seq<Standing>, r: Standing)
    requires seat < |ranks| && forall i :: 0 <= i < |order| ==> order[i] < |ranks|
    ensures BetterCount(InsertSeat(order, seat, ranks), ranks, r)
         == BetterCount(order, ranks, r) + (if Better(ranks[seat], r) then 1 else 0)
    ensures forall t :: t in InsertSeat(order, seat, ranks) <==> t in order || t == seat
  {
    if !(order == [] || Better(ranks[seat], ranks[order[0]])) {
      InsertKeepsCount(order[1..], seat, ranks, r);
      assert order == [order[0]] + order[1..];
    }
  }

  lemma {:induction false} InsertKeepsOrder(order: seq<nat>, seat: nat, ranks: seq<Standing>)
    requires seat < |ranks| && forall i :: 0 <= i < |order| ==> order[i] < |ranks|
    requires InOrder(order, ranks)
    ensures InOrder(InsertSeat(order, seat, ranks), ranks)
  {
    if !(order == [] || Better(ranks[seat], ranks[order[0]])) {
      var rest := InsertSeat(order[1..], seat, ranks);
      InsertKeepsOrder(order[1..], seat, ranks);
      InsertKeepsCount(order[1..], seat, ranks, ranks[seat]);
      forall j | 0 <= j < |rest|
        ensures !Better(ranks[rest[j]], ranks[order[0]])
      {
        assert rest[j] in rest;
        if rest[j] != seat {
          var k :| 0 <= k < |order[1..]| && order[1..][k] == rest[j];
          assert order[k + 1] == rest[j];
        }
      }
    }
  }

  /** How many of the first `n` seats stand strictly better than `r`. */
  function SeatsBetter(ranks: seq<Standing>, n: nat, r: Standing): nat
    requires n <= |ranks|
  {
    if n == 0 then 0 else SeatsBetter(ranks, n - 1, r) + (if Better(ranks[n - 1], r) then 1 else 0)
  }

  lemma {:induction false} SortCounts(ranks: seq<Standing>, n: nat, r: Standing)
    requires n <= |ranks|
    ensures BetterCount(StableSort(ranks, n), ranks, r) == SeatsBetter(ranks, n, r)
  {
    if n > 0 {
      SortCounts(ranks, n - 1, r);
      InsertKeepsCount(StableSort(ranks, n - 1), n - 1, ranks, r);
    }
  }

  lemma {:induction false} SortIsInOrder(ranks: seq<Standing>, n: nat)
    requires n <= |ranks|
    ensures InOrder(StableSort(ranks, n), ranks)
  {
    if n > 0 {
      SortIsInOrder(ranks, n - 1);
      InsertKeepsOrder(StableSort(ranks, n - 1), n - 1, ranks);
    }
  }

  /** Before position `i` of the sorted order, all stand better; from it on none does. */
  lemma {:induction false} CountSplits(order: seq<nat>, ranks: seq<Standing>, i: nat, r: Standing)
    requires (forall k :: 0 <= k < |order| ==> order[k] < |ranks|) && i <= |order|
    requires forall k :: 0 <= k < i ==> Better(ranks[order[k]], r)
    requires forall k :: i <= k < |order| ==> !Better(ranks[order[k]], r)
    ensures BetterCount(order, ranks, r) == i
  {
    if order != [] {
      CountSplits(order[1..], ranks, if i == 0 then 0 else i - 1, r);
    }
  }

  // ------------------------------------------------------------------------ places

  /** Counts every seat's territories and armies. */
  method Tally(land: seq<Territory>, players: nat) returns (counts: seq<int>, armies: seq<int>)
    requires forall t :: 0 <= t < |land| ==> -1 <= land[t].owner < players
    ensures |counts| == players == |armies|
    ensures forall p :: 0 <= p < players ==> counts[p] == LandOf(land, p) && armies[p] == ArmiesOf(land, p)
  {
    counts, armies := seq(players, i => 0), seq(players, i => 0);
    for t := 0 to |land|
      invariant |counts| == players == |armies|
      invariant forall p :: 0 <= p < players ==> counts[p] == LandOf(land[..t], p) && armies[p] == ArmiesOf(land[..t], p)
    {
      assert land[..t + 1][..t] == land[..t];
      var owner := land[t].owner;
      if owner >= 0 {
        counts := counts[owner := counts[owner] + 1];
        armies := armies[owner := armies[owner] + land[t].units];
      }
    }
    assert land[..|land|] == land;
  }

  predicate AllDifferent(order: seq<nat>) {
    forall i, j :: 0 <= i < j < |order| ==> order[i] != order[j]
  }

  lemma {:induction false} SortedSeatsDiffer(ranks: seq<Standing>, n: nat)
    requires n <= |ranks|
    ensures AllDifferent(StableSort(ranks, n))
    ensures forall t :: t in StableSort(ranks, n) <==> 0 <= t < n
  {
    if n > 0 {
      SortedSeatsDiffer(ranks, n - 1);
      var order := StableSort(ranks, n - 1);
      InsertKeepsCount(order, n - 1, ranks, ranks[n - 1]);
      InsertDiffers(order, n - 1, ranks);
    }
  }

  lemma {:induction false} InsertDiffers(order: seq<nat>, seat: nat, ranks: seq<Standing>)
    requires seat < |ranks| && forall i :: 0 <= i < |order| ==> order[i] < |ranks|
    requires seat !in order && AllDifferent(order)
    ensures AllDifferent(InsertSeat(order, seat, ranks))
  {
    if !(order == [] || Better(ranks[seat], ranks[order[0]])) {
      InsertDiffers(order[1..], seat, ranks);
      InsertKeepsCount(order[1..], seat, ranks, ranks[seat]);
      var rest := InsertSeat(order[1..], seat, ranks);
      forall j | 0 <= j < |rest| ensures rest[j] != order[0] {
        assert rest[j] in rest;
      }
    }
  }

  /** Where the standing changes down the sorted order, all seats before stand better. */
  lemma NewStanding(order: seq<nat>, ranks: seq<Standing>, i: nat)
    requires (forall j :: 0 <= j < |order| ==> order[j] < |ranks|) && InOrder(order, ranks)
    requires i < |order| && (i > 0 ==> ranks[order[i]] != ranks[order[i - 1]])
    ensures forall k :: 0 <= k < i ==> Better(ranks[order[k]], ranks[order[i]])
  {
    forall k | 0 <= k < i
      ensures Better(ranks[order[k]], ranks[order[i]])
    {
      assert !Better(ranks[order[i]], ranks[order[i - 1]]);
      assert k < i - 1 ==> !Better(ranks[order[i - 1]], ranks[order[k]]);
    }
  }

  /** Places down the sorted order: a tie shares the place of the seat before it. */
  method PlacesInOrder(order: seq<nat>, ranks: seq<Standing>) returns (places: seq<nat>)
    requires |order| == |ranks| && (forall i :: 0 <= i < |order| ==> order[i] < |ranks|) && InOrder(order, ranks)
    requires AllDifferent(order)
    ensures |places| == |ranks|
    ensures forall i :: 0 <= i < |order| ==> places[order[i]] == BetterCount(order, ranks, ranks[order[i]])
  {
    places := seq(|ranks|, i => 0);
    ghost var first := 0;
    for i := 0 to |order|
      invariant |places| == |ranks|
      invariant i == 0 ==> first == 0
      invariant i > 0 ==> first < i && places[order[i - 1]] == first
      invariant i > 0 ==> forall k :: first <= k < i ==> ranks[order[k]] == ranks[order[i - 1]]
      invariant i > 0 ==> forall k :: 0 <= k < first ==> Better(ranks[order[k]], ranks[order[i - 1]])
      invariant forall j :: 0 <= j < i ==> places[order[j]] == BetterCount(order, ranks, ranks[order[j]])
    {
      var seat := order[i];
      var place := if i > 0 && ranks[seat] == ranks[order[i - 1]] then places[order[i - 1]] else i;
      if !(i > 0 && ranks[seat] == ranks[order[i - 1]]) {
        first := i;
        NewStanding(order, ranks, i);
      }
      CountSplits(order, ranks, first, ranks[seat]);
      places := places[seat := place];
    }
  }

  // ---------------------------------------------------------- who is placed ahead of whom

  /** The seat's territories. */
  function LandsOf(land: seq<Territory>, seat: int): set<int> {
    set t | 0 <= t < |land| && land[t].owner == seat
  }

  /** Territory by territory, the seat's armies. */
  function ArmiesBy(land: seq<Territory>, seat: int): (armies: seq<int>)
    ensures |armies| == |land|
    ensures forall t :: 0 <= t < |land| ==> armies[t] == if land[t].owner == seat then land[t].units else 0
  {
    seq(|land|, t requires 0 <= t < |land| => if land[t].owner == seat then land[t].units else 0)
  }

  lemma {:induction false} LandIsCounted(land: seq<Territory>, seat: int)
    ensures LandOf(land, seat) == |LandsOf(land, seat)|
    ensures ArmiesOf(land, seat) == Sum(ArmiesBy(land, seat))
  {
    if land != [] {
      var n := |land| - 1;
      LandIsCounted(land[..n], seat);
      var before, all := LandsOf(land[..n], seat), LandsOf(land, seat);
      assert all == if land[n].owner == seat then before + {n} else before;
      assert ArmiesBy(land, seat)[..n] == ArmiesBy(land[..n], seat);
    }
  }

  /** Of two survivors, `a` has more land, or as much and more armies. */
  predicate HasMore(land: seq<Territory>, a: int, b: int) {
    || |LandsOf(land, a)| > |LandsOf(land, b)|
    || (|LandsOf(land, a)| == |LandsOf(land, b)| && Sum(ArmiesBy(land, a)) > Sum(ArmiesBy(land, b)))
  }

  /** Seat `a` is not listed before `b` is. */
  predicate ListedLater(eliminated: seq<int>, a: int, b: int) {
    exists j :: 0 <= j < |eliminated| && eliminated[j] == b && a !in eliminated[..j]
  }

  /** Survivors by what they have, above everyone listed; of those listed the later ones. */
  predicate PlacedAhead(land: seq<Territory>, eliminated: seq<int>, a: int, b: int) {
    if a in eliminated then b in eliminated && ListedLater(eliminated, a, b)
    else b in eliminated || HasMore(land, a, b)
  }

  lemma BetterIsAhead(land: seq<Territory>, eliminated: seq<int>, a: int, b: int)
    requires a != b
    ensures Better(RankOf(land, eliminated, a), RankOf(land, eliminated, b)) <==> PlacedAhead(land, eliminated, a, b)
  {
    LandIsCounted(land, a);
    LandIsCounted(land, b);
    if a in eliminated && b in eliminated {
      LaterIsListedLater(eliminated, a, b);
    }
  }

  lemma LaterIsListedLater(eliminated: seq<int>, a: int, b: int)
    requires a != b && a in eliminated && b in eliminated
    ensures ListedLater(eliminated, a, b) <==> Find(eliminated, a) > Find(eliminated, b)
  {
    var i, j := Find(eliminated, a), Find(eliminated, b);
    assert eliminated[i] == a && eliminated[j] == b;
    if i > j {
      assert a !in eliminated[..j];
    }
    if k :| 0 <= k < |eliminated| && eliminated[k] == b && a !in eliminated[..k] {
      assert forall m :: 0 <= m < k ==> eliminated[m] == eliminated[..k][m];
      assert k < i;
    }
  }

  /** The seats placed ahead of one. */
  function SeatsAhead(land: seq<Territory>, eliminated: seq<int>, n: nat, b: int): set<int> {
    set a | 0 <= a < n && a != b && PlacedAhead(land, eliminated, a, b)
  }

  lemma AheadGrows(land: seq<Territory>, eliminated: seq<int>, n: nat, b: int)
    requires n > 0
    ensures |SeatsAhead(land, eliminated, n, b)|
         == |SeatsAhead(land, eliminated, n - 1, b)| + if n - 1 != b && PlacedAhead(land, eliminated, n - 1, b) then 1 else 0
  {
    var ahead := (a: int) => a != b && PlacedAhead(land, eliminated, a, b);
    assert forall m: nat :: SeatsAhead(land, eliminated, m, b) == Holding(m, ahead);
    OneMoreHolds(n, ahead);
  }

  lemma {:induction false} BetterAreAhead(land: seq<Territory>, eliminated: seq<int>, ranks: seq<Standing>, n: nat, b: nat)
    requires n <= |ranks| && b < |ranks| && ranks == Ranks(land, eliminated, |ranks|)
    ensures SeatsBetter(ranks, n, ranks[b]) == |SeatsAhead(land, eliminated, n, b)|
  {
    if n > 0 {
      BetterAreAhead(land, eliminated, ranks, n - 1, b);
      AheadGrows(land, eliminated, n, b);
      if n - 1 != b {
        BetterIsAhead(land, eliminated, n - 1, b);
      }
    }
  }

  lemma {:induction false} FewerAreBetter(ranks: seq<Standing>, n: nat, a: Standing, b: Standing)
    requires n <= |ranks| && Better(a, b)
    ensures SeatsBetter(ranks, n, a) <= SeatsBetter(ranks, n, b)
    ensures a in ranks[..n] ==> SeatsBetter(ranks, n, a) < SeatsBetter(ranks, n, b)
  {
    if n > 0 {
      FewerAreBetter(ranks, n - 1, a, b);
      assert ranks[..n] == ranks[..n - 1] + [ranks[n - 1]];
    }
  }

  /** A better place is exactly a better standing. */
  lemma PlacesCompare(ranks: seq<Standing>, a: nat, b: nat)
    requires a < |ranks| && b < |ranks|
    ensures SeatsBetter(ranks, |ranks|, ranks[a]) < SeatsBetter(ranks, |ranks|, ranks[b]) <==> Better(ranks[a], ranks[b])
  {
    assert ranks[..|ranks|] == ranks;
    if Better(ranks[a], ranks[b]) {
      FewerAreBetter(ranks, |ranks|, ranks[a], ranks[b]);
    } else if Better(ranks[b], ranks[a]) {
      FewerAreBetter(ranks, |ranks|, ranks[b], ranks[a]);
    } else {
      assert ranks[a] == ranks[b];
    }
  }

  /** Places that say of every two seats which is ahead, and of each how many are. */
  ghost predicate PlacesTell(s: State, eliminated: seq<int>, places: seq<nat>) {
    && |places| == s.players
    && (forall a, b :: 0 <= a < s.players && 0 <= b < s.players && a != b ==>
          (places[a] < places[b] <==> PlacedAhead(s.territories, eliminated, a, b)))
    && forall b :: 0 <= b < s.players ==> places[b] == |SeatsAhead(s.territories, eliminated, s.players, b)|
  }

  lemma RankedPlacesTell(s: State, eliminated: seq<int>, places: seq<nat>)
    requires |places| == s.players
    requires var ranks := Ranks(s.territories, eliminated, s.players);
      forall seat :: 0 <= seat < s.players ==> places[seat] == SeatsBetter(ranks, s.players, ranks[seat])
    ensures PlacesTell(s, eliminated, places)
  {
    var ranks := Ranks(s.territories, eliminated, s.players);
    forall a, b | 0 <= a < s.players && 0 <= b < s.players && a != b
      ensures places[a] < places[b] <==> PlacedAhead(s.territories, eliminated, a, b)
    {
      PlacesCompare(ranks, a, b);
      BetterIsAhead(s.territories, eliminated, a, b);
    }
    forall b | 0 <= b < s.players
      ensures places[b] == |SeatsAhead(s.territories, eliminated, s.players, b)|
    {
      BetterAreAhead(s.territories, eliminated, ranks, s.players, b);
    }
  }

  /** Two survivors share a place exactly when they have the same number of territories and of armies. */
  lemma SurvivorsCompare(s: State, eliminated: seq<int>, places: seq<nat>, a: int, b: int)
    requires PlacesTell(s, eliminated, places) && 0 <= a < s.players && 0 <= b < s.players && a != b
    requires a !in eliminated && b !in eliminated
    ensures places[a] < places[b] <==> HasMore(s.territories, a, b)
    ensures places[a] == places[b]
       <==> |LandsOf(s.territories, a)| == |LandsOf(s.territories, b)|
            && Sum(ArmiesBy(s.territories, a)) == Sum(ArmiesBy(s.territories, b))
  {
  }

  /** Over as the rules say, at the cap, or because it is asked for; then every seat's place. */
  method ResultOf(s: State, maxRounds: int, eliminated: seq<int>, over: bool) returns (places: Option<seq<nat>>)
    requires Inv(s)
    ensures places.Some? <==> over || Over(s, maxRounds)
    ensures places.Some? ==>
      var ranks := Ranks(s.territories, eliminated, s.players);
      && |places.value| == s.players
      && forall seat :: 0 <= seat < s.players ==>
           places.value[seat] == SeatsBetter(ranks, s.players, ranks[seat])
    ensures places.Some? ==> PlacesTell(s, eliminated, places.value)
  {
    var rules := WinnerOf(s.territories);
    assert rules.Won? ==> Wins(s.territories, rules.seat) && rules.seat == s.territories[0].owner;
    if !over && rules.Ongoing? && (maxRounds <= 0 || Rounds(s) < maxRounds) {
      return None;
    }
    var result := Places(s, eliminated);
    RankedPlacesTell(s, eliminated, result);
    places := Some(result);
  }

  /** Every seat's place: how many seats stand strictly better. */
  method Places(s: State, eliminated: seq<int>) returns (places: seq<nat>)
    requires Inv(s)
    ensures |places| == s.players
    ensures var ranks := Ranks(s.territories, eliminated, s.players);
      forall seat :: 0 <= seat < s.players ==> places[seat] == SeatsBetter(ranks, s.players, ranks[seat])
  {
    var counts, armies := Tally(s.territories, s.players);
    ghost var spec := Ranks(s.territories, eliminated, s.players);
    var ranks := seq(s.players, seat requires 0 <= seat < s.players =>
      Standing(|eliminated| - Find(eliminated, seat), -counts[seat], -armies[seat]));
    assert ranks == spec;
    places := PlacesByRank(ranks);
  }

  method PlacesByRank(ranks: seq<Standing>) returns (places: seq<nat>)
    ensures |places| == |ranks|
    ensures forall seat :: 0 <= seat < |ranks| ==> places[seat] == SeatsBetter(ranks, |ranks|, ranks[seat])
  {
    var order := StableSort(ranks, |ranks|);
    SortedSeatsDiffer(ranks, |ranks|);
    SortIsInOrder(ranks, |ranks|);
    places := PlacesInOrder(order, ranks);
    forall seat | 0 <= seat < |ranks|
      ensures places[seat] == SeatsBetter(ranks, |ranks|, ranks[seat])
    {
      SortCounts(ranks, |ranks|, ranks[seat]);
      assert seat in order;
      var i :| 0 <= i < |order| && order[i] == seat;
    }
  }

  // ------------------------------------------------------------------ eliminations

  /** Seats below `n` that had land and have none. */
  function Lost(before: seq<Territory>, after: seq<Territory>, n: nat): (seats: seq<int>) {
    if n == 0 then []
    else Lost(before, after, n - 1) + (if OwnsLand(before, n - 1) && !OwnsLand(after, n - 1) then [n - 1] else [])
  }

  lemma {:induction false} LostSeats(before: seq<Territory>, after: seq<Territory>, n: nat)
    ensures var seats := Lost(before, after, n);
      && (forall p :: p in seats <==> 0 <= p < n && OwnsLand(before, p) && !OwnsLand(after, p))
      && (forall i, j :: 0 <= i < j < |seats| ==> seats[i] < seats[j])
  {
    if n > 0 {
      LostSeats(before, after, n - 1);
      var rest := Lost(before, after, n - 1);
      assert forall i :: 0 <= i < |rest| ==> rest[i] in rest;
    }
  }

  /** Keeps the order seats were knocked out in. */
  class StepRenderer {
    var eliminated: seq<int>

    constructor ()
      ensures eliminated == []
    {
      eliminated := [];
    }

    /** Notes every seat that owned land before the step and owns none after it. */
    method Render(before: State, after: State)
      requires Shape(before) && Shape(after) && before.players == after.players
      modifies this
      ensures eliminated == old(eliminated) + Lost(before.territories, after.territories, before.players)
    {
      for seat := 0 to before.players
        invariant eliminated == old(eliminated) + Lost(before.territories, after.territories, seat)
      {
        if OwnsLand(before.territories, seat) && !OwnsLand(after.territories, seat) {
          eliminated := eliminated + [seat];
        }
      }
    }
  }

  /** Landless, though its first placement is behind it. */
  predicate KnockedOut(s: State, seat: int) {
    0 <= seat < s.players && seat < s.placements && !OwnsLand(s.territories, seat)
  }

  ghost predicate Records(eliminated: seq<int>, s: State) {
    && (forall seat :: seat in eliminated <==> KnockedOut(s, seat))
    && (forall i, j :: 0 <= i < j < |eliminated| ==> eliminated[i] != eliminated[j])
  }

  lemma OwnerStaysOwner(land: seq<Territory>, after: seq<Territory>, seat: int)
    requires |land| == |after|
    requires forall t :: 0 <= t < |land| ==> after[t].owner == land[t].owner
    ensures OwnsLand(after, seat) <==> OwnsLand(land, seat)
  {
    if OwnsLand(land, seat) {
      var t :| 0 <= t < |land| && land[t].owner == seat;
      assert after[t].owner == seat;
    }
    if OwnsLand(after, seat) {
      var t :| 0 <= t < |land| && after[t].owner == seat;
      assert land[t].owner == seat;
    }
  }

  /** Land only ever goes to a seat that has some, once the first round of placement is over. */
  lemma NoSeatReturns(s: State, action: Action, seat: int)
    requires Inv(s) && Legal(s, action) && (action.RollDice? ==> RollReady(s))
    requires KnockedOut(s, seat)
    ensures KnockedOut(Apply(s, action), seat)
  {
    var after := Apply(s, action);
    if action.RollDice? {
      RollOutcome(s, action.attacker, action.defender);
      var q := s.attack.value;
      assert s.territories[q.source].owner != seat;
      forall t | 0 <= t < NUM_TERRITORIES
        ensures after.territories[t].owner != seat
      {
        assert s.territories[t].owner != seat;
      }
    } else if !action.InitialPlace? {
      OwnerStaysOwner(s.territories, after.territories, seat);
    }
  }

  lemma LandedSeatHasPlaced(s: State, seat: int)
    requires Inv(s) && 0 <= seat < s.players && OwnsLand(s.territories, seat)
    ensures seat < s.placements
  {
    if !s.placing {
      assert s.placements == s.players * InitialReserves(s.players);
      ProductGrows(1, InitialReserves(s.players), s.players);
    }
  }

  /** A step keeps the record: each knocked-out seat once, the newly landless at the end. */
  lemma RenderKeepsRecord(s: State, action: Action, eliminated: seq<int>)
    requires Inv(s) && Legal(s, action) && (action.RollDice? ==> RollReady(s)) && Records(eliminated, s)
    ensures Records(eliminated + Lost(s.territories, Apply(s, action).territories, s.players), Apply(s, action))
  {
    var after := Apply(s, action);
    var lost := Lost(s.territories, after.territories, s.players);
    LostSeats(s.territories, after.territories, s.players);
    StepKeepsInv(s, action);
    StepKeepsTable(s, action);
    forall seat
      ensures seat in eliminated + lost <==> KnockedOut(after, seat)
    {
      RenderKeepsSeat(s, action, eliminated, lost, seat);
    }
    forall i, j | 0 <= i < |eliminated| && 0 <= j < |lost|
      ensures eliminated[i] != lost[j]
    {
      assert eliminated[i] in eliminated && lost[j] in lost;
    }
  }

  lemma RenderKeepsSeat(s: State, action: Action, eliminated: seq<int>, lost: seq<int>, seat: int)
    requires Inv(s) && Legal(s, action) && (action.RollDice? ==> RollReady(s)) && Records(eliminated, s)
    requires lost == Lost(s.territories, Apply(s, action).territories, s.players)
    ensures seat in eliminated + lost <==> KnockedOut(Apply(s, action), seat)
  {
    LostSeats(s.territories, Apply(s, action).territories, s.players);
    StepKeepsInv(s, action);
    StepKeepsTable(s, action);
    if seat in eliminated {
      NoSeatReturns(s, action, seat);
    }
    if seat in lost {
      LandedSeatHasPlaced(s, seat);
    }
    if KnockedOut(Apply(s, action), seat) && !OwnsLand(s.territories, seat) {
      PlacedBefore(s, action, seat);
    }
  }

  lemma PlacedBefore(s: State, action: Action, seat: int)
    requires Inv(s) && Legal(s, action) && (action.RollDice? ==> RollReady(s))
    requires KnockedOut(Apply(s, action), seat) && !OwnsLand(s.territories, seat)
    ensures seat < s.placements
  {
    if action.InitialPlace? {
      PlaceKeepsSeats(s, action.territory);
    }
  }

  // --------------------------------------------------------------------- whole games

  /** The record after `i` steps of a game. */
  ghost function EliminatedBy(states: seq<State>, i: nat): (eliminated: seq<int>)
    requires i < |states|
  {
    if i == 0 then []
    else EliminatedBy(states, i - 1) + Lost(states[i - 1].territories, states[i].territories, states[i - 1].players)
  }

  /** Over any legal game the record holds each knocked-out seat exactly once. */
  lemma EliminatedIsRecord(board: Board, players: nat, states: seq<State>, actions: seq<Action>, i: nat)
    requires ValidBoard(board) && 2 <= players <= 6
    requires Game(board, players, states, actions) && i < |states|
    ensures Inv(states[i]) && Records(EliminatedBy(states, i), states[i])
  {
    InitialInv(board, players);
    for j := 0 to i
      invariant Inv(states[j]) && Records(EliminatedBy(states, j), states[j])
    {
      NextRecord(states[j], actions[j], states[j + 1], EliminatedBy(states, j));
    }
  }

  lemma NextRecord(s: State, action: Action, after: State, eliminated: seq<int>)
    requires Inv(s) && Step(s, action, after) && Records(eliminated, s)
    ensures Inv(after) && Records(eliminated + Lost(s.territories, after.territories, s.players), after)
  {
    StepKeepsInv(s, action);
    RenderKeepsRecord(s, action, eliminated);
  }

  /** The record only grows at its end, so it is in the order of loss. */
  lemma {:induction false} RecordGrowsAtTheEnd(states: seq<State>, i: nat, j: nat)
    requires i <= j < |states|
    ensures EliminatedBy(states, i) <= EliminatedBy(states, j)
    decreases j
  {
    if i < j {
      RecordGrowsAtTheEnd(states, i, j - 1);
    }
  }

  /** Survivors place above everyone knocked out, and those knocked out later above earlier ones. */
  lemma PlacesFollowKnockOuts(s: State, eliminated: seq<int>, a: int, b: int)
    requires Inv(s) && Records(eliminated, s) && 0 <= a < s.players && 0 <= b < s.players
    requires b in eliminated && (a !in eliminated || Find(eliminated, b) < Find(eliminated, a))
    ensures var ranks := Ranks(s.territories, eliminated, s.players);
      && Better(ranks[a], ranks[b])
      && SeatsBetter(ranks, s.players, ranks[a]) < SeatsBetter(ranks, s.players, ranks[b])
  {
    var ranks := Ranks(s.territories, eliminated, s.players);
    BetterHasFewerAhead(ranks, s.players, a, b);
  }

  lemma {:induction false} BetterHasFewerAhead(ranks: seq<Standing>, n: nat, a: nat, b: nat)
    requires n <= |ranks| && a < |ranks| && b < |ranks| && Better(ranks[a], ranks[b])
    ensures SeatsBetter(ranks, n, ranks[a]) <= SeatsBetter(ranks, n, ranks[b])
    ensures a < n ==> SeatsBetter(ranks, n, ranks[a]) < SeatsBetter(ranks, n, ranks[b])
  {
    if n > 0 {
      BetterHasFewerAhead(ranks, n - 1, a, b);
    }
  }
}
