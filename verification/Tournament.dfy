/**
 The round-robin tournament: its schedule, and the workers that pull task indices from a
 shared counter. Threads are modelled as the interleavings of their atomic steps; playing a
 game is a function of the task and of its seed.
 */
module Tournament {
  import opened Arithmetic
  import opened Sequences

  datatype Task = Task(a: int, b: int)

  datatype MatchRecord = MatchRecord(a: int, b: int, score: real)

  datatype Outcome = Win(player: int) | Draw

  // ------------------------------------------------------------------ round robin

  /** Which seat order the pair's `k`-th game has: the lower policy first when `k` is even. */
  function Game(a: int, b: int, k: nat): Task {
    if k % 2 == 0 then Task(a, b) else Task(b, a)
  }

  function GamesOf(a: int, b: int, games: nat): (tasks: seq<Task>)
    ensures |tasks| == games
  {
    seq(games, k requires k >= 0 => Game(a, b, k))
  }

  /** The games of any one pair, as a function of the pair. */
  function Pairing(games: nat): (int, int) -> seq<Task> {
    (a: int, b: int) => GamesOf(a, b, games)
  }

  /** The games of policy `a` with those after it, up to `b`. */
  function PairsWith(a: int, b: int, of: (int, int) -> seq<Task>): seq<Task>
    requires a < b
    decreases b - a
  {
    if b == a + 1 then [] else PairsWith(a, b - 1, of) + of(a, b - 1)
  }

  /** The games whose lower policy is among the first `a`. */
  function Schedule(a: nat, policies: nat, of: (int, int) -> seq<Task>): seq<Task>
    requires a <= policies
  {
    if a == 0 then [] else Schedule(a - 1, policies, of) + PairsWith(a - 1, policies, of)
  }

  /** Adds the games of one pair. */
  method AddGames(a: int, b: int, games: int, before: seq<Task>) returns (tasks: seq<Task>)
    ensures tasks == before + GamesOf(a, b, Natural(games))
  {
    tasks := before;
    var k := 0;
    while k < games
      invariant 0 <= k <= Natural(games)
      invariant tasks == before + GamesOf(a, b, k)
    {
      JoinAll(before, GamesOf(a, b, k), [Game(a, b, k)]);
      assert GamesOf(a, b, k + 1) == GamesOf(a, b, k) + [Game(a, b, k)];
      tasks := tasks + [if k % 2 == 0 then Task(a, b) else Task(b, a)];
      k := k + 1;
    }
  }

  /** The games of every pair, in the order they are listed. A negative number counts as none. */
  method BuildRoundRobin(policies: int, games: int) returns (tasks: seq<Task>)
    ensures tasks == Schedule(Natural(policies), Natural(policies), Pairing(Natural(games)))
  {
    tasks := [];
    var a := 0;
    while a < policies
      invariant 0 <= a <= Natural(policies)
      invariant tasks == Schedule(a, Natural(policies), Pairing(Natural(games)))
    {
      ghost var before := tasks;
      var b := a + 1;
      while b < policies
        invariant a + 1 <= b <= policies
        invariant tasks == before + PairsWith(a, b, Pairing(Natural(games)))
      {
        JoinAll(before, PairsWith(a, b, Pairing(Natural(games))), GamesOf(a, b, Natural(games)));
        tasks := AddGames(a, b, games, tasks);
        b := b + 1;
      }
      a := a + 1;
    }
  }

  function Natural(x: int): nat {
    if x < 0 then 0 else x
  }

  /** How often `t` is to be played: half of the pair's games, the odd one lower policy first. */
  function Fixture(policies: nat, games: nat, t: Task): nat {
    if 0 <= t.a < t.b < policies then (games + 1) / 2
    else if 0 <= t.b < t.a < policies then games / 2
    else 0
  }

  /** How often `t` is in the list. */
  function Times(tasks: seq<Task>, t: Task): nat {
    if tasks == [] then 0
    else Times(tasks[..|tasks| - 1], t) + (if tasks[|tasks| - 1] == t then 1 else 0)
  }

  lemma {:induction false} TimesJoin(xs: seq<Task>, ys: seq<Task>, t: Task)
    ensures Times(xs + ys, t) == Times(xs, t) + Times(ys, t)
  {
    if ys == [] {
      assert xs + ys == xs;
    } else {
      var n := |ys| - 1;
      assert (xs + ys)[..|xs| + n] == xs + ys[..n];
      TimesJoin(xs, ys[..n], t);
    }
  }

  lemma {:induction false} GamesCount(a: int, b: int, games: nat, t: Task)
    requires a < b
    ensures Times(GamesOf(a, b, games), t)
         == if t == Task(a, b) then (games + 1) / 2 else if t == Task(b, a) then games / 2 else 0
  {
    if games > 0 {
      GamesCount(a, b, games - 1, t);
      assert GamesOf(a, b, games)[..games - 1] == GamesOf(a, b, games - 1);
    }
  }

  /** `x` is among the first `a` policies and `y` comes after it. */
  predicate Paired(a: nat, b: int, x: int, y: int) {
    0 <= x < a && x < y < b
  }

  /** A count of list members: nothing for no list, and the sum for a joined one. */
  ghost predicate Additive(times: seq<Task> -> int) {
    times([]) == 0 && forall xs, ys :: times(xs + ys) == times(xs) + times(ys)
  }

  /** A pair's list counts `first` for the pair in its own order, `second` the other way round. */
  ghost predicate Splits(of: (int, int) -> seq<Task>, times: seq<Task> -> int, t: Task, first: nat, second: nat) {
    forall a, b :: a < b ==> times(of(a, b)) == if t == Task(a, b) then first else if t == Task(b, a) then second else 0
  }

  lemma {:induction false} PairsCount(a: int, b: int, of: (int, int) -> seq<Task>, times: seq<Task> -> int, t: Task,
                                      first: nat, second: nat)
    requires a < b && Additive(times) && Splits(of, times, t, first, second)
    ensures times(PairsWith(a, b, of))
         == if t.a == a && a < t.b < b then first else if t.b == a && a < t.a < b then second else 0
    decreases b - a
  {
    if b != a + 1 {
      PairsCount(a, b - 1, of, times, t, first, second);
      assert times(of(a, b - 1)) == if t == Task(a, b - 1) then first else if t == Task(b - 1, a) then second else 0;
    }
  }

  lemma {:induction false} ScheduleCount(a: nat, policies: nat, of: (int, int) -> seq<Task>, times: seq<Task> -> int, t: Task,
                                         first: nat, second: nat)
    requires a <= policies && Additive(times) && Splits(of, times, t, first, second)
    ensures times(Schedule(a, policies, of))
         == if Paired(a, policies, t.a, t.b) then first else if Paired(a, policies, t.b, t.a) then second else 0
  {
    if a > 0 {
      ScheduleCount(a - 1, policies, of, times, t, first, second);
      PairsCount(a - 1, policies, of, times, t, first, second);
    }
  }

  lemma ScheduleShare(policies: nat, games: nat, t: Task)
    ensures Times(Schedule(policies, policies, Pairing(games)), t) == Fixture(policies, games, t)
  {
    var times := (tasks: seq<Task>) => Times(tasks, t) as int;
    forall xs: seq<Task>, ys: seq<Task>
      ensures times(xs + ys) == times(xs) + times(ys)
    {
      TimesJoin(xs, ys, t);
    }
    forall a: int, b: int | a < b
      ensures times(Pairing(games)(a, b))
           == if t == Task(a, b) then (games + 1) / 2 else if t == Task(b, a) then games / 2 else 0
    {
      GamesCount(a, b, games, t);
    }
    ScheduleCount(policies, policies, Pairing(games), times, t, (games + 1) / 2, games / 2);
  }

  /** Every unordered pair meets `games` times, sharing the first seat evenly; nobody else meets. */
  lemma RoundRobinIsFair(policies: nat, games: nat, t: Task)
    ensures var tasks := Schedule(policies, policies, Pairing(games));
      && Times(tasks, t) == Fixture(policies, games, t)
      && (0 <= t.a < policies && 0 <= t.b < policies && t.a != t.b ==>
            Times(tasks, t) + Times(tasks, Task(t.b, t.a)) == games)
  {
    ScheduleShare(policies, games, t);
    ScheduleShare(policies, games, Task(t.b, t.a));
  }

  // ---------------------------------------------------------------------- results

  type Player = (Task, bv32) -> Outcome

  /** The tournament to be run: its tasks, how a seeded game goes, and the base seed. */
  datatype Setup = Setup(tasks: seq<Task>, play: Player, base: bv32, workers: nat)

  function SeedOf(base: bv32, i: nat): bv32 {
    base ^ ((i % 0x1_0000_0000) as bv32)
  }

  function ScoreOf(outcome: Outcome): real {
    if outcome.Win? then (if outcome.player == 0 then 1.0 else 0.0) else 0.5
  }

  function RecordOf(setup: Setup, i: nat): MatchRecord
    requires i < |setup.tasks|
  {
    var t := setup.tasks[i];
    MatchRecord(t.a, t.b, ScoreOf(setup.play(t, SeedOf(setup.base, i))))
  }

  /**
   A record names the task's two policies in their seat order, and scores 1 exactly if the first
   seat won the game seeded with the base seed, altered by the task's number, 1/2 exactly if it
   was drawn, and nothing otherwise.
   */
  predicate RecordTells(setup: Setup, record: MatchRecord, i: nat)
    requires i < |setup.tasks|
  {
    var task := setup.tasks[i];
    Scored(record, task, setup.play(task, setup.base ^ ((i % 0x1_0000_0000) as bv32)))
  }

  predicate Scored(record: MatchRecord, task: Task, outcome: Outcome) {
    && record.a == task.a && record.b == task.b
    && (record.score == 1.0 || record.score == 0.5 || record.score == 0.0)
    && (record.score == 1.0 <==> outcome == Win(0)) && (record.score == 0.5 <==> outcome == Draw)
  }

  ghost predicate RecordsTell(setup: Setup, records: seq<MatchRecord>) {
    |records| == |setup.tasks| && forall i :: 0 <= i < |setup.tasks| ==> RecordTells(setup, records[i], i)
  }

  lemma RecordOfTells(setup: Setup, i: nat)
    requires i < |setup.tasks|
    ensures RecordTells(setup, RecordOf(setup, i), i)
  {
    var t := setup.tasks[i];
    assert SeedOf(setup.base, i) == setup.base ^ ((i % 0x1_0000_0000) as bv32);
    var outcome := setup.play(t, SeedOf(setup.base, i));
    ScoreTells(t, outcome);
  }

  lemma ScoreTells(t: Task, outcome: Outcome)
    ensures Scored(MatchRecord(t.a, t.b, ScoreOf(outcome)), t, outcome)
  {
  }

  lemma SequentialTells(setup: Setup)
    ensures RecordsTell(setup, Sequential(setup))
  {
    forall i | 0 <= i < |setup.tasks|
      ensures RecordTells(setup, Sequential(setup)[i], i)
    {
      RecordOfTells(setup, i);
      assert Sequential(setup)[i] == RecordOf(setup, i);
    }
  }

  /** What one worker alone would record, task by task. */
  function Sequential(setup: Setup): (records: seq<MatchRecord>)
    ensures |records| == |setup.tasks|
  {
    seq(|setup.tasks|, i requires 0 <= i < |setup.tasks| => RecordOf(setup, i))
  }

  // ---------------------------------------------------------------------- workers

  datatype Worker = Fetching | Playing(index: nat) | Done

  /** Who was handed which number by the counter. */
  datatype Claim = Claim(worker: nat, index: nat)

  datatype Hall = Hall(next: nat, workers: seq<Worker>, records: seq<MatchRecord>, claims: seq<Claim>)

  const COUNTER: nat := 0x1_0000_0000_0000_0000

  function Blank(): MatchRecord {
    MatchRecord(0, 0, 0.0)
  }

  function Start(setup: Setup): Hall {
    Hall(0, seq(setup.workers, w => Fetching), seq(|setup.tasks|, i => Blank()), [])
  }

  /** One atomic step of worker `w`: take a number from the counter, or record a played game. */
  function StepOf(setup: Setup, hall: Hall, w: nat): Hall
    requires w < |hall.workers| && hall.workers[w] != Done
    requires hall.workers[w].Playing? ==> hall.workers[w].index < |setup.tasks| == |hall.records|
  {
    match hall.workers[w]
    case Fetching =>
      hall.(next := (hall.next + 1) % COUNTER,
            workers := hall.workers[w := if hall.next < |setup.tasks| then Playing(hall.next) else Done],
            claims := hall.claims + [Claim(w, hall.next)])
    case Playing(i) =>
      hall.(workers := hall.workers[w := Fetching], records := hall.records[i := RecordOf(setup, i)])
    case Done => hall
  }

  function CountDone(workers: seq<Worker>): (n: nat)
    ensures n <= |workers|
  {
    if workers == [] then 0
    else CountDone(workers[..|workers| - 1]) + (if workers[|workers| - 1].Done? then 1 else 0)
  }

  function CountPlaying(workers: seq<Worker>): (n: nat)
    ensures n <= |workers|
  {
    if workers == [] then 0
    else CountPlaying(workers[..|workers| - 1]) + (if workers[|workers| - 1].Playing? then 1 else 0)
  }

  lemma {:induction false} CountsAfter(workers: seq<Worker>, w: nat, now: Worker)
    requires w < |workers|
    ensures CountDone(workers[w := now])
         == CountDone(workers) - (if workers[w].Done? then 1 else 0) + (if now.Done? then 1 else 0)
    ensures CountPlaying(workers[w := now])
         == CountPlaying(workers) - (if workers[w].Playing? then 1 else 0) + (if now.Playing? then 1 else 0)
    ensures !workers[w].Done? ==> CountDone(workers) < |workers|
  {
    var last := |workers| - 1;
    if w == last {
      assert workers[w := now][..last] == workers[..last];
    } else {
      assert workers[w := now][..last] == workers[..last][w := now];
      CountsAfter(workers[..last], w, now);
    }
  }

  lemma {:induction false} CountsOfOne(workers: seq<Worker>, kind: Worker)
    requires forall w :: 0 <= w < |workers| ==> workers[w] == kind
    ensures CountDone(workers) == if kind.Done? then |workers| else 0
    ensures CountPlaying(workers) == if kind.Playing? then |workers| else 0
  {
    if workers != [] {
      CountsOfOne(workers[..|workers| - 1], kind);
    }
  }

  /** The steps taken so far: numbers fetched and games recorded. */
  function Taken(setup: Setup, hall: Hall): int {
    |hall.claims| + Min(|hall.claims|, |setup.tasks|) - CountPlaying(hall.workers)
  }

  predicate Recorded(hall: Hall, i: nat)
    requires forall k :: 0 <= k < |hall.claims| ==> hall.claims[k].worker < |hall.workers|
  {
    i < |hall.claims| && hall.workers[hall.claims[i].worker] != Playing(i)
  }

  /**
   What holds at every moment: the numbers handed out are 0, 1, 2 and so on, one each; a
   worker plays only a task it was handed; and a record is final unless its task is unclaimed
   or still being played.
   */
  ghost predicate Inv(setup: Setup, hall: Hall) {
    && |hall.workers| == setup.workers && |hall.records| == |setup.tasks|
    && hall.next == |hall.claims| <= |setup.tasks| + setup.workers < COUNTER
    && (forall k :: 0 <= k < |hall.claims| ==> hall.claims[k].index == k && hall.claims[k].worker < setup.workers)
    && (forall w :: 0 <= w < |hall.workers| && hall.workers[w].Playing? ==>
          var i := hall.workers[w].index;
          i < |setup.tasks| && i < |hall.claims| && hall.claims[i].worker == w)
    && (forall i :: 0 <= i < |setup.tasks| ==>
          hall.records[i] == if Recorded(hall, i) then RecordOf(setup, i) else Blank())
    && CountDone(hall.workers) == |hall.claims| - Min(|hall.claims|, |setup.tasks|)
  }

  lemma StartInv(setup: Setup)
    requires |setup.tasks| + setup.workers < COUNTER
    ensures Inv(setup, Start(setup)) && Taken(setup, Start(setup)) == 0
  {
    CountsOfOne(Start(setup).workers, Fetching);
  }

  /** A number handed out changes no record: it is not played yet. */
  lemma FetchRecordsNothing(setup: Setup, hall: Hall, w: nat, after: Hall, i: nat)
    requires Inv(setup, hall) && w < |hall.workers| && hall.workers[w] == Fetching && after == StepOf(setup, hall, w)
    requires i < |setup.tasks|
    ensures forall k :: 0 <= k < |after.claims| ==> after.claims[k].worker < |after.workers|
    ensures Recorded(after, i) == Recorded(hall, i)
  {
    if i < |hall.claims| {
      assert after.claims[i] == hall.claims[i];
    }
  }

  lemma FetchKeepsInv(setup: Setup, hall: Hall, w: nat)
    requires Inv(setup, hall) && w < |hall.workers| && hall.workers[w] == Fetching
    ensures Inv(setup, StepOf(setup, hall, w))
    ensures Taken(setup, StepOf(setup, hall, w)) == Taken(setup, hall) + 1
  {
    var after := StepOf(setup, hall, w);
    CountsAfter(hall.workers, w, after.workers[w]);
    forall i | 0 <= i < |setup.tasks|
      ensures after.records[i] == if Recorded(after, i) then RecordOf(setup, i) else Blank()
    {
      FetchRecordsNothing(setup, hall, w, after, i);
    }
  }

  lemma RecordKeepsInv(setup: Setup, hall: Hall, w: nat)
    requires Inv(setup, hall) && w < |hall.workers| && hall.workers[w].Playing?
    ensures Inv(setup, StepOf(setup, hall, w))
    ensures Taken(setup, StepOf(setup, hall, w)) == Taken(setup, hall) + 1
  {
    CountsAfter(hall.workers, w, Fetching);
  }

  lemma StepKeepsInv(setup: Setup, hall: Hall, w: nat)
    requires Inv(setup, hall) && w < |hall.workers| && hall.workers[w] != Done
    ensures Inv(setup, StepOf(setup, hall, w))
    ensures Taken(setup, StepOf(setup, hall, w)) == Taken(setup, hall) + 1
  {
    if hall.workers[w].Fetching? {
      FetchKeepsInv(setup, hall, w);
    } else {
      RecordKeepsInv(setup, hall, w);
    }
  }

  /** A run: one step of some worker that is not done, after another. */
  ghost predicate Run(setup: Setup, halls: seq<Hall>, schedule: seq<nat>) {
    && |halls| == |schedule| + 1 && halls[0] == Start(setup)
    && forall i :: 0 <= i < |schedule| ==> Moves(setup, halls[i], schedule[i], halls[i + 1])
  }

  ghost predicate Moves(setup: Setup, hall: Hall, w: nat, after: Hall) {
    && w < |hall.workers| && hall.workers[w] != Done
    && (hall.workers[w].Playing? ==> hall.workers[w].index < |setup.tasks| == |hall.records|)
    && after == StepOf(setup, hall, w)
  }

  lemma RunKeepsInv(setup: Setup, halls: seq<Hall>, schedule: seq<nat>, i: nat)
    requires |setup.tasks| + setup.workers < COUNTER
    requires Run(setup, halls, schedule) && i < |halls|
    ensures Inv(setup, halls[i]) && Taken(setup, halls[i]) == i
  {
    StartInv(setup);
    for j := 0 to i
      invariant Inv(setup, halls[j]) && Taken(setup, halls[j]) == j
    {
      assert Moves(setup, halls[j], schedule[j], halls[j + 1]);
      StepKeepsInv(setup, halls[j], schedule[j]);
    }
  }

  ghost predicate AllDone(hall: Hall) {
    forall w :: 0 <= w < |hall.workers| ==> hall.workers[w].Done?
  }

  lemma DoneIsSequential(setup: Setup, hall: Hall)
    requires Inv(setup, hall) && AllDone(hall) && setup.workers > 0
    ensures hall.records == Sequential(setup)
    ensures |hall.claims| == |setup.tasks| + setup.workers == hall.next
    ensures Taken(setup, hall) == 2 * |setup.tasks| + setup.workers
  {
    CountsOfOne(hall.workers, Done);
  }

  /**
   However the workers interleave: every number is handed out once, to one worker; no record
   outside the tasks is written; a run takes at most 2 |tasks| + workers steps, exactly that
   many when all are done, and then the records are those of a sequential run.
   */
  lemma EveryInterleavingAgrees(setup: Setup, halls: seq<Hall>, schedule: seq<nat>)
    requires |setup.tasks| + setup.workers < COUNTER && setup.workers > 0
    requires Run(setup, halls, schedule)
    ensures var hall := halls[|schedule|];
      && (forall i :: 0 <= i < hall.next ==> ClaimedOnce(hall.claims, i))
      && |schedule| <= 2 * |setup.tasks| + setup.workers
      && (AllDone(hall) <==> |schedule| == 2 * |setup.tasks| + setup.workers)
      && (AllDone(hall) ==>
            && hall.records == Sequential(setup) && RecordsTell(setup, hall.records)
            && hall.next == |setup.tasks| + setup.workers)
  {
    SequentialTells(setup);
    var hall := halls[|schedule|];
    RunKeepsInv(setup, halls, schedule, |schedule|);
    forall i | 0 <= i < hall.next
      ensures ClaimedOnce(hall.claims, i)
    {
      NumberedOnce(hall.claims, i);
      assert OnlyClaim(hall.claims, hall.claims[i].worker, i);
    }
    if AllDone(hall) {
      DoneIsSequential(setup, hall);
    } else {
      var w :| 0 <= w < |hall.workers| && !hall.workers[w].Done?;
      CountsAfter(hall.workers, w, Done);
      PlayingNotDone(hall.workers);
    }
  }

  lemma {:induction false} PlayingNotDone(workers: seq<Worker>)
    ensures CountPlaying(workers) + CountDone(workers) <= |workers|
  {
    if workers != [] {
      PlayingNotDone(workers[..|workers| - 1]);
    }
  }

  /** Worker `w` was handed number `i` once, and nobody else was. */
  predicate OnlyClaim(claims: seq<Claim>, w: nat, i: nat) {
    multiset(claims)[Claim(w, i)] == 1 && forall c :: c in claims && c.index == i ==> c.worker == w
  }

  ghost predicate ClaimedOnce(claims: seq<Claim>, i: nat) {
    exists w: nat :: OnlyClaim(claims, w, i)
  }

  lemma {:induction false} NumberedOnce(claims: seq<Claim>, i: nat)
    requires i < |claims| && forall k :: 0 <= k < |claims| ==> claims[k].index == k
    ensures multiset(claims)[claims[i]] == 1
  {
    var last := |claims| - 1;
    assert claims == claims[..last] + [claims[last]];
    if i < last {
      NumberedOnce(claims[..last], i);
    } else {
      assert claims[last] !in claims[..last];
    }
  }

  /** The workers on any schedule: `pick` chooses, at every step, among those not done. */
  method RunTournament(setup: Setup, pick: nat -> nat) returns (records: seq<MatchRecord>)
    requires setup.workers > 0 && |setup.tasks| + setup.workers < COUNTER
    ensures records == Sequential(setup) && RecordsTell(setup, records)
  {
    SequentialTells(setup);
    var hall := Start(setup);
    StartInv(setup);
    var steps: nat := 0;
    var active := ActiveWorkers(hall.workers);
    while active != []
      invariant Inv(setup, hall) && Taken(setup, hall) == steps
      invariant forall w: nat :: w in active <==> w < |hall.workers| && !hall.workers[w].Done?
      decreases 2 * |setup.tasks| + setup.workers - steps
    {
      var w := active[pick(steps) % |active|];
      assert w in active;
      StepKeepsInv(setup, hall, w);
      hall := StepOf(setup, hall, w);
      steps := steps + 1;
      active := ActiveWorkers(hall.workers);
      PlayingNotDone(hall.workers);
    }
    assert AllDone(hall) by {
      assert forall w: nat :: w !in active;
    }
    DoneIsSequential(setup, hall);
    records := hall.records;
  }

  function ActiveWorkers(workers: seq<Worker>): (active: seq<nat>)
    ensures forall w: nat :: w in active <==> w < |workers| && !workers[w].Done?
  {
    if workers == [] then []
    else
      var last := |workers| - 1;
      ActiveWorkers(workers[..last]) + (if workers[last].Done? then [] else [last])
  }
}
