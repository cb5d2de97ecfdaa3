/**
 Placing `n` elements into `k` bins, seen as words of `n` zeros and `k - 1` ones (the
 bars between the bins), as bar positions, and as bin counts; and the ranking of them.
 */
module Placements {
  import opened Binomial

  /** Zeros are elements, ones are bars. */
  type Bit = x: int | x == 0 || x == 1
  type Word = seq<Bit>

  function Ones(w: Word): (n: nat)
    ensures n <= |w|
  {
    if w == [] then 0 else w[0] + Ones(w[1..])
  }

  // ------------------------------------------------------------------- the rank

  /** How many words of this length and number of bars put a bar before `w` does. */
  function Rank(w: Word): nat {
    if w == [] then 0
    else if w[0] == 1 then Rank(w[1..])
    else (if Ones(w) == 0 then 0 else Choose(|w| - 1, Ones(w) - 1)) + Rank(w[1..])
  }

  function UnrankWord(slots: nat, ones: nat, rank: nat): (w: Word)
    requires ones <= slots
    ensures |w| == slots && Ones(w) == ones
    decreases slots
  {
    if slots == 0 then []
    else if ones == 0 then
      [0] + UnrankWord(slots - 1, 0, rank)
    else
      var first := Choose(slots - 1, ones - 1);
      if rank < first || ones == slots then [1] + UnrankWord(slots - 1, ones - 1, rank)
      else [0] + UnrankWord(slots - 1, ones, rank - first)
  }

  lemma {:induction false} RankInRange(w: Word)
    ensures Rank(w) < Choose(|w|, Ones(w))
  {
    if w != [] {
      RankInRange(w[1..]);
      if w[0] == 1 {
      } else if Ones(w) == 0 {
        assert Rank(w[1..]) < Choose(|w| - 1, 0);
      }
    }
  }

  lemma {:induction false} UnrankOfRank(w: Word)
    ensures UnrankWord(|w|, Ones(w), Rank(w)) == w
  {
    if w != [] {
      var rest := w[1..];
      UnrankOfRank(rest);
      assert w == [w[0]] + rest;
      UnrankFirst(w, rest, |w|, Ones(w), Rank(w));
    }
  }

  /** The first letter is read off the rank, and the rest unranked. */
  lemma UnrankFirst(w: Word, rest: Word, slots: nat, ones: nat, rank: nat)
    requires w != [] && rest == w[1..] && slots == |w| && ones == Ones(w) && rank == Rank(w)
    ensures UnrankWord(slots, ones, rank) == [w[0]] + UnrankWord(slots - 1, Ones(rest), Rank(rest))
  {
    RankInRange(rest);
    if w[0] == 0 {
      if ones == slots {
        AllOnes(w);
      }
      UnrankZero(slots, ones, rank, Rank(rest));
    } else {
      UnrankOne(slots, ones, rank);
    }
  }

  lemma UnrankOne(slots: nat, ones: nat, rank: nat)
    requires 0 < ones <= slots && rank < Choose(slots - 1, ones - 1)
    ensures UnrankWord(slots, ones, rank) == [1] + UnrankWord(slots - 1, ones - 1, rank)
  {
  }

  lemma UnrankZero(slots: nat, ones: nat, rank: nat, rest: nat)
    requires ones < slots && rank == (if ones == 0 then 0 else Choose(slots - 1, ones - 1)) + rest
    ensures UnrankWord(slots, ones, rank) == [0] + UnrankWord(slots - 1, ones, rest)
  {
  }

  lemma {:induction false} AllOnes(w: Word)
    requires Ones(w) == |w| && w != []
    ensures w[0] == 1
  {
  }

  lemma {:induction false} RankOfUnrank(slots: nat, ones: nat, rank: nat)
    requires ones <= slots && rank < Choose(slots, ones)
    ensures Rank(UnrankWord(slots, ones, rank)) == rank
    decreases slots
  {
    if slots > 0 {
      var w := UnrankWord(slots, ones, rank);
      if ones == 0 {
        RankOfUnrank(slots - 1, 0, rank);
        assert w[1..] == UnrankWord(slots - 1, 0, rank);
      } else {
        var first := Choose(slots - 1, ones - 1);
        if rank < first || ones == slots {
          if ones == slots {
            ChooseTooMany(slots - 1, slots);
          }
          RankOfUnrank(slots - 1, ones - 1, rank);
          assert w[1..] == UnrankWord(slots - 1, ones - 1, rank);
        } else {
          RankOfUnrank(slots - 1, ones, rank - first);
          assert w[1..] == UnrankWord(slots - 1, ones, rank - first);
        }
      }
    }
  }

  // --------------------------------------------------------------- bar positions

  /** The positions of the bars, counting from `offset + 1`. */
  function Bars(w: Word, offset: nat): (b: seq<int>)
    ensures |b| == Ones(w)
  {
    if w == [] then []
    else if w[0] == 1 then [offset + 1] + Bars(w[1..], offset + 1)
    else Bars(w[1..], offset + 1)
  }

  /** Strictly increasing positions out of those after `offset`, up to `last`. */
  predicate IsBars(b: seq<int>, offset: int, last: int) {
    && (forall i :: 0 <= i < |b| ==> offset < b[i] <= last)
    && (forall i, j :: 0 <= i < j < |b| ==> b[i] < b[j])
  }

  lemma {:induction false} BarsAreBars(w: Word, offset: nat)
    ensures IsBars(Bars(w, offset), offset, offset + |w|)
  {
    if w != [] {
      BarsAreBars(w[1..], offset + 1);
    }
  }

  /** The word with bars at the given positions. */
  function WordOfBars(b: seq<int>, offset: nat, slots: nat): (w: Word)
    requires IsBars(b, offset, offset + slots)
    ensures |w| == slots
    decreases slots
  {
    if slots == 0 then []
    else if |b| > 0 && b[0] == offset + 1 then [1] + WordOfBars(b[1..], offset + 1, slots - 1)
    else [0] + WordOfBars(b, offset + 1, slots - 1)
  }

  /** The first letter says whether the first position holds a bar. */
  lemma FirstBar(first: Bit, rest: Word, offset: nat)
    ensures Bars([first] + rest, offset) == (if first == 1 then [offset + 1] else []) + Bars(rest, offset + 1)
  {
    assert ([first] + rest)[1..] == rest;
    assert [] + Bars(rest, offset + 1) == Bars(rest, offset + 1);
  }

  lemma BarsAfterFirst(b: seq<int>, offset: int, last: int)
    requires IsBars(b, offset, last)
    ensures |b| > 0 && b[0] == offset + 1 ==> IsBars(b[1..], offset + 1, last)
    ensures |b| == 0 || b[0] != offset + 1 ==> IsBars(b, offset + 1, last)
  {
  }

  lemma BarRead(b: seq<int>, offset: nat, rest: Word)
    requires |b| > 0 && b[0] == offset + 1 && Bars(rest, offset + 1) == b[1..]
    ensures Bars([1] + rest, offset) == b
  {
    FirstBar(1, rest, offset);
    assert b == [b[0]] + b[1..];
  }

  lemma {:induction false} BarsOfWordOfBars(b: seq<int>, offset: nat, slots: nat)
    requires IsBars(b, offset, offset + slots)
    ensures Bars(WordOfBars(b, offset, slots), offset) == b
    decreases slots
  {
    if slots > 0 {
      BarsAfterFirst(b, offset, offset + slots);
      if |b| > 0 && b[0] == offset + 1 {
        BarsOfWordOfBars(b[1..], offset + 1, slots - 1);
        BarRead(b, offset, WordOfBars(b[1..], offset + 1, slots - 1));
      } else {
        BarsOfWordOfBars(b, offset + 1, slots - 1);
        FirstBar(0, WordOfBars(b, offset + 1, slots - 1), offset);
      }
    }
  }

  /** Lexicographic order of sorted bar positions. */
  predicate LexLess(a: seq<int>, b: seq<int>) {
    |a| > 0 && |b| > 0 && (a[0] < b[0] || (a[0] == b[0] && LexLess(a[1..], b[1..])))
  }

  /** Ranks go up exactly as the sorted bar positions do, lexicographically. */
  lemma {:induction false} RankFollowsBars(v: Word, w: Word, offset: nat)
    requires |v| == |w| && Ones(v) == Ones(w)
    ensures Rank(v) < Rank(w) <==> LexLess(Bars(v, offset), Bars(w, offset))
  {
    if v != [] {
      BarsAreBars(v[1..], offset + 1);
      BarsAreBars(w[1..], offset + 1);
      RankInRange(v[1..]);
      RankInRange(w[1..]);
      if v[0] == w[0] {
        RankFollowsBars(v[1..], w[1..], offset + 1);
        if v[0] == 1 {
          assert Bars(v, offset)[1..] == Bars(v[1..], offset + 1);
          assert Bars(w, offset)[1..] == Bars(w[1..], offset + 1);
        }
      }
    }
  }

  // ------------------------------------------------------------------ bin counts

  function Total(bins: seq<int>): int {
    if bins == [] then 0 else bins[0] + Total(bins[1..])
  }

  /** `n` elements placed in `k` bins. */
  predicate IsPlacement(bins: seq<int>, n: int, k: nat) {
    |bins| == k && Total(bins) == n && forall i :: 0 <= i < k ==> bins[i] >= 0
  }

  /** The bins between the bars. */
  function Bins(w: Word): (bins: seq<int>)
    ensures |bins| == Ones(w) + 1
  {
    if w == [] then [0]
    else if w[0] == 1 then [0] + Bins(w[1..])
    else var rest := Bins(w[1..]); [rest[0] + 1] + rest[1..]
  }

  lemma {:induction false} BinsArePlacement(w: Word)
    ensures IsPlacement(Bins(w), |w| - Ones(w), Ones(w) + 1)
  {
    if w != [] {
      BinsArePlacement(w[1..]);
      if w[0] == 1 {
        assert Bins(w)[1..] == Bins(w[1..]);
      } else {
        assert Bins(w)[1..] == Bins(w[1..])[1..];
      }
    }
  }

  /** The word whose bins these are. */
  function WordOf(bins: seq<int>): (w: Word)
    requires |bins| >= 1 && forall i :: 0 <= i < |bins| ==> bins[i] >= 0
    ensures Ones(w) == |bins| - 1
    decreases |bins|, bins[0]
  {
    if bins[0] > 0 then [0] + WordOf([bins[0] - 1] + bins[1..])
    else if |bins| == 1 then []
    else [1] + WordOf(bins[1..])
  }

  lemma {:induction false} WordOfIsInverse(bins: seq<int>)
    requires |bins| >= 1 && forall i :: 0 <= i < |bins| ==> bins[i] >= 0
    ensures Bins(WordOf(bins)) == bins && |WordOf(bins)| == Total(bins) + |bins| - 1
    decreases |bins|, bins[0]
  {
    var w := WordOf(bins);
    if bins[0] > 0 {
      var less := [bins[0] - 1] + bins[1..];
      WordOfIsInverse(less);
      assert w[1..] == WordOf(less);
      assert less[1..] == bins[1..];
    } else if |bins| == 1 {
    } else {
      WordOfIsInverse(bins[1..]);
      assert w[1..] == WordOf(bins[1..]);
    }
  }

  lemma {:induction false} WordOfBins(w: Word)
    ensures (forall i :: 0 <= i < |Bins(w)| ==> Bins(w)[i] >= 0) && WordOf(Bins(w)) == w
  {
    BinsArePlacement(w);
    if w != [] {
      WordOfBins(w[1..]);
      var rest := Bins(w[1..]);
      BinsArePlacement(w[1..]);
      if w[0] == 1 {
        assert Bins(w)[1..] == rest;
      } else {
        assert [Bins(w)[0] - 1] + Bins(w)[1..] == rest;
      }
      assert w == [w[0]] + w[1..];
    }
  }

  /** Bins read off bar positions: the gaps between them, after `prev`. */
  function Gaps(b: seq<int>, prev: int, slots: int): (bins: seq<int>)
    ensures |bins| == |b| + 1
  {
    if b == [] then [slots + 1 - prev - 1] else [b[0] - prev - 1] + Gaps(b[1..], b[0], slots)
  }

  /** The first bin grown by `more`. */
  function Grown(bins: seq<int>, more: int): (r: seq<int>)
    requires |bins| >= 1
    ensures |r| == |bins|
  {
    [bins[0] + more] + bins[1..]
  }

  lemma {:induction false} GapsAreBins(w: Word, offset: nat, prev: int)
    requires prev <= offset
    ensures Gaps(Bars(w, offset), prev, offset + |w|) == Grown(Bins(w), offset - prev)
  {
    if w == [] {
    } else if w[0] == 1 {
      GapsAreBins(w[1..], offset + 1, offset + 1);
      assert Grown(Bins(w[1..]), 0) == Bins(w[1..]);
      assert Bins(w)[1..] == Bins(w[1..]);
      assert Bars(w, offset)[1..] == Bars(w[1..], offset + 1);
    } else {
      GapsAreBins(w[1..], offset + 1, prev);
      assert Bins(w)[1..] == Bins(w[1..])[1..];
    }
  }

  lemma {:induction false} GapsFromStart(w: Word)
    ensures Gaps(Bars(w, 0), 0, |w|) == Bins(w)
  {
    GapsAreBins(w, 0, 0);
    assert Grown(Bins(w), 0) == Bins(w);
  }

  /** The placement with a given rank. */
  function Unranked(n: nat, k: nat, rank: nat): (bins: seq<int>)
    requires k >= 1 && rank < Choose(n + k - 1, k - 1)
    ensures |bins| == k
  {
    Bins(UnrankWord(n + k - 1, k - 1, rank))
  }

  /** The rank of a placement. */
  function RankOf(bins: seq<int>): nat
    requires |bins| >= 1 && forall i :: 0 <= i < |bins| ==> bins[i] >= 0
  {
    Rank(WordOf(bins))
  }

  /**
   Ranking and unranking are inverse: `Unranked` is a bijection from the ranks below the
   number of placements onto the placements.
   */
  lemma {:induction false} UnrankIsBijection(n: nat, k: nat, rank: nat)
    requires k >= 1 && rank < Choose(n + k - 1, k - 1)
    ensures IsPlacement(Unranked(n, k, rank), n, k) && RankOf(Unranked(n, k, rank)) == rank
  {
    var w := UnrankWord(n + k - 1, k - 1, rank);
    RankOfUnrank(n + k - 1, k - 1, rank);
    BinsArePlacement(w);
    WordOfBins(w);
  }

  lemma {:induction false} EveryPlacementIsRanked(n: nat, k: nat, bins: seq<int>)
    requires k >= 1 && IsPlacement(bins, n, k)
    ensures RankOf(bins) < Choose(n + k - 1, k - 1) && Unranked(n, k, RankOf(bins)) == bins
  {
    var w := WordOf(bins);
    WordOfIsInverse(bins);
    RankInRange(w);
    UnrankOfRank(w);
  }

  // ------------------------------------------------------------------ the programs

  method Size(n: nat, k: nat) returns (size: nat)
    requires k >= 1
    ensures size == Choose(n + k - 1, k - 1)
  {
    size := ExactBinomial(n + k - 1, k - 1);
  }

  /** The bars of the word of a given rank over the positions after `p`. */
  ghost function BarsAfter(slots: nat, p: nat, ones: nat, rank: nat): (b: seq<int>)
    requires p + ones <= slots
    ensures |b| == ones
  {
    Bars(UnrankWord(slots - p, ones, rank), p)
  }

  /** Whether the next position holds a bar, and what is left to unrank after it. */
  lemma {:induction false} NextBar(slots: nat, p: nat, remaining: nat, rank: nat)
    requires p + 1 + remaining <= slots && rank < Choose(slots - p, remaining + 1)
    ensures var count := Choose(slots - p - 1, remaining);
      && (rank < count ==>
            BarsAfter(slots, p, remaining + 1, rank) == [p + 1] + BarsAfter(slots, p + 1, remaining, rank))
      && (rank >= count ==>
            && p + remaining + 2 <= slots
            && rank - count < Choose(slots - p - 1, remaining + 1)
            && BarsAfter(slots, p, remaining + 1, rank) == BarsAfter(slots, p + 1, remaining + 1, rank - count))
  {
    var rest := UnrankWord(slots - p, remaining + 1, rank);
    var count := Choose(slots - p - 1, remaining);
    if p + 1 + remaining == slots {
      ChooseAll(remaining);
      ChooseTooMany(remaining, remaining + 1);
    }
    if rank < count {
      assert rest[1..] == UnrankWord(slots - p - 1, remaining, rank);
    } else {
      assert rest[1..] == UnrankWord(slots - p - 1, remaining + 1, rank - count);
    }
  }

  /** At position `p` the bars still to come are `goal`. */
  ghost predicate LooksFor(slots: nat, p: nat, remaining: nat, rank: nat, goal: seq<int>) {
    && 1 <= p && p + remaining <= slots && rank < Choose(slots - p + 1, remaining + 1)
    && BarsAfter(slots, p - 1, remaining + 1, rank) == goal
  }

  lemma LookOn(slots: nat, p: nat, remaining: nat, rank: nat, goal: seq<int>, count: nat)
    requires LooksFor(slots, p, remaining, rank, goal) && count == Choose(slots - p, remaining)
    ensures rank < count ==> goal == [p] + BarsAfter(slots, p, remaining, rank)
    ensures rank >= count ==> LooksFor(slots, p + 1, remaining, rank - count, goal)
  {
    NextBar(slots, p - 1, remaining, rank);
  }

  /** Scans on from `start` for the next bar, counting off the placements it passes over. */
  method FindBar(slots: nat, start: nat, remaining: nat, rank0: nat) returns (p: nat, rank: nat)
    requires 1 <= start && start + remaining <= slots && rank0 < Choose(slots - start + 1, remaining + 1)
    ensures 1 <= start <= p && p + remaining <= slots
    ensures rank < Choose(slots - p, remaining)
    ensures BarsAfter(slots, start - 1, remaining + 1, rank0) == [p] + BarsAfter(slots, p, remaining, rank)
  {
    ghost var goal := BarsAfter(slots, start - 1, remaining + 1, rank0);
    rank := rank0;
    p := start;
    while p <= slots - remaining
      invariant start <= p && LooksFor(slots, p, remaining, rank, goal)
    {
      var count := ExactBinomial(slots - p, remaining);
      LookOn(slots, p, remaining, rank, goal, count);
      if rank < count {
        return;
      }
      rank := rank - count;
      p := p + 1;
    }
  }

  /** Finds the bars of a rank one after another. */
  method FindBars(slots: nat, numBars: nat, rank0: nat) returns (bars: seq<int>)
    requires numBars <= slots && rank0 < Choose(slots, numBars)
    ensures bars == Bars(UnrankWord(slots, numBars, rank0), 0)
  {
    var rank: nat := rank0;
    var start: nat := 1;
    bars := [];
    ghost var rest := BarsAfter(slots, 0, numBars, rank0);
    for i := 0 to numBars
      invariant 1 <= start && start - 1 + (numBars - i) <= slots
      invariant rank < Choose(slots - start + 1, numBars - i)
      invariant rest == BarsAfter(slots, start - 1, numBars - i, rank)
      invariant bars + rest == BarsAfter(slots, 0, numBars, rank0)
    {
      var p;
      p, rank := FindBar(slots, start, numBars - i - 1, rank);
      assert bars + rest == (bars + [p]) + rest[1..];
      rest := rest[1..];
      bars := bars + [p];
      start := p + 1;
    }
    assert bars + [] == bars;
  }

  lemma {:induction false} GapsLast(b: seq<int>, prev: int, slots: int, bar: int)
    ensures Gaps(b + [bar], prev, slots)
         == Gaps(b, prev, slots)[..|b|] + [bar - (if b == [] then prev else b[|b| - 1]) - 1, slots + 1 - bar - 1]
  {
    if b != [] {
      GapsLast(b[1..], b[0], slots, bar);
      assert (b + [bar])[1..] == b[1..] + [bar];
    }
  }

  /** Bar positions turned into bin counts, as both programs do it. */
  method BinsFromBars(bars: seq<int>, slots: int) returns (out: seq<int>)
    ensures out == Gaps(bars, 0, slots)
  {
    out := [];
    var prev := 0;
    for i := 0 to |bars|
      invariant prev == if i == 0 then 0 else bars[i - 1]
      invariant out == Gaps(bars[..i], 0, slots)[..i]
      invariant Gaps(bars[..i], 0, slots)[i] == slots + 1 - prev - 1
    {
      GapsLast(bars[..i], 0, slots, bars[i]);
      assert bars[..i + 1] == bars[..i] + [bars[i]];
      out := out + [bars[i] - prev - 1];
      prev := bars[i];
    }
    assert bars[..|bars|] == bars;
    out := out + [(slots + 1) - prev - 1];
  }

  /** Unranking: the bars of the word of that rank, then its bins. */
  method Unrank(n: nat, k: nat, rank: nat) returns (out: seq<int>)
    requires k >= 1 && rank < Choose(n + k - 1, k - 1)
    ensures out == Unranked(n, k, rank)
  {
    var bars := FindBars(n + k - 1, k - 1, rank);
    out := BinsFromBars(bars, n + k - 1);
    GapsFromStart(UnrankWord(n + k - 1, k - 1, rank));
  }

  /**
   Random placement: `bars` stands for the sorted sample of distinct positions. The result
   is a placement, and each one comes from exactly one sample.
   */
  method SampleStarsAndBars(n: nat, k: int, bars: seq<int>) returns (out: seq<int>)
    requires k >= 2 ==> |bars| == k - 1 && IsBars(bars, 0, n + k - 1)
    ensures k <= 0 ==> out == []
    ensures k >= 1 ==> IsPlacement(out, n, k)
    ensures k >= 2 ==> Bars(WordOf(out), 0) == bars
  {
    if k <= 0 {
      return [];
    }
    if k == 1 {
      return [n];
    }
    out := BinsFromBars(bars, n + k - 1);
    var w := WordOfBars(bars, 0, n + k - 1);
    BarsOfWordOfBars(bars, 0, n + k - 1);
    GapsFromStart(w);
    BinsArePlacement(w);
    WordOfBins(w);
  }
}
