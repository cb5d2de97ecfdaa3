/**
 Iterating over all placements by next permutation of the word, in place. It visits them
 in exactly the reverse order of unranking.
 */
module StarsAndBars {
  import opened Binomial
  import opened Placements
  import opened Sequences

  // --------------------------------------------------------- words with one step

  function Repeat(b: Bit, n: nat): (w: Word)
    ensures |w| == n && forall i :: 0 <= i < n ==> w[i] == b
  {
    seq(n, i => b)
  }

  lemma {:induction false} OnesAppend(v: Word, w: Word)
    ensures Ones(v + w) == Ones(v) + Ones(w)
  {
    if v == [] {
      assert v + w == w;
    } else {
      OnesAppend(v[1..], w);
      assert (v + w)[1..] == v[1..] + w;
    }
  }

  lemma {:induction false} OnesRepeat(b: Bit, n: nat)
    ensures Ones(Repeat(b, n)) == b * n
  {
    if n > 0 {
      OnesRepeat(b, n - 1);
      assert Repeat(b, n)[1..] == Repeat(b, n - 1);
    }
  }

  /** Bars first: the placement ranked 0, where the iteration ends. */
  lemma {:induction false} RankOfFirst(ones: nat, zeros: nat)
    ensures Rank(Repeat(1, ones) + Repeat(0, zeros)) == 0
  {
    var w := Repeat(1, ones) + Repeat(0, zeros);
    if ones > 0 {
      RankOfFirst(ones - 1, zeros);
      assert w[1..] == Repeat(1, ones - 1) + Repeat(0, zeros);
    } else if zeros > 0 {
      RankOfFirst(0, zeros - 1);
      OnesRepeat(0, zeros);
      assert w == Repeat(0, zeros);
      assert w[1..] == Repeat(1, 0) + Repeat(0, zeros - 1);
    }
  }

  /** Elements first: the highest rank, where the iteration starts. */
  lemma {:induction false} RankOfLast(zeros: nat, ones: nat)
    ensures Rank(Repeat(0, zeros) + Repeat(1, ones)) == Choose(zeros + ones, ones) - 1
  {
    var w := Repeat(0, zeros) + Repeat(1, ones);
    OnesAppend(Repeat(0, zeros), Repeat(1, ones));
    OnesRepeat(0, zeros);
    OnesRepeat(1, ones);
    if zeros > 0 {
      RankOfLast(zeros - 1, ones);
      assert w[1..] == Repeat(0, zeros - 1) + Repeat(1, ones);
    } else {
      RankOfFirst(ones, 0);
      assert w == Repeat(1, ones) + Repeat(0, 0);
      ChooseAll(ones);
    }
  }

  /** Two words with a common start differ in rank as what follows does. */
  lemma {:induction false} RankAfterPrefix(p: Word, v: Word, w: Word)
    requires |v| == |w| && Ones(v) == Ones(w)
    ensures Rank(p + v) - Rank(p + w) == Rank(v) - Rank(w)
  {
    if p == [] {
      assert p + v == v && p + w == w;
    } else {
      RankAfterPrefix(p[1..], v, w);
      assert (p + v)[1..] == p[1..] + v && (p + w)[1..] == p[1..] + w;
      OnesAppend(p, v);
      OnesAppend(p, w);
    }
  }

  /** The step of the iteration: the last ascent is undone, and what follows it put in order. */
  lemma {:induction false} StepLowersRank(p: Word, m: nat, t: nat)
    requires m >= 1
    ensures var before := p + [0] + Repeat(1, m) + Repeat(0, t);
            var after := p + [1] + Repeat(0, t + 1) + Repeat(1, m - 1);
      && |after| == |before| && Ones(after) == Ones(before) && Rank(after) == Rank(before) - 1
  {
    var v: Word := [0] + (Repeat(1, m) + Repeat(0, t));
    var w: Word := [1] + (Repeat(0, t + 1) + Repeat(1, m - 1));
    JoinTail(p, [0], Repeat(1, m), Repeat(0, t));
    JoinTail(p, [1], Repeat(0, t + 1), Repeat(1, m - 1));
    StepOfSuffix(m, t);
    RankAfterPrefix(p, w, v);
    OnesAppend(p, v);
    OnesAppend(p, w);
  }

  lemma StepOfSuffix(m: nat, t: nat)
    requires m >= 1
    ensures var v := [0] + (Repeat(1, m) + Repeat(0, t));
            var w := [1] + (Repeat(0, t + 1) + Repeat(1, m - 1));
      |v| == |w| && Ones(v) == Ones(w) && Rank(w) == Rank(v) - 1
  {
    OnesOfTwo(1, m, 0, t, m, 0);
    OnesOfTwo(0, t + 1, 1, m - 1, 0, m - 1);
    RankOfFirst(m, t);
    RankOfLast(t + 1, m - 1);
    BarTaken(Repeat(1, m) + Repeat(0, t), Repeat(0, t + 1) + Repeat(1, m - 1), m);
  }

  lemma OnesOfTwo(a: Bit, m: nat, b: Bit, n: nat, before: nat, after: nat)
    requires before == (if a == 1 then m else 0) && after == (if b == 1 then n else 0)
    ensures |Repeat(a, m) + Repeat(b, n)| == m + n
    ensures Ones(Repeat(a, m) + Repeat(b, n)) == before + after
  {
    OnesAppend(Repeat(a, m), Repeat(b, n));
    OnesRepeat(a, m);
    OnesRepeat(b, n);
  }

  lemma BarTaken(a: Word, b: Word, m: nat)
    requires m >= 1 && |a| == |b| && Ones(a) == m && Ones(b) == m - 1
    requires Rank(a) == 0 && Rank(b) == Choose(|b|, m - 1) - 1
    ensures Ones([0] + a) == Ones([1] + b) && Rank([1] + b) == Rank([0] + a) - 1
  {
    assert ([0] + a)[1..] == a && ([1] + b)[1..] == b;
  }

  // ------------------------------------------------------------------ permutation

  /** Reverses a[lo..hi]. */
  method Reverse(a: array<Bit>, lo: nat, hi: nat)
    requires lo <= hi <= a.Length
    modifies a
    ensures forall i :: 0 <= i < lo || hi <= i < a.Length ==> a[i] == old(a[i])
    ensures forall i :: lo <= i < hi ==> a[i] == old(a[lo + hi - 1 - i])
  {
    var i, j := lo, hi;
    while i < j
      invariant lo <= i <= j + 1 && j <= hi && i + j == lo + hi
      invariant forall m :: 0 <= m < lo || hi <= m < a.Length ==> a[m] == old(a[m])
      invariant forall m :: lo <= m < i || j <= m < hi ==> a[m] == old(a[lo + hi - 1 - m])
      invariant forall m :: i <= m < j ==> a[m] == old(a[m])
    {
      j := j - 1;
      a[i], a[j] := a[j], a[i];
      i := i + 1;
    }
  }

  /** Where the last ascent is; the letters after it do not rise. */
  method LastAscent(a: array<Bit>) returns (i: int)
    ensures -1 <= i < a.Length
    ensures i >= 0 ==> i + 1 < a.Length && a[i] == 0 && a[i + 1] == 1
    ensures forall m, n :: 0 <= m && i < m <= n < a.Length ==> a[m] >= a[n]
  {
    i := a.Length - 1;
    while i > 0
      invariant -1 <= i < a.Length && (i == -1 ==> a.Length == 0)
      invariant forall m, n :: 0 <= m && i <= m <= n < a.Length ==> a[m] >= a[n]
    {
      i := i - 1;
      if a[i] < a[i + 1] {
        return;
      }
    }
    i := -1;
  }

  /** The last letter greater than a[i], which is 0: the end of the run of bars after it. */
  method LastGreater(a: array<Bit>, i: nat) returns (j: nat)
    requires i + 1 < a.Length && a[i] == 0 && a[i + 1] == 1
    requires forall m, n :: i < m <= n < a.Length ==> a[m] >= a[n]
    ensures i < j < a.Length
    ensures forall m :: i < m <= j ==> a[m] == 1
    ensures forall m :: j < m < a.Length ==> a[m] == 0
  {
    j := a.Length - 1;
    while !(a[i] < a[j])
      invariant i < j < a.Length
      invariant forall m :: j < m < a.Length ==> a[m] == 0
      decreases j
    {
      j := j - 1;
    }
  }

  /** What the array holds around an ascent at `i` whose run of bars ends at `j`. */
  lemma WordAroundAscent(w: Word, i: nat, j: nat)
    requires i < j < |w| && w[i] == 0
    requires forall m :: i < m <= j ==> w[m] == 1
    requires forall m :: j < m < |w| ==> w[m] == 0
    ensures w == w[..i] + [0] + Repeat(1, j - i) + Repeat(0, |w| - 1 - j)
  {
  }

  lemma WordAfterSwap(w: Word, p: Word, i: nat, j: nat)
    requires i < j < |w| && |p| == i && w[..i] == p && w[i] == 1
    requires forall m :: i < m <= i + (|w| - j) ==> w[m] == 0
    requires forall m :: i + (|w| - j) < m < |w| ==> w[m] == 1
    ensures w == p + [1] + Repeat(0, |w| - j) + Repeat(1, j - i - 1)
  {
  }

  /** Swaps the ascent's 0 with the last bar after it and reverses what follows. */
  method SwapAndReverse(a: array<Bit>, i: nat, j: nat)
    requires i < j < a.Length && a[i] == 0
    requires forall m :: i < m <= j ==> a[m] == 1
    requires forall m :: j < m < a.Length ==> a[m] == 0
    modifies a
    ensures a[..] == old(a[..i]) + [1] + Repeat(0, a.Length - j) + Repeat(1, j - i - 1)
  {
    ghost var p := a[..i];
    a[i], a[j] := a[j], a[i];
    label Swapped:
    Reverse(a, i + 1, a.Length);
    forall m | i < m < a.Length
      ensures a[m] == if m <= i + (a.Length - j) then 0 else 1
    {
      assert a[m] == old@Swapped(a[i + 1 + a.Length - 1 - m]);
    }
    assert a[..][..i] == p;
    WordAfterSwap(a[..], p, i, j);
  }

  /**
   The library's in-place next permutation, on words of zeros and ones: the rank goes down
   by one, or the word had rank 0 and there is no next.
   */
  method NextPermutation(a: array<Bit>) returns (more: bool)
    modifies a
    ensures more ==> Ones(a[..]) == Ones(old(a[..])) && Rank(a[..]) == Rank(old(a[..])) - 1
    ensures !more ==> Rank(old(a[..])) == 0
  {
    ghost var before := a[..];
    var i := LastAscent(a);
    if i < 0 {
      NoAscentIsFirst(before);
      Reverse(a, 0, a.Length);
      return false;
    }
    var j := LastGreater(a, i);
    WordAroundAscent(before, i, j);
    StepLowersRank(before[..i], j - i, a.Length - 1 - j);
    SwapAndReverse(a, i, j);
    more := true;
  }

  lemma {:induction false} NoAscentIsFirst(w: Word)
    requires forall m, n :: 0 <= m <= n < |w| ==> w[m] >= w[n]
    ensures Rank(w) == 0
  {
    if w != [] {
      NoAscentIsFirst(w[1..]);
      if w[0] == 0 {
        assert w == Repeat(0, |w|);
        OnesRepeat(0, |w|);
      }
    }
  }

  // -------------------------------------------------------------------- the class

  function AddLetter(bins: seq<int>, b: Bit): (r: seq<int>)
    requires |bins| >= 1
  {
    if b == 1 then bins + [0] else bins[|bins| - 1 := bins[|bins| - 1] + 1]
  }

  lemma FirstGrows(rest: seq<int>, b: Bit)
    requires |rest| >= 1
    ensures var grown := AddLetter(rest, b);
            |grown| >= 1 && [grown[0] + 1] + grown[1..] == AddLetter([rest[0] + 1] + rest[1..], b)
  {
    var grown, bins := AddLetter(rest, b), [rest[0] + 1] + rest[1..];
    if b == 1 {
      assert grown[1..] == rest[1..] + [0];
    } else if |rest| == 1 {
    } else {
      assert [grown[0] + 1] + grown[1..] == bins[|bins| - 1 := bins[|bins| - 1] + 1];
    }
  }

  lemma BinsOfAdded(first: Bit, rest: Word, bins: seq<int>)
    requires bins == Bins(rest)
    ensures Bins([first] + rest) == if first == 1 then [0] + bins else [bins[0] + 1] + bins[1..]
  {
    assert ([first] + rest)[1..] == rest;
  }

  lemma ZeroFirst(rest: seq<int>, b: Bit)
    requires |rest| >= 1
    ensures [0] + AddLetter(rest, b) == AddLetter([0] + rest, b)
  {
  }

  /** One letter put before a word whose bins, and those with `b` after it, are known. */
  lemma BinsSnocStep(first: Bit, rest: Word, b: Bit, bins: seq<int>, grown: seq<int>)
    requires bins == Bins(rest) && grown == Bins(rest + [b]) == AddLetter(bins, b)
    ensures Bins([first] + rest + [b]) == AddLetter(Bins([first] + rest), b)
  {
    BinsOfAdded(first, rest, bins);
    BinsOfAdded(first, rest + [b], grown);
    LetterAtEnd(first, rest, b);
    if first == 1 {
      ZeroFirst(bins, b);
    } else {
      FirstGrows(bins, b);
    }
  }

  lemma LetterAtEnd(first: Bit, rest: Word, b: Bit)
    ensures [first] + rest + [b] == [first] + (rest + [b])
  {
  }

  /** The bins of a word read one letter at a time. */
  lemma {:induction false} BinsSnoc(w: Word, b: Bit)
    ensures Bins(w + [b]) == AddLetter(Bins(w), b)
  {
    if w == [] {
      assert w + [b] == [b] + [];
      BinsOfAdded(b, [], [0]);
    } else {
      BinsSnoc(w[1..], b);
      BinsSnocStep(w[0], w[1..], b, Bins(w[1..]), Bins(w[1..] + [b]));
      assert [w[0]] + w[1..] == w;
    }
  }

  /** The urns after the first `i` letters: those begun, and the empty ones still to come. */
  ghost predicate UrnsAfter(word: Word, i: nat, k: nat, urns: seq<int>, current: int) {
    && i <= |word| && current == Ones(word[..i]) <= k - 1 && |urns| == k
    && urns == Bins(word[..i]) + seq(k - 1 - current, i => 0)
  }

  lemma UrnsBegin(word: Word, k: nat)
    requires k >= 1
    ensures UrnsAfter(word, 0, k, seq(k, i => 0), 0)
  {
    assert word[..0] == [];
    assert seq(k, i => 0) == [0] + seq(k - 1, i => 0);
  }

  lemma UrnsStep(word: Word, i: nat, k: nat, urns: seq<int>, current: int)
    requires i < |word| && Ones(word) == k - 1 && UrnsAfter(word, i, k, urns, current)
    ensures word[i] == 1 ==> UrnsAfter(word, i + 1, k, urns, current + 1)
    ensures word[i] == 0 ==> UrnsAfter(word, i + 1, k, urns[current := urns[current] + 1], current)
  {
    PrefixOnes(word, i);
    BinsSnoc(word[..i], word[i]);
    UrnsGrow(Bins(word[..i]), word[i], k, current, urns);
  }

  lemma UrnsEnd(word: Word, k: nat, urns: seq<int>, current: int)
    requires Ones(word) == k - 1 && UrnsAfter(word, |word|, k, urns, current)
    ensures urns == Bins(word)
  {
    assert word[..|word|] == word;
  }

  lemma PrefixOnes(word: Word, i: nat)
    requires i < |word|
    ensures word[..i + 1] == word[..i] + [word[i]]
    ensures Ones(word[..i + 1]) == Ones(word[..i]) + word[i] <= Ones(word)
  {
    SplitAt(word, i);
    OnesAppend(word[..i], [word[i]]);
    OnesAppend(word[..i + 1], word[i + 1..]);
    assert word == word[..i + 1] + word[i + 1..];
  }

  lemma UrnsGrow(bins: seq<int>, b: Bit, k: nat, ones: nat, urns: seq<int>)
    requires ones + b <= k - 1 && |bins| == ones + 1 && urns == bins + seq(k - 1 - ones, i => 0)
    ensures AddLetter(bins, b) + seq(k - 1 - ones - b, i => 0)
         == if b == 1 then urns else urns[ones := urns[ones] + 1]
  {
  }

  class Iterator {
    const k: int
    const sequence: array<Bit>
    var urns: seq<int>
    var isEnd: bool

    ghost predicate Valid()
      reads this, sequence
    {
      !isEnd ==> k >= 1 && Ones(sequence[..]) == k - 1 && urns == Bins(sequence[..])
    }

    /** Zeros first, then the bars; nothing at all for no bins. */
    constructor (n: nat, k: int)
      ensures Valid() && fresh(sequence) && this.k == k && isEnd == (k <= 0)
      ensures k >= 1 ==> sequence.Length == n + k - 1 && Rank(sequence[..]) == Choose(n + k - 1, k - 1) - 1
    {
      this.k := k;
      isEnd := k <= 0;
      sequence := new Bit[if k <= 0 then 0 else n + k - 1](i => if i < n then 0 else 1);
      urns := [];
      new;
      if k >= 1 {
        assert sequence[..] == Repeat(0, n) + Repeat(1, k - 1);
        OnesAppend(Repeat(0, n), Repeat(1, k - 1));
        OnesRepeat(0, n);
        OnesRepeat(1, k - 1);
        RankOfLast(n, k - 1);
        UpdateUrns();
      }
    }

    /** Counts the elements between the bars. */
    method UpdateUrns()
      requires k >= 1 && Ones(sequence[..]) == k - 1
      modifies this`urns
      ensures urns == Bins(sequence[..])
    {
      urns := seq(k, i => 0);
      var current := 0;
      ghost var word := sequence[..];
      UrnsBegin(word, k);
      for i := 0 to sequence.Length
        invariant UrnsAfter(word, i, k, urns, current)
      {
        UrnsStep(word, i, k, urns, current);
        if sequence[i] == 1 {
          current := current + 1;
        } else {
          urns := urns[current := urns[current] + 1];
        }
      }
      UrnsEnd(word, k, urns, current);
    }

    /** On to the next placement: the one ranked just below; past rank 0 the end. */
    method Increment()
      requires Valid()
      modifies this`urns, this`isEnd, sequence
      ensures Valid()
      ensures old(isEnd) ==> isEnd && urns == old(urns) && sequence[..] == old(sequence[..])
      ensures !old(isEnd) ==> (isEnd <==> old(Rank(sequence[..])) == 0)
      ensures !isEnd ==> Rank(sequence[..]) == old(Rank(sequence[..])) - 1
    {
      if isEnd {
        return;
      }
      var more := NextPermutation(sequence);
      if more {
        UpdateUrns();
      } else {
        isEnd := true;
      }
    }
  }

  lemma UrnsAreUnranked(w: Word, n: nat, k: nat, rank: nat)
    requires k >= 1 && |w| == n + k - 1 && Ones(w) == k - 1 && Rank(w) == rank
    ensures rank < Choose(n + k - 1, k - 1) && Unranked(n, k, rank) == Bins(w)
  {
    RankInRange(w);
    UnrankOfRank(w);
  }

  /** The placements of the highest ranks, highest first. */
  ghost predicate FromTheTop(items: seq<seq<int>>, n: nat, k: nat, size: nat)
    requires k >= 1 && size == Choose(n + k - 1, k - 1)
  {
    |items| <= size && forall r :: 0 <= r < |items| ==> items[r] == Unranked(n, k, size - 1 - r)
  }

  lemma NextFromTheTop(items: seq<seq<int>>, urns: seq<int>, n: nat, k: nat, size: nat)
    requires k >= 1 && size == Choose(n + k - 1, k - 1) && FromTheTop(items, n, k, size)
    requires |items| < size && urns == Unranked(n, k, size - 1 - |items|)
    ensures FromTheTop(items + [urns], n, k, size)
  {
  }

  /**
   A walk over the whole range visits every placement once: as many as there are, and the
   r-th is the one unranking gives for the r-th rank from the top.
   */
  method Enumerate(n: nat, k: nat) returns (items: seq<seq<int>>)
    requires k >= 1
    ensures |items| == Choose(n + k - 1, k - 1)
    ensures forall r :: 0 <= r < |items| ==> items[r] == Unranked(n, k, |items| - 1 - r)
  {
    var it := new Iterator(n, k);
    items := [];
    ChoosePositive(n + k - 1, k - 1);
    ghost var size := Choose(n + k - 1, k - 1);
    while !it.isEnd
      invariant it.Valid() && it.k == k && it.sequence.Length == n + k - 1 && fresh(it) && fresh(it.sequence)
      invariant !it.isEnd ==> |items| + Rank(it.sequence[..]) == size - 1
      invariant it.isEnd ==> |items| == size
      invariant FromTheTop(items, n, k, size)
      decreases !it.isEnd, size - |items|
    {
      UrnsAreUnranked(it.sequence[..], n, k, size - 1 - |items|);
      NextFromTheTop(items, it.urns, n, k, size);
      items := items + [it.urns];
      it.Increment();
    }
  }
}
