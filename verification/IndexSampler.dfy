/**
 Drawing indices without replacement: a Fisher-Yates shuffle that stores only the slots it
 has touched, and the set of all placements drawn through it.
 */
module IndexSampler {
  import opened Binomial
  import opened Placements
  import opened Options

  const WORD64: nat := 0x1_0000_0000_0000_0000

  /** The numbers below |d|, once each, in some order. */
  ghost predicate IsPermutation(d: seq<nat>) {
    (forall i :: 0 <= i < |d| ==> d[i] < |d|) && (forall i, j :: 0 <= i < j < |d| ==> d[i] != d[j])
  }

  function Swap(d: seq<nat>, i: nat, j: nat): (r: seq<nat>)
    requires i < |d| && j < |d|
    ensures |r| == |d|
  {
    d[i := d[j]][j := d[i]]
  }

  lemma SwapKeepsPermutation(d: seq<nat>, i: nat, j: nat)
    requires IsPermutation(d) && i < |d| && j < |d|
    ensures IsPermutation(Swap(d, i, j))
  {
  }

  function Upto(n: nat): (s: set<nat>)
    ensures forall v: nat :: v in s <==> v < n
  {
    if n == 0 then {} else Upto(n - 1) + {n - 1}
  }

  lemma {:induction false} UptoCount(n: nat)
    ensures |Upto(n)| == n
  {
    if n > 0 {
      UptoCount(n - 1);
    }
  }

  function Elements(d: seq<nat>): (s: set<nat>)
    ensures forall v :: v in s <==> v in d
  {
    set v | v in d
  }

  lemma {:induction false} DistinctCount(d: seq<nat>)
    requires forall i, j :: 0 <= i < j < |d| ==> d[i] != d[j]
    ensures |Elements(d)| == |d|
  {
    if d != [] {
      var last := |d| - 1;
      DistinctCount(d[..last]);
      assert Elements(d) == Elements(d[..last]) + {d[last]};
    }
  }

  lemma SubsetOfSameSize(a: set<nat>, b: set<nat>)
    requires a <= b && |a| == |b|
    ensures a == b
  {
    assert b == a + (b - a);
  }

  /** A permutation hits every number below its length. */
  lemma PermutationHitsAll(d: seq<nat>, v: nat)
    requires IsPermutation(d) && v < |d|
    ensures v in d
  {
    DistinctCount(d);
    UptoCount(|d|);
    SubsetOfSameSize(Elements(d), Upto(|d|));
    assert v in Elements(d);
  }

  /** The draws so far, and the sparse map of the slots that were swapped. */
  class IndexActionSampler {
    const spaceSize: nat
    var numDrawn: nat
    var swapped: map<nat, nat>
    /** The array a dense shuffle would hold: drawn values first, the remaining ones after. */
    ghost var dense: seq<nat>

    function At(index: nat): nat
      reads this
    {
      if index in swapped then swapped[index] else index
    }

    ghost predicate Valid()
      reads this
    {
      && numDrawn <= spaceSize < WORD64
      && |dense| == spaceSize && IsPermutation(dense)
      && forall i: nat :: numDrawn <= i < spaceSize ==> At(i) == dense[i]
    }

    constructor (spaceSize: nat)
      requires spaceSize < WORD64
      ensures Valid() && this.spaceSize == spaceSize && numDrawn == 0
    {
      this.spaceSize := spaceSize;
      numDrawn := 0;
      swapped := map[];
      dense := seq(spaceSize, i => i);
    }

    /**
     One draw; `j` is the generator's pick, anything from `numDrawn` to the last index. It
     is the step of the dense shuffle, and nothing is left exactly after `spaceSize` draws.
     */
    method Next(j: nat) returns (value: Option<nat>)
      requires Valid()
      requires numDrawn < spaceSize ==> numDrawn <= j < spaceSize
      modifies this
      ensures Valid()
      ensures value.None? <==> old(numDrawn) == spaceSize
      ensures value.None? ==> numDrawn == old(numDrawn) && dense == old(dense)
      ensures value.Some? ==>
        && numDrawn == old(numDrawn) + 1
        && dense == Swap(old(dense), old(numDrawn), j)
        && value.value == dense[old(numDrawn)] == old(dense)[j]
        && dense[..old(numDrawn)] == old(dense[..numDrawn])
    {
      if numDrawn >= spaceSize {
        return None;
      }
      var drawn := At(j);
      SwapKeepsPermutation(dense, numDrawn, j);
      dense := Swap(dense, numDrawn, j);
      swapped := swapped[j := At(numDrawn)];
      numDrawn := numDrawn + 1;
      value := Some(drawn);
    }

    /** What was drawn and what remains share out the whole range, each value once. */
    lemma DrawnAndRemainingPartition(v: nat)
      requires Valid() && v < spaceSize
      ensures v in dense[..numDrawn] <==> !exists i: nat :: numDrawn <= i < spaceSize && At(i) == v
    {
      PermutationHitsAll(dense, v);
      var k :| 0 <= k < |dense| && dense[k] == v;
      if k < numDrawn {
        assert dense[..numDrawn][k] == v;
      } else {
        assert At(k) == v;
        forall i | 0 <= i < numDrawn ensures dense[..numDrawn][i] != v {
        }
      }
    }
  }

  /** All placements of `n` into `k`, handed out without replacement. */
  class RankedActionSet {
    const n: nat
    const k: nat
    const sampler: IndexActionSampler

    ghost predicate Valid()
      reads this, sampler
    {
      k >= 1 && sampler.Valid() && sampler.spaceSize == Choose(n + k - 1, k - 1)
    }

    /** The number of placements has to fit 64 bits. */
    constructor (n: nat, k: nat)
      requires k >= 1 && Choose(n + k - 1, k - 1) < WORD64
      ensures Valid() && fresh(sampler) && sampler.numDrawn == 0 && this.n == n && this.k == k
    {
      var size := Size(n, k);
      this.n, this.k := n, k;
      sampler := new IndexActionSampler(size);
    }

    method Next(j: nat) returns (placement: Option<seq<int>>)
      requires Valid()
      requires sampler.numDrawn < sampler.spaceSize ==> sampler.numDrawn <= j < sampler.spaceSize
      modifies sampler
      ensures Valid()
      ensures placement.None? <==> old(sampler.numDrawn) == sampler.spaceSize
      ensures placement.None? ==> sampler.numDrawn == old(sampler.numDrawn) && sampler.dense == old(sampler.dense)
      ensures placement.Some? ==>
        && sampler.numDrawn == old(sampler.numDrawn) + 1
        && sampler.dense[..old(sampler.numDrawn)] == old(sampler.dense[..sampler.numDrawn])
        && sampler.dense[old(sampler.numDrawn)] < Choose(n + k - 1, k - 1)
        && placement.value == Unranked(n, k, sampler.dense[old(sampler.numDrawn)])
    {
      var index := sampler.Next(j);
      if index.None? {
        return None;
      }
      var bins := Unrank(n, k, index.value);
      placement := Some(bins);
    }
  }

  /** What drawing in the order of a permutation of the ranks hands out. */
  ghost predicate HandsOut(n: nat, k: nat, dense: seq<nat>, items: seq<seq<int>>)
    requires k >= 1
  {
    && IsPermutation(dense) && |items| == |dense| == Choose(n + k - 1, k - 1)
    && forall i :: 0 <= i < |items| ==> items[i] == Unranked(n, k, dense[i])
  }

  /** Every placement is handed out, and none twice. */
  lemma EveryPlacementOnce(n: nat, k: nat, dense: seq<nat>, items: seq<seq<int>>, bins: seq<int>)
    requires k >= 1 && HandsOut(n, k, dense, items) && IsPlacement(bins, n, k)
    ensures exists i :: 0 <= i < |items| && items[i] == bins
    ensures forall i, j :: 0 <= i < j < |items| ==> items[i] != items[j]
    ensures forall i :: 0 <= i < |items| ==> IsPlacement(items[i], n, k)
  {
    EveryPlacementIsRanked(n, k, bins);
    PermutationHitsAll(dense, RankOf(bins));
    var i :| 0 <= i < |dense| && dense[i] == RankOf(bins);
    assert items[i] == bins;
    forall i | 0 <= i < |items|
      ensures IsPlacement(items[i], n, k) && RankOf(items[i]) == dense[i]
    {
      UnrankIsBijection(n, k, dense[i]);
    }
  }

  /** Drawing until nothing is left, whatever the generator picks: every placement, none twice. */
  method DrawAll(n: nat, k: nat, picks: (nat, nat) -> nat) returns (items: seq<seq<int>>)
    requires k >= 1 && Choose(n + k - 1, k - 1) < WORD64
    requires forall lo: nat, hi: nat :: lo < hi ==> lo <= picks(lo, hi) < hi
    ensures |items| == Choose(n + k - 1, k - 1)
    ensures forall bins :: bins in items <==> IsPlacement(bins, n, k)
    ensures forall i, j :: 0 <= i < j < |items| ==> items[i] != items[j]
  {
    var actions := new RankedActionSet(n, k);
    items := [];
    var more := true;
    while more
      invariant actions.Valid() && fresh(actions) && fresh(actions.sampler) && actions.n == n && actions.k == k
      invariant |items| == actions.sampler.numDrawn
      invariant !more ==> actions.sampler.numDrawn == actions.sampler.spaceSize
      invariant forall i :: 0 <= i < |items| ==> items[i] == Unranked(n, k, actions.sampler.dense[i])
      decreases more, actions.sampler.spaceSize - actions.sampler.numDrawn
    {
      ghost var before := actions.sampler.dense[..|items|];
      var item := actions.Next(picks(actions.sampler.numDrawn, actions.sampler.spaceSize));
      if item.None? {
        more := false;
      } else {
        assert forall i :: 0 <= i < |items| ==> actions.sampler.dense[i] == before[i];
        items := items + [item.value];
      }
    }
    AllHandedOut(n, k, actions.sampler.dense, items);
  }

  lemma AllHandedOut(n: nat, k: nat, dense: seq<nat>, items: seq<seq<int>>)
    requires k >= 1 && HandsOut(n, k, dense, items)
    ensures forall bins :: bins in items <==> IsPlacement(bins, n, k)
    ensures forall i, j :: 0 <= i < j < |items| ==> items[i] != items[j]
  {
    forall bins | IsPlacement(bins, n, k)
      ensures bins in items
    {
      EveryPlacementOnce(n, k, dense, items, bins);
    }
    forall i | 0 <= i < |items|
      ensures IsPlacement(items[i], n, k)
    {
      UnrankIsBijection(n, k, dense[i]);
    }
    if items != [] {
      EveryPlacementOnce(n, k, dense, items, items[0]);
    }
  }
}
