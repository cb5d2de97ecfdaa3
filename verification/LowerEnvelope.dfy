/**
 The scan that builds the lower envelope of a family of curves of which each two cross
 once. `h(p, x)` is the height of curve p at x; `cross(p, q)` is where p and q meet.
 */
module LowerEnvelope {

  const INF: real := 1000000000000.0

  type Heights = (nat, real) -> real
  type Crossings = (nat, nat) -> real

  /** The stack of curves: `v[0..k]` from left to right, `z[i]` where `v[i]` takes over. */
  datatype Envelope = Envelope(k: nat, v: seq<nat>, z: seq<real>)

  /** How far the stack is popped before `q` goes on it. */
  function Pop(cross: Crossings, v: seq<nat>, z: seq<real>, k: nat, q: nat): (r: nat)
    requires k < |v| && k < |z|
    ensures r <= k
  {
    if k > 0 && cross(v[k], q) <= z[k] then Pop(cross, v, z, k - 1, q) else k
  }

  function Push(cross: Crossings, e: Envelope, q: nat): (r: Envelope)
    requires e.k + 1 < |e.v| && e.k + 2 < |e.z|
    ensures |r.v| == |e.v| && |r.z| == |e.z| && r.k <= e.k + 1
  {
    var kept := Pop(cross, e.v, e.z, e.k, q);
    var s := cross(e.v[kept], q);
    var next := kept + 1;
    Envelope(next, e.v[next := q], e.z[next := s][next + 1 := INF])
  }

  function Initial(n: nat): (e: Envelope)
    requires n >= 1
    ensures |e.v| == n && |e.z| == n + 1 && e.k == 0
  {
    Envelope(0, seq(n, i => 0), seq(n + 1, i => INF)[0 := -INF])
  }

  /** The envelope after curves 0 to `q`. */
  function Scan(cross: Crossings, n: nat, q: nat): (e: Envelope)
    requires q < n
    ensures |e.v| == n && |e.z| == n + 1 && e.k <= q
  {
    if q == 0 then Initial(n) else Push(cross, Scan(cross, n, q - 1), q)
  }

  /** Entries past the stack are stale, and are set to infinity before the queries. */
  function Masked(e: Envelope): (z: seq<real>)
    ensures |z| == |e.z|
  {
    seq(|e.z|, i requires 0 <= i < |e.z| => if i > e.k + 1 then INF else e.z[i])
  }

  /** Binary search for the number of entries not above `x`. */
  function SearchRight(z: seq<real>, x: real, lo: nat, hi: nat): (r: nat)
    requires lo <= hi <= |z|
    ensures lo <= r <= hi
    decreases hi - lo
  {
    if lo == hi then lo
    else
      var mid := (lo + hi) / 2;
      if z[mid] <= x then SearchRight(z, x, mid + 1, hi) else SearchRight(z, x, lo, mid)
  }

  /** The curve in charge at `x`. */
  function Lowest(e: Envelope, x: real): (i: int)
    ensures -1 <= i < |e.z|
  {
    SearchRight(Masked(e), x, 0, |e.z|) - 1
  }

  function LowestCurve(cross: Crossings, n: nat, x: real): nat
    requires n >= 1
  {
    var e := Scan(cross, n, n - 1);
    var i := Lowest(e, x);
    if 0 <= i < |e.v| then e.v[i] else 0
  }

  // ---------------------------------------------------------------- assumptions

  ghost predicate Cross(h: Heights, cross: Crossings, p: nat, q: nat) {
    && -INF < cross(p, q) < INF
    && (forall x :: h(p, x) <= h(q, x) <==> x <= cross(p, q))
    && (forall x :: h(q, x) <= h(p, x) <==> cross(p, q) <= x)
  }

  /** Each two curves cross once, the earlier one being the lower to the left. */
  ghost predicate CrossOnce(h: Heights, cross: Crossings, n: nat) {
    forall p, q :: 0 <= p < q < n ==> Cross(h, cross, p, q)
  }

  // ------------------------------------------------------------------ invariant

  ghost predicate Under(h: Heights, v: seq<nat>, k: nat, p: nat, x: real)
    requires k < |v|
  {
    exists i :: 0 <= i <= k && h(v[i], x) <= h(p, x)
  }

  /** The stack is ordered, meets at its `z` entries, which increase, and is the lower envelope. */
  ghost predicate Ordered(cross: Crossings, v: seq<nat>, z: seq<real>, k: nat) {
    && k < |v| && k + 1 < |z|
    && v[0] == 0 && z[0] == -INF
    && (forall i, j :: 0 <= i < j <= k ==> v[i] < v[j])
    && (forall i :: 1 <= i <= k ==> z[i] == cross(v[i - 1], v[i]))
    && (forall i, j :: 1 <= i < j <= k ==> z[i] < z[j])
  }

  ghost predicate IsEnvelope(h: Heights, cross: Crossings, e: Envelope, n: nat, q: nat) {
    && |e.v| == n && |e.z| == n + 1 && e.k <= q < n
    && Ordered(cross, e.v, e.z, e.k)
    && e.v[e.k] == q
    && (forall p, x :: 0 <= p <= q ==> Under(h, e.v, e.k, p, x))
  }

  /** During the pops: what the kept stack does not cover, the new curve does. */
  ghost predicate UnderOr(h: Heights, v: seq<nat>, k: nat, q: nat)
    requires k < |v|
  {
    forall p, x :: 0 <= p < q ==> Under(h, v, k, p, x) || h(q, x) <= h(p, x)
  }

  /** A popped curve is nowhere needed: left of its start the one below is lower, right of it the new one. */
  lemma PopKeepsUnder(h: Heights, cross: Crossings, v: seq<nat>, z: seq<real>, k: nat, q: nat, n: nat)
    requires CrossOnce(h, cross, n) && q < n && Ordered(cross, v, z, k)
    requires k > 0 && v[k] < q && cross(v[k], q) <= z[k]
    requires UnderOr(h, v, k, q)
    ensures UnderOr(h, v, k - 1, q)
  {
    forall p, x | 0 <= p < q
      ensures Under(h, v, k - 1, p, x) || h(q, x) <= h(p, x)
    {
      if Under(h, v, k, p, x) {
        var i :| 0 <= i <= k && h(v[i], x) <= h(p, x);
        if i == k {
          assert v[k - 1] < v[k];
          assert Cross(h, cross, v[k - 1], v[k]) && Cross(h, cross, v[k], q);
          if x <= z[k] {
            assert h(v[k - 1], x) <= h(v[k], x);
          } else {
            assert h(q, x) <= h(v[k], x);
          }
        }
      }
    }
  }

  lemma {:induction false} PopIsSound(h: Heights, cross: Crossings, v: seq<nat>, z: seq<real>, k: nat, q: nat, n: nat)
    requires CrossOnce(h, cross, n) && q < n && Ordered(cross, v, z, k) && v[k] < q
    requires UnderOr(h, v, k, q)
    ensures var r := Pop(cross, v, z, k, q);
      && Ordered(cross, v, z, r) && v[r] < q && UnderOr(h, v, r, q)
      && (r > 0 ==> cross(v[r], q) > z[r])
  {
    if k > 0 && cross(v[k], q) <= z[k] {
      PopKeepsUnder(h, cross, v, z, k, q, n);
      assert v[k - 1] < v[k];
      PopIsSound(h, cross, v, z, k - 1, q, n);
    }
  }

  lemma PushKeepsOrder(cross: Crossings, v: seq<nat>, z: seq<real>, kept: nat, q: nat)
    requires Ordered(cross, v, z, kept) && kept + 2 < |z| && kept + 1 < |v| && v[kept] < q
    requires kept > 0 ==> cross(v[kept], q) > z[kept]
    ensures Ordered(cross, v[kept + 1 := q], z[kept + 1 := cross(v[kept], q)][kept + 2 := INF], kept + 1)
  {
  }

  lemma PushCovers(h: Heights, v: seq<nat>, kept: nat, q: nat, p: nat, x: real)
    requires kept + 1 < |v| && (p == q || Under(h, v, kept, p, x) || h(q, x) <= h(p, x))
    ensures Under(h, v[kept + 1 := q], kept + 1, p, x)
  {
    var r := v[kept + 1 := q];
    if p != q && Under(h, v, kept, p, x) {
      var i :| 0 <= i <= kept && h(v[i], x) <= h(p, x);
      assert r[i] == v[i];
    } else {
      assert h(r[kept + 1], x) <= h(p, x);
    }
  }

  lemma PushUnder(h: Heights, v: seq<nat>, kept: nat, q: nat, r: seq<nat>, k: nat)
    requires kept + 1 < |v| && UnderOr(h, v, kept, q) && k == kept + 1 && r == v[k := q]
    ensures forall p, x :: 0 <= p <= q ==> Under(h, r, k, p, x)
  {
    forall p: nat, x: real | p <= q
      ensures Under(h, r, k, p, x)
    {
      PushCovers(h, v, kept, q, p, x);
    }
  }

  lemma EnvelopeParts(h: Heights, cross: Crossings, e: Envelope, n: nat, q: nat)
    requires IsEnvelope(h, cross, e, n, q)
    ensures |e.v| == n && |e.z| == n + 1 && e.k <= q && Ordered(cross, e.v, e.z, e.k) && e.v[e.k] == q
    ensures UnderOr(h, e.v, e.k, q + 1)
  {
  }

  lemma EnvelopeFromParts(h: Heights, cross: Crossings, r: Envelope, n: nat, q: nat)
    requires |r.v| == n && |r.z| == n + 1 && r.k <= q < n && Ordered(cross, r.v, r.z, r.k) && r.v[r.k] == q
    requires forall p, x :: 0 <= p <= q ==> Under(h, r.v, r.k, p, x)
    ensures IsEnvelope(h, cross, r, n, q)
  {
  }

  lemma PushKeepsEnvelope(h: Heights, cross: Crossings, e: Envelope, n: nat, q: nat)
    requires CrossOnce(h, cross, n) && q + 1 < n && IsEnvelope(h, cross, e, n, q)
    ensures IsEnvelope(h, cross, Push(cross, e, q + 1), n, q + 1)
  {
    EnvelopeParts(h, cross, e, n, q);
    PushOnParts(h, cross, e, n, q);
  }

  /** After the pops: an ordered stack up to `kept` that, with the new curve, covers all before it. */
  ghost predicate Ready(h: Heights, cross: Crossings, e: Envelope, q: nat, kept: nat) {
    && kept <= e.k && Ordered(cross, e.v, e.z, kept) && e.v[kept] < q && UnderOr(h, e.v, kept, q)
    && (kept > 0 ==> cross(e.v[kept], q) > e.z[kept])
  }

  lemma PopMakesReady(h: Heights, cross: Crossings, e: Envelope, n: nat, q: nat)
    requires CrossOnce(h, cross, n) && q < n && Ordered(cross, e.v, e.z, e.k) && e.v[e.k] < q && UnderOr(h, e.v, e.k, q)
    ensures Ready(h, cross, e, q, Pop(cross, e.v, e.z, e.k, q))
  {
    PopIsSound(h, cross, e.v, e.z, e.k, q, n);
  }

  lemma PushOnParts(h: Heights, cross: Crossings, e: Envelope, n: nat, q: nat)
    requires CrossOnce(h, cross, n) && q + 1 < n
    requires |e.v| == n && |e.z| == n + 1 && e.k <= q && Ordered(cross, e.v, e.z, e.k) && e.v[e.k] == q
    requires UnderOr(h, e.v, e.k, q + 1)
    ensures IsEnvelope(h, cross, Push(cross, e, q + 1), n, q + 1)
  {
    PopMakesReady(h, cross, e, n, q + 1);
    PushOnReady(h, cross, e, n, q + 1, Pop(cross, e.v, e.z, e.k, q + 1));
  }

  lemma PushOnReady(h: Heights, cross: Crossings, e: Envelope, n: nat, q: nat, kept: nat)
    requires q < n && |e.v| == n && |e.z| == n + 1 && e.k < q && kept == Pop(cross, e.v, e.z, e.k, q)
    requires Ready(h, cross, e, q, kept)
    ensures IsEnvelope(h, cross, Push(cross, e, q), n, q)
  {
    var r := Push(cross, e, q);
    PushKeepsOrder(cross, e.v, e.z, kept, q);
    PushUnder(h, e.v, kept, q, r.v, r.k);
    EnvelopeFromParts(h, cross, r, n, q);
  }

  lemma InitialIsEnvelope(h: Heights, cross: Crossings, n: nat)
    requires n >= 1
    ensures IsEnvelope(h, cross, Initial(n), n, 0)
  {
    var e := Initial(n);
    forall p: nat, x: real | p <= 0
      ensures Under(h, e.v, e.k, p, x)
    {
      assert h(e.v[0], x) <= h(p, x);
    }
  }

  /** The envelope after curves 0 to `q`, with infinity past its last boundary. */
  ghost predicate ScanDone(h: Heights, cross: Crossings, e: Envelope, n: nat, q: nat) {
    q < n && e == Scan(cross, n, q) && IsEnvelope(h, cross, e, n, q) && e.z[e.k + 1] == INF
  }

  lemma ScanStep(h: Heights, cross: Crossings, e: Envelope, n: nat, q: nat)
    requires CrossOnce(h, cross, n) && q + 1 < n && ScanDone(h, cross, e, n, q)
    ensures ScanDone(h, cross, Push(cross, e, q + 1), n, q + 1)
  {
    PushKeepsEnvelope(h, cross, e, n, q);
  }

  /** After every step of the scan the stack is the lower envelope of the curves so far. */
  lemma ScanIsEnvelope(h: Heights, cross: Crossings, n: nat, q: nat) returns (e: Envelope)
    requires CrossOnce(h, cross, n) && q < n
    ensures e == Scan(cross, n, q) && IsEnvelope(h, cross, e, n, q) && e.z[e.k + 1] == INF
  {
    e := Initial(n);
    InitialIsEnvelope(h, cross, n);
    for i := 0 to q
      invariant ScanDone(h, cross, e, n, i)
    {
      ScanStep(h, cross, e, n, i);
      e := Push(cross, e, i + 1);
    }
  }

  // -------------------------------------------------------------------- queries

  ghost predicate Sorted(z: seq<real>) {
    forall i, j :: 0 <= i <= j < |z| ==> z[i] <= z[j]
  }

  lemma {:induction false} SearchRightFinds(z: seq<real>, x: real, lo: nat, hi: nat)
    requires Sorted(z) && lo <= hi <= |z|
    requires forall i :: 0 <= i < lo ==> z[i] <= x
    requires forall i :: hi <= i < |z| ==> x < z[i]
    ensures var r := SearchRight(z, x, lo, hi);
      (forall i :: 0 <= i < r ==> z[i] <= x) && (forall i :: r <= i < |z| ==> x < z[i])
    decreases hi - lo
  {
    if lo < hi {
      var mid := (lo + hi) / 2;
      if z[mid] <= x {
        SearchRightFinds(z, x, mid + 1, hi);
      } else {
        SearchRightFinds(z, x, lo, mid);
      }
    }
  }

  lemma MaskedSorted(h: Heights, cross: Crossings, e: Envelope, n: nat, q: nat)
    requires CrossOnce(h, cross, n) && IsEnvelope(h, cross, e, n, q) && e.z[e.k + 1] == INF
    ensures Sorted(Masked(e))
    ensures forall i :: 1 <= i <= e.k ==> -INF < Masked(e)[i] < INF
  {
    var z := Masked(e);
    forall i | 1 <= i <= e.k
      ensures -INF < z[i] < INF
    {
      assert e.v[i - 1] < e.v[i] <= e.v[e.k];
      assert Cross(h, cross, e.v[i - 1], e.v[i]);
    }
  }

  /** Walking down the stack from the curve in charge, heights at `x` only rise. */
  lemma {:induction false} LowerToTheLeft(h: Heights, cross: Crossings, e: Envelope, n: nat, q: nat, x: real, i: nat, j: nat)
    requires CrossOnce(h, cross, n) && IsEnvelope(h, cross, e, n, q)
    requires j <= i <= e.k && forall m :: 1 <= m <= i ==> e.z[m] <= x
    ensures h(e.v[i], x) <= h(e.v[j], x)
    decreases i
  {
    if j < i {
      LowerToTheLeft(h, cross, e, n, q, x, i - 1, j);
      assert e.v[i - 1] < e.v[i] <= e.v[e.k];
      assert Cross(h, cross, e.v[i - 1], e.v[i]);
    }
  }

  lemma {:induction false} LowerToTheRight(h: Heights, cross: Crossings, e: Envelope, n: nat, q: nat, x: real, i: nat, j: nat)
    requires CrossOnce(h, cross, n) && IsEnvelope(h, cross, e, n, q)
    requires i <= j <= e.k && forall m :: i < m <= e.k ==> x < e.z[m]
    ensures h(e.v[i], x) <= h(e.v[j], x)
    decreases j
  {
    if i < j {
      LowerToTheRight(h, cross, e, n, q, x, i, j - 1);
      assert e.v[j - 1] < e.v[j] <= e.v[e.k];
      assert Cross(h, cross, e.v[j - 1], e.v[j]);
    }
  }

  /** The search finds the curve whose stretch holds `x`. */
  lemma LowestInCharge(h: Heights, cross: Crossings, e: Envelope, n: nat, q: nat, x: real)
    requires CrossOnce(h, cross, n) && IsEnvelope(h, cross, e, n, q) && e.z[e.k + 1] == INF && -INF <= x < INF
    ensures var i := Lowest(e, x);
      && 0 <= i <= e.k
      && (forall m :: 1 <= m <= i ==> e.z[m] <= x)
      && (forall m :: i < m <= e.k ==> x < e.z[m])
  {
    MaskedSorted(h, cross, e, n, q);
    var z := Masked(e);
    SearchRightFinds(z, x, 0, |z|);
    assert z[0] == -INF && z[e.k + 1] == INF;
    assert forall m :: 1 <= m <= e.k ==> z[m] == e.z[m];
  }

  lemma InChargeIsLowest(h: Heights, cross: Crossings, e: Envelope, n: nat, q: nat, x: real, i: nat, p: nat)
    requires CrossOnce(h, cross, n) && IsEnvelope(h, cross, e, n, q) && i <= e.k && p <= q
    requires forall m :: 1 <= m <= i ==> e.z[m] <= x
    requires forall m :: i < m <= e.k ==> x < e.z[m]
    ensures e.v[i] < n && h(e.v[i], x) <= h(p, x)
  {
    assert Under(h, e.v, e.k, p, x);
    var j: nat :| 0 <= j <= e.k && h(e.v[j], x) <= h(p, x);
    assert e.v[i] <= e.v[e.k];
    if j <= i {
      LowerToTheLeft(h, cross, e, n, q, x, i, j);
    } else {
      LowerToTheRight(h, cross, e, n, q, x, i, j);
    }
  }

  lemma LowestOnEnvelope(h: Heights, cross: Crossings, e: Envelope, n: nat, x: real, p: nat)
    requires n >= 1 && CrossOnce(h, cross, n) && IsEnvelope(h, cross, e, n, n - 1) && e.z[e.k + 1] == INF
    requires p < n && -INF <= x < INF
    ensures 0 <= Lowest(e, x) < n && e.v[Lowest(e, x)] < n && h(e.v[Lowest(e, x)], x) <= h(p, x)
  {
    LowestInCharge(h, cross, e, n, n - 1, x);
    InChargeIsLowest(h, cross, e, n, n - 1, x, Lowest(e, x), p);
  }

  /** At every x in range the curve found is the lowest of all `n`. */
  lemma LowestIsLowest(h: Heights, cross: Crossings, n: nat, x: real, p: nat)
    requires CrossOnce(h, cross, n) && p < n && -INF <= x < INF
    ensures LowestCurve(cross, n, x) < n && h(LowestCurve(cross, n, x), x) <= h(p, x)
  {
    var e := ScanIsEnvelope(h, cross, n, n - 1);
    LowestOnEnvelope(h, cross, e, n, x, p);
  }
}
