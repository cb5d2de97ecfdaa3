/**
 The squared Euclidean distance transform, in linear time per line: rows, then columns.
 It is proved to be the minimum over all cells, over the reals.
 */
module DistanceTransform {
  import opened LowerEnvelope

  ghost predicate InRange(f: seq<real>) {
    Square(|f| as real) < INF && forall p :: 0 <= p < |f| ==> 0.0 <= f[p] <= INF
  }

  function Square(x: real): real { x * x }

  /** The parabola of cell `p`: squared distance to it plus what it starts with. */
  function Height(f: seq<real>, p: nat, x: real): real {
    Square(x - p as real) + (if p < |f| then f[p] else 0.0)
  }

  /** Where the parabolas of `p1` and `p2` cross. */
  function Intersect(f: seq<real>, p1: nat, p2: nat): real {
    if p1 < |f| && p2 < |f| && p1 != p2 then
      ((f[p2] + Square(p2 as real)) - (f[p1] + Square(p1 as real))) / (2.0 * (p2 as real - p1 as real))
    else 0.0
  }

  /** The cell whose parabola is the one to use at cell `q`. */
  function Owner(f: seq<real>, q: nat): (p: nat)
    requires q < |f|
  {
    LowestCurve((p: nat, q: nat) => Intersect(f, p, q), |f|, q as real)
  }

  function Edt1d(f: seq<real>): (d: seq<real>)
    ensures |d| == |f| && forall q :: 0 <= q < |f| ==> d[q] == Height(f, Owner(f, q), q as real)
  {
    seq(|f|, q requires 0 <= q < |f| => Height(f, Owner(f, q), q as real))
  }

  // ------------------------------------------------------------------- crossings

  lemma QuotientCompare(num: real, den: real, x: real)
    requires den > 0.0
    ensures x <= num / den <==> x * den <= num
    ensures num / den <= x <==> num <= x * den
  {
    var q := num / den;
    assert q * den == num;
    if x <= q {
      assert (q - x) * den >= 0.0;
    } else {
      assert (x - q) * den > 0.0;
    }
    if q <= x {
      assert (x - q) * den >= 0.0;
    } else {
      assert (q - x) * den > 0.0;
    }
  }

  lemma ParabolaDifference(x: real, a: real, b: real)
    ensures Square(x - b) - Square(x - a) == (Square(b) - Square(a)) - x * (2.0 * (b - a))
  {
  }

  lemma CompareHeights(f: seq<real>, p: nat, q: nat, x: real)
    requires p < q < |f|
    ensures Height(f, p, x) <= Height(f, q, x) <==> x <= Intersect(f, p, q)
    ensures Height(f, q, x) <= Height(f, p, x) <==> Intersect(f, p, q) <= x
  {
    var num := (f[q] + Square(q as real)) - (f[p] + Square(p as real));
    var den := 2.0 * (q as real - p as real);
    QuotientCompare(num, den, x);
    ParabolaDifference(x, p as real, q as real);
  }

  lemma SquareBound(p: nat, n: nat)
    requires p < n
    ensures 0.0 <= Square(p as real) <= Square(n as real)
  {
    assert Square(n as real) - Square(p as real) == (n as real - p as real) * (n as real + p as real);
  }

  lemma IntersectBound(f: seq<real>, p: nat, q: nat)
    requires InRange(f) && p < q < |f|
    ensures -INF < Intersect(f, p, q) < INF
  {
    var num := (f[q] + Square(q as real)) - (f[p] + Square(p as real));
    var den := 2.0 * (q as real - p as real);
    SquareBound(p, |f|);
    SquareBound(q, |f|);
    assert den >= 2.0;
    assert -2.0 * INF < num < 2.0 * INF;
    ScaledBound(den, num);
    QuotientCompare(num, den, INF);
    QuotientCompare(num, den, -INF);
  }

  lemma ScaledBound(den: real, num: real)
    requires den >= 2.0 && -2.0 * INF < num < 2.0 * INF
    ensures num < INF * den && -INF * den < num
  {
  }

  lemma ParabolasCrossOnce(f: seq<real>)
    requires InRange(f)
    ensures CrossOnce((p: nat, x: real) => Height(f, p, x), (p: nat, q: nat) => Intersect(f, p, q), |f|)
  {
    var h: Heights := (p: nat, x: real) => Height(f, p, x);
    var cross: Crossings := (p: nat, q: nat) => Intersect(f, p, q);
    forall p: nat, q: nat | p < q < |f|
      ensures Cross(h, cross, p, q)
    {
      IntersectBound(f, p, q);
      forall x: real
        ensures h(p, x) <= h(q, x) <==> x <= cross(p, q)
        ensures h(q, x) <= h(p, x) <==> cross(p, q) <= x
      {
        CompareHeights(f, p, q, x);
      }
    }
  }

  // ------------------------------------------------------------------ one line

  /** `d` is the least height at `x` of the parabolas of `f`. */
  ghost predicate IsMin1d(f: seq<real>, x: real, d: real) {
    && (forall p :: 0 <= p < |f| ==> d <= Height(f, p, x))
    && (exists p :: 0 <= p < |f| && d == Height(f, p, x))
  }

  lemma CoordinateBelowInf(n: nat, q: nat)
    requires Square(n as real) < INF && q < n
    ensures -INF <= q as real < INF
  {
    if n as real >= INF {
      assert (n as real) * (n as real) >= INF * (n as real);
      assert INF * (n as real) >= INF;
    }
  }

  lemma OwnerIsLowest(f: seq<real>, q: nat, p: nat)
    requires InRange(f) && q < |f| && p < |f|
    ensures Owner(f, q) < |f| && Height(f, Owner(f, q), q as real) <= Height(f, p, q as real)
  {
    ParabolasCrossOnce(f);
    CoordinateBelowInf(|f|, q);
    var h: Heights := (p: nat, x: real) => Height(f, p, x);
    var cross: Crossings := (p: nat, q: nat) => Intersect(f, p, q);
    LowestIsLowest(h, cross, |f|, q as real, p);
    assert h(Owner(f, q), q as real) <= h(p, q as real);
  }

  /** The linear-time scan gives the brute-force minimum at every cell. */
  lemma Edt1dIsMin(f: seq<real>, q: nat)
    requires InRange(f) && q < |f|
    ensures IsMin1d(f, q as real, Edt1d(f)[q])
    ensures 0.0 <= Edt1d(f)[q] <= f[q]
  {
    var x := q as real;
    forall p: nat | p < |f|
      ensures Edt1d(f)[q] <= Height(f, p, x)
    {
      OwnerIsLowest(f, q, p);
    }
    OwnerIsLowest(f, q, q);
    HeightBounds(f, Owner(f, q), q);
  }

  lemma HeightBounds(f: seq<real>, p: nat, q: nat)
    requires InRange(f) && p < |f| && q < |f|
    ensures 0.0 <= Height(f, p, q as real) && Height(f, q, q as real) == f[q]
  {
    SquareNonNegative(q as real - p as real);
  }

  lemma SquareNonNegative(x: real)
    ensures Square(x) >= 0.0
  {
  }

  // --------------------------------------------------------------- two dimensions

  type Grid = seq<seq<real>>

  ghost predicate Rectangular(m: Grid, rows: nat, cols: nat) {
    |m| == rows && forall r :: 0 <= r < rows ==> |m[r]| == cols
  }

  function Rows(m: Grid): (d: Grid)
    ensures |d| == |m| && forall r :: 0 <= r < |m| ==> |d[r]| == |m[r]| && d[r] == Edt1d(m[r])
  {
    seq(|m|, r requires 0 <= r < |m| => Edt1d(m[r]))
  }

  function Transpose(m: Grid, cols: nat): (t: Grid)
    requires forall r :: 0 <= r < |m| ==> |m[r]| == cols
    ensures |t| == cols && forall c :: 0 <= c < cols ==> |t[c]| == |m|
    ensures forall r, c :: 0 <= r < |m| && 0 <= c < cols ==> t[c][r] == m[r][c]
  {
    seq(cols, c requires 0 <= c < cols => seq(|m|, r requires 0 <= r < |m| => m[r][c]))
  }

  /** Rows, then columns: everything but the final square root. */
  function Transform(m: Grid, cols: nat): (d: Grid)
    requires forall r :: 0 <= r < |m| ==> |m[r]| == cols
  {
    Transpose(Rows(Transpose(Rows(m), cols)), |m|)
  }

  function Apart(r: nat, c: nat, r': nat, c': nat): real {
    Square(r as real - r' as real) + Square(c as real - c' as real)
  }

  /** `d` is the least, over all cells, of squared distance plus starting value. */
  ghost predicate IsMin2d(m: Grid, rows: nat, cols: nat, r: nat, c: nat, d: real)
    requires Rectangular(m, rows, cols)
  {
    && (forall r', c' :: 0 <= r' < rows && 0 <= c' < cols ==> d <= Apart(r, c, r', c') + m[r'][c'])
    && (exists r', c' :: 0 <= r' < rows && 0 <= c' < cols && d == Apart(r, c, r', c') + m[r'][c'])
  }

  ghost predicate GridInRange(m: Grid, rows: nat, cols: nat) {
    && Rectangular(m, rows, cols)
    && Square(rows as real) < INF && Square(cols as real) < INF
    && forall r, c :: 0 <= r < rows && 0 <= c < cols ==> 0.0 <= m[r][c] <= INF
  }

  /** After the first pass, every row holds its own line's minima. */
  lemma RowsAreMin(m: Grid, rows: nat, cols: nat, r: nat, c: nat)
    requires GridInRange(m, rows, cols) && r < rows && c < cols
    ensures IsMin1d(m[r], c as real, Rows(m)[r][c]) && 0.0 <= Rows(m)[r][c] <= m[r][c] <= INF
  {
    Edt1dIsMin(m[r], c);
  }

  /** A column of row minima: its own minimum is that of the whole grid. */
  lemma ColumnOfMinima(m: Grid, rows: nat, cols: nat, g: Grid, f: seq<real>, r: nat, c: nat, d: real)
    requires Rectangular(m, rows, cols) && Rectangular(g, rows, cols) && r < rows && c < cols
    requires forall r' :: 0 <= r' < rows ==> IsMin1d(m[r'], c as real, g[r'][c])
    requires |f| == rows && forall r' :: 0 <= r' < rows ==> f[r'] == g[r'][c]
    requires IsMin1d(f, r as real, d)
    ensures IsMin2d(m, rows, cols, r, c, d)
  {
    forall r': nat, c': nat | r' < rows && c' < cols
      ensures d <= Apart(r, c, r', c') + m[r'][c']
    {
      assert IsMin1d(m[r'], c as real, g[r'][c]);
      assert d <= Height(f, r', r as real) == Square(r as real - r' as real) + g[r'][c];
      assert g[r'][c] <= Height(m[r'], c', c as real) == Square(c as real - c' as real) + m[r'][c'];
    }
    var r': nat :| 0 <= r' < |f| && d == Height(f, r', r as real);
    assert IsMin1d(m[r'], c as real, g[r'][c]);
    var c': nat :| 0 <= c' < |m[r']| && g[r'][c] == Height(m[r'], c', c as real);
    assert d == Apart(r, c, r', c') + m[r'][c'];
  }

  /** The two passes together give the brute-force minimum over the whole grid. */
  lemma TransformIsMin(m: Grid, rows: nat, cols: nat, r: nat, c: nat)
    requires GridInRange(m, rows, cols) && r < rows && c < cols
    ensures Rectangular(Transform(m, cols), rows, cols)
    ensures IsMin2d(m, rows, cols, r, c, Transform(m, cols)[r][c])
  {
    var g := Rows(m);
    var f := Transpose(g, cols)[c];
    forall r' | 0 <= r' < rows
      ensures IsMin1d(m[r'], c as real, g[r'][c]) && 0.0 <= f[r'] <= INF
    {
      RowsAreMin(m, rows, cols, r', c);
    }
    Edt1dIsMin(f, r);
    ColumnOfMinima(m, rows, cols, g, f, r, c, Edt1d(f)[r]);
  }

  // ---------------------------------------------------------------------- images

  function Seeds(image: seq<seq<bool>>): (m: Grid)
    ensures |m| == |image|
    ensures forall r :: 0 <= r < |image| ==> |m[r]| == |image[r]|
    ensures forall r, c :: 0 <= r < |image| && 0 <= c < |image[r]| ==> m[r][c] == if image[r][c] then 0.0 else INF
  {
    seq(|image|, r requires 0 <= r < |image| =>
      seq(|image[r]|, c requires 0 <= c < |image[r]| => if image[r][c] then 0.0 else INF))
  }

  ghost predicate NearestSeed(image: seq<seq<bool>>, r: nat, c: nat, d: real) {
    && (exists r', c' :: 0 <= r' < |image| && 0 <= c' < |image[r']| && image[r'][c'] && d == Apart(r, c, r', c'))
    && (forall r', c' :: 0 <= r' < |image| && 0 <= c' < |image[r']| && image[r'][c'] ==> d <= Apart(r, c, r', c'))
  }

  lemma ApartNonNegative(r: nat, c: nat, i: nat, j: nat)
    ensures 0.0 <= Apart(r, c, i, j) && Apart(r, c, r, c) == 0.0
  {
    SquareNonNegative(r as real - i as real);
    SquareNonNegative(c as real - j as real);
  }

  ghost predicate NoSeeds(image: seq<seq<bool>>) {
    forall i, j :: 0 <= i < |image| && 0 <= j < |image[i]| ==> !image[i][j]
  }

  /**
   On an image the squared result is the squared distance to the nearest seed exactly as
   long as that is at most infinity, which an image without any is set to everywhere.
   */
  lemma ImageDistance(image: seq<seq<bool>>, cols: nat, r: nat, c: nat, nearest: real)
    requires forall i :: 0 <= i < |image| ==> |image[i]| == cols
    requires GridInRange(Seeds(image), |image|, cols) && r < |image| && c < cols
    ensures Rectangular(Transform(Seeds(image), cols), |image|, cols)
    ensures NearestSeed(image, r, c, nearest) ==>
      Transform(Seeds(image), cols)[r][c] == if nearest <= INF then nearest else INF
    ensures NoSeeds(image) ==> Transform(Seeds(image), cols)[r][c] == INF
  {
    TransformIsMin(Seeds(image), |image|, cols, r, c);
    MinOfSeeds(image, cols, r, c, nearest, Transform(Seeds(image), cols)[r][c]);
  }

  lemma MinOfSeeds(image: seq<seq<bool>>, cols: nat, r: nat, c: nat, nearest: real, d: real)
    requires Rectangular(Seeds(image), |image|, cols) && r < |image| && c < cols
    requires IsMin2d(Seeds(image), |image|, cols, r, c, d)
    ensures NearestSeed(image, r, c, nearest) ==> d == if nearest <= INF then nearest else INF
    ensures NoSeeds(image) ==> d == INF
  {
    var m := Seeds(image);
    var r': nat, c': nat :| r' < |image| && c' < cols && d == Apart(r, c, r', c') + m[r'][c'];
    ApartNonNegative(r, c, r', c');
    ApartNonNegative(r, c, r, c);
    assert d <= Apart(r, c, r, c) + m[r][c];
    if NearestSeed(image, r, c, nearest) {
      var i: nat, j: nat :| i < |image| && j < |image[i]| && image[i][j] && nearest == Apart(r, c, i, j);
      assert |m[i]| == cols;
      assert d <= Apart(r, c, i, j) + m[i][j];
      assert |m[r']| == cols;
    }
  }

  /** An image of `n` by `n` with one seed, in its first corner. */
  function CornerSeed(n: nat): (image: seq<seq<bool>>)
    ensures |image| == n && forall r :: 0 <= r < n ==> |image[r]| == n
    ensures forall r, c :: 0 <= r < n && 0 <= c < n ==> image[r][c] == (r == 0 && c == 0)
  {
    seq(n, r => seq(n, c => r == 0 && c == 0))
  }

  lemma CornerIsNearest(n: nat, far: nat)
    requires far < n
    ensures NearestSeed(CornerSeed(n), far, far, Apart(far, far, 0, 0))
  {
    assert CornerSeed(n)[0][0];
  }

  lemma FarCorner(n: nat, far: nat, size: real, nearest: real)
    requires far < n && size == n as real && Square(size) < INF < nearest && nearest == Apart(far, far, 0, 0)
    ensures Rectangular(Transform(Seeds(CornerSeed(n)), n), n, n)
    ensures Transform(Seeds(CornerSeed(n)), n)[far][far] == INF
  {
    CornerIsNearest(n, far);
    ImageDistance(CornerSeed(n), n, far, far, nearest);
  }

  lemma FarApart(far: nat)
    requires far == 800000
    ensures Apart(far, far, 0, 0) == 1280000000000.0
  {
  }

  /** A seed 800000 rows and columns away is out of reach: the far corner is told it is infinitely far. */
  lemma FarSeedIsCutOff(n: nat, far: nat)
    requires n == 800001 && far == 800000
    ensures NearestSeed(CornerSeed(n), far, far, Apart(far, far, 0, 0)) && INF < Apart(far, far, 0, 0)
    ensures Rectangular(Transform(Seeds(CornerSeed(n)), n), n, n)
    ensures Transform(Seeds(CornerSeed(n)), n)[far][far] == INF
  {
    FarApart(far);
    CornerIsNearest(n, far);
    FarCorner(n, far, 800001.0, 1280000000000.0);
  }
}
