/**
 Gauss-Jordan elimination with partial pivoting, over exact reals, and the perspective
 transform that is solved with it.
 */
module LinearSolve {
  import opened Options

  type Row = seq<real>

  /** The first `k` products of two rows, added up. */
  function Dot(row: Row, z: Row, k: nat): real
    requires k <= |row| && k <= |z|
  {
    if k == 0 then 0.0 else Dot(row, z, k - 1) + row[k - 1] * z[k - 1]
  }

  /** `rows` many rows, `columns` long. */
  predicate Sized(m: seq<Row>, rows: nat, columns: nat) {
    |m| == rows && forall i :: 0 <= i < rows ==> |m[i]| == columns
  }

  /** `x` solves a x = b. */
  predicate Solves(a: seq<Row>, b: Row, x: Row)
    requires Sized(a, |b|, |b|) && |x| == |b|
  {
    forall i :: 0 <= i < |b| ==> Dot(a[i], x, |b|) == b[i]
  }

  predicate AllZero(y: Row) {
    forall i :: 0 <= i < |y| ==> y[i] == 0.0
  }

  /** Some combination of the columns other than the empty one vanishes. */
  ghost predicate Singular(a: seq<Row>)
    requires Sized(a, |a|, |a|)
  {
    exists y: Row :: |y| == |a| && !AllZero(y) && forall i :: 0 <= i < |a| ==> Dot(a[i], y, |a|) == 0.0
  }

  /** Every row vanishes on `z`. */
  predicate Null(m: seq<Row>, z: Row)
    requires Sized(m, |m|, |z|)
  {
    forall i :: 0 <= i < |m| ==> Dot(m[i], z, |z|) == 0.0
  }

  function Augmented(a: seq<Row>, b: Row): (m: seq<Row>)
    requires Sized(a, |b|, |b|)
    ensures Sized(m, |b|, |b| + 1)
  {
    seq(|b|, i requires 0 <= i < |b| => a[i] + [b[i]])
  }

  // ------------------------------------------------------------- row operations

  function RowMinus(row: Row, f: real, other: Row): (r: Row)
    requires |row| == |other|
    ensures |r| == |row|
  {
    seq(|row|, j requires 0 <= j < |row| => row[j] - f * other[j])
  }

  lemma TermMinus(a: real, f: real, b: real, z: real)
    ensures (a - f * b) * z == a * z - f * (b * z)
  {
  }

  lemma SumMinus(f: real, x: real, y: real)
    ensures f * (x + y) == f * x + f * y
  {
  }

  lemma {:induction false} DotMinus(row: Row, f: real, other: Row, z: Row, k: nat)
    requires |row| == |other| && k <= |row| && k <= |z|
    ensures Dot(RowMinus(row, f, other), z, k) == Dot(row, z, k) - f * Dot(other, z, k)
  {
    if k > 0 {
      DotMinus(row, f, other, z, k - 1);
      TermMinus(row[k - 1], f, other[k - 1], z[k - 1]);
      SumMinus(f, Dot(other, z, k - 1), other[k - 1] * z[k - 1]);
    }
  }

  /** Taking a multiple of one row off another keeps what the rows vanish on. */
  lemma EliminationKeepsNull(m: seq<Row>, r: nat, col: nat, f: real, z: Row)
    requires Sized(m, |m|, |z|) && r < |m| && col < |m| && r != col
    ensures Null(m[r := RowMinus(m[r], f, m[col])], z) <==> Null(m, z)
  {
    var after := m[r := RowMinus(m[r], f, m[col])];
    DotMinus(m[r], f, m[col], z, |z|);
    if Null(m, z) {
      assert Dot(m[r], z, |z|) == 0.0 && Dot(m[col], z, |z|) == 0.0;
    }
    if Null(after, z) {
      assert Dot(after[r], z, |z|) == 0.0 && Dot(after[col], z, |z|) == 0.0;
      forall i | 0 <= i < |m|
        ensures Dot(m[i], z, |z|) == 0.0
      {
        assert i != r ==> after[i] == m[i];
      }
    }
  }

  lemma SwapKeepsNull(m: seq<Row>, i: nat, j: nat, z: Row)
    requires Sized(m, |m|, |z|) && i < |m| && j < |m|
    ensures Null(m[i := m[j]][j := m[i]], z) <==> Null(m, z)
  {
    var after := m[i := m[j]][j := m[i]];
    if Null(after, z) {
      forall k | 0 <= k < |m|
        ensures Dot(m[k], z, |z|) == 0.0
      {
        assert m[k] == if k == i then after[j] else if k == j then after[i] else after[k];
      }
    }
  }

  // ------------------------------------------------------------- reduced columns

  /** The columns before `col` are zero but for a pivot on the diagonal. */
  predicate Reduced(m: seq<Row>, col: nat)
    requires Sized(m, |m|, |m| + 1) && col <= |m|
  {
    && (forall c :: 0 <= c < col ==> m[c][c] != 0.0)
    && (forall r, c :: 0 <= r < |m| && 0 <= c < col && r != c ==> m[r][c] == 0.0)
  }

  /** A sum of which only the term at `i` is not zero. */
  lemma {:induction false} DotOnly(row: Row, z: Row, i: nat, k: nat)
    requires k <= |row| && k <= |z| && i < |row| && i < |z|
    requires forall j :: 0 <= j < k && j != i ==> row[j] == 0.0 || z[j] == 0.0
    ensures Dot(row, z, k) == if i < k then row[i] * z[i] else 0.0
  {
    if k > 0 {
      DotOnly(row, z, i, k - 1);
    }
  }

  lemma Quotient(a: real, b: real, x: real)
    requires a != 0.0
    ensures a * x == b <==> x == b / a
  {
  }

  /** A reduced matrix vanishes on `x` and -1 for just one `x`. */
  lemma ReducedHasOneSolution(m: seq<Row>, x: Row)
    requires Sized(m, |m|, |m| + 1) && Reduced(m, |m|) && |x| == |m|
    ensures Null(m, x + [-1.0]) <==> forall i :: 0 <= i < |m| ==> x[i] == m[i][|m|] / m[i][i]
  {
    var n := |m|;
    forall i | 0 <= i < n
      ensures Dot(m[i], x + [-1.0], n + 1) == 0.0 <==> x[i] == m[i][n] / m[i][i]
    {
      DotOnly(m[i], x + [-1.0], i, n);
      Quotient(m[i][i], m[i][n], x[i]);
    }
  }

  lemma ReducedHasNoKernel(m: seq<Row>, y: Row)
    requires Sized(m, |m|, |m| + 1) && Reduced(m, |m|) && |y| == |m| && Null(m, y + [0.0])
    ensures AllZero(y)
  {
    var n := |m|;
    forall i | 0 <= i < n
      ensures y[i] == 0.0
    {
      DotOnly(m[i], y + [0.0], i, n);
      assert Dot(m[i], y + [0.0], n + 1) == 0.0;
      Quotient(m[i][i], 0.0, y[i]);
    }
  }

  /** Where no row is left with a pivot, the columns so far depend on each other. */
  function Dependence(m: seq<Row>, col: nat): (z: Row)
    requires Sized(m, |m|, |m| + 1) && col < |m| && Reduced(m, col)
    ensures |z| == |m| + 1
  {
    seq(|m| + 1, j requires 0 <= j <= |m| => if j < col then -(m[j][col] / m[j][j]) else if j == col then 1.0 else 0.0)
  }

  lemma {:induction false} DotZero(row: Row, z: Row, from: nat, k: nat)
    requires from <= k <= |row| && k <= |z|
    requires forall j :: from <= j < k ==> row[j] == 0.0 || z[j] == 0.0
    ensures Dot(row, z, k) == Dot(row, z, from)
  {
    if from < k {
      DotZero(row, z, from, k - 1);
    }
  }

  lemma CancelQuotient(a: real, b: real)
    requires a != 0.0
    ensures a * -(b / a) + b == 0.0
  {
  }

  lemma NoPivotMeansDependence(m: seq<Row>, col: nat)
    requires Sized(m, |m|, |m| + 1) && col < |m| && Reduced(m, col)
    requires forall r :: col <= r < |m| ==> m[r][col] == 0.0
    ensures Null(m, Dependence(m, col))
  {
    var n, z := |m|, Dependence(m, col);
    forall i | 0 <= i < n
      ensures Dot(m[i], z, n + 1) == 0.0
    {
      DotZero(m[i], z, col + 1, n + 1);
      DotOnly(m[i], z, i, col);
      if i < col {
        CancelQuotient(m[i][i], m[i][col]);
      }
    }
  }

  // ---------------------------------------------------------- system and matrix

  lemma {:induction false} DotPrefix(row: Row, longer: Row, z: Row, longerZ: Row, k: nat)
    requires k <= |row| && k <= |longer| && k <= |z| && k <= |longerZ|
    requires forall j :: 0 <= j < k ==> row[j] == longer[j] && z[j] == longerZ[j]
    ensures Dot(row, z, k) == Dot(longer, longerZ, k)
  {
    if k > 0 {
      DotPrefix(row, longer, z, longerZ, k - 1);
    }
  }

  lemma AugmentedRow(a: seq<Row>, b: Row, x: Row, last: real, i: nat)
    requires Sized(a, |b|, |b|) && |x| == |b| && i < |b|
    ensures Dot(Augmented(a, b)[i], x + [last], |b| + 1) == Dot(a[i], x, |b|) + b[i] * last
  {
    DotPrefix(a[i], Augmented(a, b)[i], x, x + [last], |b|);
  }

  lemma SolvesIsNull(a: seq<Row>, b: Row, x: Row)
    requires Sized(a, |b|, |b|) && |x| == |b|
    ensures Solves(a, b, x) <==> Null(Augmented(a, b), x + [-1.0])
  {
    forall i | 0 <= i < |b|
      ensures Dot(Augmented(a, b)[i], x + [-1.0], |b| + 1) == Dot(a[i], x, |b|) - b[i]
    {
      AugmentedRow(a, b, x, -1.0, i);
    }
  }

  lemma KernelIsNull(a: seq<Row>, b: Row, y: Row)
    requires Sized(a, |b|, |b|) && |y| == |b|
    ensures Null(Augmented(a, b), y + [0.0]) <==> forall i :: 0 <= i < |b| ==> Dot(a[i], y, |b|) == 0.0
  {
    forall i | 0 <= i < |b|
      ensures Dot(Augmented(a, b)[i], y + [0.0], |b| + 1) == Dot(a[i], y, |b|)
    {
      AugmentedRow(a, b, y, 0.0, i);
    }
  }

  // ------------------------------------------------------------------ the program

  function Abs(x: real): real {
    if x < 0.0 then -x else x
  }

  /** The row at or below the diagonal with the largest entry in the column. */
  method LargestBelow(m: seq<Row>, col: nat) returns (pivot: nat)
    requires Sized(m, |m|, |m| + 1) && col < |m|
    ensures col <= pivot < |m|
    ensures forall r :: col <= r < |m| ==> Abs(m[r][col]) <= Abs(m[pivot][col])
  {
    pivot := col;
    for r := col to |m|
      invariant col <= pivot < |m|
      invariant forall k :: col <= k < r ==> Abs(m[k][col]) <= Abs(m[pivot][col])
    {
      if Abs(m[r][col]) > Abs(m[pivot][col]) {
        pivot := r;
      }
    }
  }

  ghost predicate Equivalent(m: seq<Row>, before: seq<Row>) {
    && |m| == |before| && Sized(m, |m|, |m| + 1) && Sized(before, |m|, |m| + 1)
    && forall z: Row :: |z| == |m| + 1 ==> (Null(m, z) <==> Null(before, z))
  }

  /** Puts the row with the largest entry on the diagonal; a zero there means no row has more. */
  method BringUpPivot(m: seq<Row>, col: nat) returns (after: seq<Row>)
    requires Sized(m, |m|, |m| + 1) && col < |m| && Reduced(m, col)
    ensures Equivalent(after, m) && Reduced(after, col)
    ensures forall r :: col <= r < |m| ==> Abs(after[r][col]) <= Abs(after[col][col])
  {
    var pivot := LargestBelow(m, col);
    after := m[col := m[pivot]][pivot := m[col]];
    forall z: Row | |z| == |m| + 1
      ensures Null(after, z) <==> Null(m, z)
    {
      SwapKeepsNull(m, col, pivot, z);
    }
  }

  /** On the way to `m` with column `col` cleared, rows before `r` done. */
  ghost predicate Clearing(m: seq<Row>, col: nat, r: nat, now: seq<Row>)
    requires col < |m|
  {
    && Equivalent(now, m) && now[col] == m[col] && Reduced(now, col)
    && forall k :: 0 <= k < |m| && k < r && k != col ==> now[k][col] == 0.0
  }

  /** Clears column `col` in every other row. */
  method ClearColumn(m: seq<Row>, col: nat) returns (after: seq<Row>)
    requires Sized(m, |m|, |m| + 1) && col < |m| && Reduced(m, col) && m[col][col] != 0.0
    ensures Equivalent(after, m) && Reduced(after, col + 1)
  {
    after := m;
    for r := 0 to |m|
      invariant Clearing(m, col, r, after)
    {
      if r != col {
        var f := after[r][col] / after[col][col];
        ClearRow(m, col, r, after, f);
        after := after[r := RowMinus(after[r], f, after[col])];
      }
    }
  }

  lemma ClearRow(m: seq<Row>, col: nat, r: nat, before: seq<Row>, f: real)
    requires Sized(m, |m|, |m| + 1) && col < |m| && r < |m| && r != col && Clearing(m, col, r, before)
    requires m[col][col] != 0.0 && f == before[r][col] / m[col][col]
    ensures Clearing(m, col, r + 1, before[r := RowMinus(before[r], f, before[col])])
  {
    var after := before[r := RowMinus(before[r], f, before[col])];
    ClearsOne(before, r, col, f);
    StaysEquivalent(m, before, r, col, f, after);
  }

  lemma StaysEquivalent(m: seq<Row>, before: seq<Row>, r: nat, col: nat, f: real, after: seq<Row>)
    requires Equivalent(before, m) && col < |m| && r < |m| && r != col
    requires after == before[r := RowMinus(before[r], f, before[col])]
    ensures Equivalent(after, m)
  {
    forall z: Row | |z| == |m| + 1
      ensures Null(after, z) <==> Null(m, z)
    {
      EliminationKeepsNull(before, r, col, f, z);
    }
  }

  lemma ClearsOne(m: seq<Row>, r: nat, col: nat, f: real)
    requires Sized(m, |m|, |m| + 1) && col < |m| && r < |m| && r != col && Reduced(m, col)
    requires m[col][col] != 0.0 && f == m[r][col] / m[col][col]
    ensures var after := m[r := RowMinus(m[r], f, m[col])];
      Sized(after, |m|, |m| + 1) && Reduced(after, col) && after[r][col] == 0.0
  {
    CancelQuotient(m[col][col], m[r][col]);
    assert f * m[col][col] == m[r][col];
    var after := m[r := RowMinus(m[r], f, m[col])];
    forall c | 0 <= c < col
      ensures after[r][c] == m[r][c]
    {
      assert m[col][c] == 0.0;
    }
  }

  /**
   The one solution of a x = b. There is none to give, because a pivot is zero, exactly
   when the matrix is singular.
   */
  method Solve(a: seq<Row>, b: Row) returns (x: Option<Row>)
    requires Sized(a, |b|, |b|)
    ensures x.None? <==> Singular(a)
    ensures x.Some? ==> |x.value| == |b| && forall y: Row :: |y| == |b| ==> (Solves(a, b, y) <==> y == x.value)
  {
    var n := |b|;
    var m := Augmented(a, b);
    for col := 0 to n
      invariant Equivalent(m, Augmented(a, b)) && |m| == n && Reduced(m, col)
    {
      m := BringUpPivot(m, col);
      if m[col][col] == 0.0 {
        NotSolvable(a, b, m, col);
        return None;
      }
      m := ClearColumn(m, col);
    }
    x := Some(seq(n, i requires 0 <= i < n => m[i][n] / m[i][i]));
    Solved(a, b, m, x.value);
  }

  lemma NotSolvable(a: seq<Row>, b: Row, m: seq<Row>, col: nat)
    requires Sized(a, |b|, |b|) && Equivalent(m, Augmented(a, b)) && col < |b| && Reduced(m, col)
    requires forall r :: col <= r < |b| ==> m[r][col] == 0.0
    ensures Singular(a)
  {
    NoPivotMeansDependence(m, col);
    var z := Dependence(m, col);
    var y := z[..|b|];
    assert z == y + [0.0];
    assert y[col] == 1.0;
    KernelIsNull(a, b, y);
  }

  lemma Solved(a: seq<Row>, b: Row, m: seq<Row>, x: Row)
    requires Sized(a, |b|, |b|) && Equivalent(m, Augmented(a, b)) && Reduced(m, |b|)
    requires |x| == |b| && forall i :: 0 <= i < |b| ==> x[i] == m[i][|b|] / m[i][i]
    ensures !Singular(a)
    ensures forall y: Row :: |y| == |b| ==> (Solves(a, b, y) <==> y == x)
  {
    forall y: Row | |y| == |b|
      ensures Solves(a, b, y) <==> y == x
    {
      SolvesIsNull(a, b, y);
      ReducedHasOneSolution(m, y);
    }
    forall y: Row | |y| == |b| && (forall i :: 0 <= i < |b| ==> Dot(a[i], y, |b|) == 0.0)
      ensures AllZero(y)
    {
      KernelIsNull(a, b, y);
      ReducedHasNoKernel(m, y);
    }
  }

  // ------------------------------------------------------------------ perspective

  datatype Point = Point(x: real, y: real)

  /** The two equations that tie the eight unknowns to one pair of points. */
  function RowX(s: Point, d: Point): (r: Row)
    ensures |r| == 8
  {
    [s.x, s.y, 1.0, 0.0, 0.0, 0.0, -d.x * s.x, -d.x * s.y]
  }

  function RowY(s: Point, d: Point): (r: Row)
    ensures |r| == 8
  {
    [0.0, 0.0, 0.0, s.x, s.y, 1.0, -d.y * s.x, -d.y * s.y]
  }

  function Linear(a: real, b: real, c: real, p: Point): real {
    a * p.x + b * p.y + c
  }

  function Denominator(h: Row, p: Point): real
    requires |h| == 9
  {
    Linear(h[6], h[7], h[8], p)
  }

  function NumeratorX(h: Row, p: Point): real
    requires |h| == 9
  {
    Linear(h[0], h[1], h[2], p)
  }

  function NumeratorY(h: Row, p: Point): real
    requires |h| == 9
  {
    Linear(h[3], h[4], h[5], p)
  }

  /** Where the transform takes a point, unless it divides by zero. */
  function Transformed(h: Row, p: Point): Option<Point>
    requires |h| == 9
  {
    var w := Denominator(h, p);
    if w == 0.0 then None
    else Some(Point(NumeratorX(h, p) / w, NumeratorY(h, p) / w))
  }

  predicate TakesAll(h: Row, src: seq<Point>, dst: seq<Point>)
    requires |h| == 9 && |src| == |dst|
  {
    forall i :: 0 <= i < |src| ==> Transformed(h, src[i]) == Some(dst[i])
  }

  function Coefficients(src: seq<Point>, dst: seq<Point>): (a: seq<Row>)
    requires |src| == 4 == |dst|
    ensures Sized(a, 8, 8)
  {
    [RowX(src[0], dst[0]), RowY(src[0], dst[0]), RowX(src[1], dst[1]), RowY(src[1], dst[1]),
     RowX(src[2], dst[2]), RowY(src[2], dst[2]), RowX(src[3], dst[3]), RowY(src[3], dst[3])]
  }

  function Targets(dst: seq<Point>): (b: Row)
    requires |dst| == 4
    ensures |b| == 8
  {
    [dst[0].x, dst[0].y, dst[1].x, dst[1].y, dst[2].x, dst[2].y, dst[3].x, dst[3].y]
  }

  /** Numerator over denominator, without dividing: what the equations of one point say. */
  predicate Meets(h: Row, s: Point, d: Point)
    requires |h| == 9
  {
    && NumeratorX(h, s) == d.x * Denominator(h, s)
    && NumeratorY(h, s) == d.y * Denominator(h, s)
  }

  /** All the eight products of a row. */
  lemma DotEight(r: Row, z: Row)
    requires |r| == 8 == |z|
    ensures Dot(r, z, 8) == r[0] * z[0] + r[1] * z[1] + r[2] * z[2] + r[3] * z[3]
                          + r[4] * z[4] + r[5] * z[5] + r[6] * z[6] + r[7] * z[7]
  {
    assert Dot(r, z, 1) == r[0] * z[0];
    assert Dot(r, z, 2) == Dot(r, z, 1) + r[1] * z[1];
    assert Dot(r, z, 3) == Dot(r, z, 2) + r[2] * z[2];
    assert Dot(r, z, 4) == Dot(r, z, 3) + r[3] * z[3];
    assert Dot(r, z, 5) == Dot(r, z, 4) + r[4] * z[4];
    assert Dot(r, z, 6) == Dot(r, z, 5) + r[5] * z[5];
    assert Dot(r, z, 7) == Dot(r, z, 6) + r[6] * z[6];
  }

  /** The eight products of an equation whose target is `u` and whose own unknowns are `a`, `b`, `c`. */
  function Equation(u: real, s: Point, a: real, b: real, c: real, g: real, h: real): real {
    s.x * a + s.y * b + 1.0 * c + (-u * s.x) * g + (-u * s.y) * h
  }

  lemma DotRowX(z: Row, s: Point, d: Point)
    requires |z| == 8
    ensures Dot(RowX(s, d), z, 8) == Equation(d.x, s, z[0], z[1], z[2], z[6], z[7])
  {
    DotEight(RowX(s, d), z);
  }

  lemma DotRowY(z: Row, s: Point, d: Point)
    requires |z| == 8
    ensures Dot(RowY(s, d), z, 8) == Equation(d.y, s, z[3], z[4], z[5], z[6], z[7])
  {
    DotEight(RowY(s, d), z);
  }

  /** One equation, with its unknowns on the left and over the denominator. */
  lemma OneEquation(u: real, s: Point, a: real, b: real, c: real, g: real, h: real)
    ensures Equation(u, s, a, b, c, g, h) == u <==> Linear(a, b, c, s) == u * Linear(g, h, 1.0, s)
  {
    assert u * Linear(g, h, 1.0, s) == u - (-u * s.x) * g - (-u * s.y) * h;
  }

  lemma RowXMeets(z: Row, s: Point, d: Point, h: Row)
    requires |z| == 8 && h == z + [1.0]
    ensures Dot(RowX(s, d), z, 8) == d.x <==> NumeratorX(h, s) == d.x * Denominator(h, s)
  {
    DotRowX(z, s, d);
    OneEquation(d.x, s, z[0], z[1], z[2], z[6], z[7]);
  }

  lemma RowYMeets(z: Row, s: Point, d: Point, h: Row)
    requires |z| == 8 && h == z + [1.0]
    ensures Dot(RowY(s, d), z, 8) == d.y <==> NumeratorY(h, s) == d.y * Denominator(h, s)
  {
    DotRowY(z, s, d);
    OneEquation(d.y, s, z[3], z[4], z[5], z[6], z[7]);
  }

  lemma RowsAreMeets(z: Row, s: Point, d: Point)
    requires |z| == 8
    ensures Dot(RowX(s, d), z, 8) == d.x && Dot(RowY(s, d), z, 8) == d.y <==> Meets(z + [1.0], s, d)
  {
    RowXMeets(z, s, d, z + [1.0]);
    RowYMeets(z, s, d, z + [1.0]);
  }

  lemma Fraction(n: real, w: real, x: real)
    requires w != 0.0
    ensures n == x * w <==> n / w == x
  {
    if n == x * w {
      assert x * w / w == x;
    }
  }

  lemma MeetsIsTransformed(h: Row, s: Point, d: Point)
    requires |h| == 9 && Denominator(h, s) != 0.0
    ensures Meets(h, s, d) <==> Transformed(h, s) == Some(d)
  {
    FractionsAgree(NumeratorX(h, s), NumeratorY(h, s), Denominator(h, s), d);
  }

  lemma FractionsAgree(nx: real, ny: real, w: real, d: Point)
    requires w != 0.0
    ensures nx == d.x * w && ny == d.y * w <==> Some(Point(nx / w, ny / w)) == Some(d)
  {
    Fraction(nx, w, d.x);
    Fraction(ny, w, d.y);
  }

  lemma SolvesIsMeets(src: seq<Point>, dst: seq<Point>, z: Row)
    requires |src| == 4 == |dst| && |z| == 8
    ensures Solves(Coefficients(src, dst), Targets(dst), z)
       <==> forall i :: 0 <= i < 4 ==> Meets(z + [1.0], src[i], dst[i])
  {
    var a, b := Coefficients(src, dst), Targets(dst);
    forall i | 0 <= i < 4
      ensures PairSolved(a, b, z, i) <==> Meets(z + [1.0], src[i], dst[i])
    {
      RowsAreMeets(z, src[i], dst[i]);
    }
    SolvesByPairs(a, b, z);
  }

  /** `z` solves the two equations of the `i`-th pair of points. */
  predicate PairSolved(a: seq<Row>, b: Row, z: Row, i: nat)
    requires Sized(a, 8, 8) && |b| == 8 == |z| && i < 4
  {
    Dot(a[2 * i], z, 8) == b[2 * i] && Dot(a[2 * i + 1], z, 8) == b[2 * i + 1]
  }

  lemma SolvesByPairs(a: seq<Row>, b: Row, z: Row)
    requires Sized(a, 8, 8) && |b| == 8 == |z|
    ensures Solves(a, b, z) <==> forall i :: 0 <= i < 4 ==> PairSolved(a, b, z, i)
  {
    if forall i :: 0 <= i < 4 ==> PairSolved(a, b, z, i) {
      assert PairSolved(a, b, z, 0) && PairSolved(a, b, z, 1) && PairSolved(a, b, z, 2) && PairSolved(a, b, z, 3);
    }
  }

  /**
   The transform of four pairs of points: every source goes to its target wherever the
   denominator is not zero, and no other transform, scaled alike, takes all four there.
   */
  method PerspectiveTransform(src: seq<Point>, dst: seq<Point>) returns (h: Option<Row>)
    requires |src| == 4 == |dst|
    ensures h.None? <==> Singular(Coefficients(src, dst))
    ensures h.Some? ==> |h.value| == 9 && h.value[8] == 1.0
    ensures h.Some? ==> forall i :: 0 <= i < 4 && Denominator(h.value, src[i]) != 0.0 ==>
              Transformed(h.value, src[i]) == Some(dst[i])
    ensures h.Some? ==> forall g: Row :: |g| == 9 && g[8] == 1.0 && TakesAll(g, src, dst) ==> g == h.value
  {
    var a, b: Row := [], [];
    for i := 0 to 4
      invariant |a| == |b| == 2 * i
      invariant a == Coefficients(src, dst)[..2 * i] && b == Targets(dst)[..2 * i]
    {
      a := a + [RowX(src[i], dst[i])];
      b := b + [dst[i].x];
      a := a + [RowY(src[i], dst[i])];
      b := b + [dst[i].y];
    }
    assert a == Coefficients(src, dst) && b == Targets(dst);
    var x := Solve(a, b);
    if x.None? {
      return None;
    }
    h := Some(x.value + [1.0]);
    OnlyTransform(src, dst, x.value);
  }

  /** `x` is the one solution of the system. */
  ghost predicate OnlySolution(a: seq<Row>, b: Row, x: Row)
    requires Sized(a, |b|, |b|)
  {
    |x| == |b| && forall y: Row :: |y| == |b| ==> (Solves(a, b, y) <==> y == x)
  }

  lemma OnlyTransform(src: seq<Point>, dst: seq<Point>, x: Row)
    requires |src| == 4 == |dst| && OnlySolution(Coefficients(src, dst), Targets(dst), x)
    ensures forall i :: 0 <= i < 4 && Denominator(x + [1.0], src[i]) != 0.0 ==>
              Transformed(x + [1.0], src[i]) == Some(dst[i])
    ensures forall g: Row :: |g| == 9 && g[8] == 1.0 && TakesAll(g, src, dst) ==> g == x + [1.0]
  {
    assert Solves(Coefficients(src, dst), Targets(dst), x);
    SolutionTakesAll(src, dst, x);
    forall g: Row | |g| == 9 && g[8] == 1.0 && TakesAll(g, src, dst)
      ensures g == x + [1.0]
    {
      TakingAllSolves(src, dst, g);
      NoOtherTransform(Coefficients(src, dst), Targets(dst), x, g);
    }
  }

  lemma NoOtherTransform(a: seq<Row>, b: Row, x: Row, g: Row)
    requires |b| == 8 && Sized(a, 8, 8) && OnlySolution(a, b, x)
    requires |g| == 9 && g[8] == 1.0 && Solves(a, b, g[..8])
    ensures g == x + [1.0]
  {
    assert g == g[..8] + [1.0];
  }

  lemma SolutionTakesAll(src: seq<Point>, dst: seq<Point>, x: Row)
    requires |src| == 4 == |dst| && |x| == 8 && Solves(Coefficients(src, dst), Targets(dst), x)
    ensures forall i :: 0 <= i < 4 && Denominator(x + [1.0], src[i]) != 0.0 ==>
              Transformed(x + [1.0], src[i]) == Some(dst[i])
  {
    SolvesIsMeets(src, dst, x);
    forall i | 0 <= i < 4 && Denominator(x + [1.0], src[i]) != 0.0
      ensures Transformed(x + [1.0], src[i]) == Some(dst[i])
    {
      assert Meets(x + [1.0], src[i], dst[i]);
      MeetsIsTransformed(x + [1.0], src[i], dst[i]);
    }
  }

  lemma TakingAllSolves(src: seq<Point>, dst: seq<Point>, g: Row)
    requires |src| == 4 == |dst| && |g| == 9 && g[8] == 1.0 && TakesAll(g, src, dst)
    ensures Solves(Coefficients(src, dst), Targets(dst), g[..8])
  {
    assert g == g[..8] + [1.0];
    forall i | 0 <= i < 4
      ensures Meets(g, src[i], dst[i])
    {
      MeetsIsTransformed(g, src[i], dst[i]);
    }
    SolvesIsMeets(src, dst, g[..8]);
  }
}
