/** The index ranges and the point enumeration that every grid shares: the
    range of upper indices a grid carries, the number of points, and the
    row-major order in which the points, their indices and their quadrature
    weights are listed. */
module GridBase {
  import opened Tags

  /** What a concrete grid supplies to the shared base: its colatitudes and
      longitudes with their quadrature weights, the largest degree, the
      largest upper index, and which upper indices it stores. */
  datatype Grid = Grid(
    coLatitudes: seq<real>,
    longitudes: seq<real>,
    coLatitudeWeights: seq<real>,
    longitudeWeights: seq<real>,
    maxDegree: int,
    maxUpperIndex: int,
    nRange: IndexRange
  )

  // ---------------------------------------------------------------------
  // Integer ranges and products of ranges.
  // ---------------------------------------------------------------------

  /** The half-open integer range [a, b) in ascending order. */
  function Iota(a: int, b: int): (r: seq<int>)
    requires a <= b
    ensures |r| == b - a
    ensures forall k :: 0 <= k < |r| ==> r[k] == a + k
    decreases b - a
  {
    if a == b then [] else [a] + Iota(a + 1, b)
  }

  /** The position of row i, column j in a rows-by-cols table stored row by row. */
  function RowMajor(i: int, j: int, rows: nat, cols: nat): (p: nat)
    requires 0 <= i < rows && 0 <= j < cols
    ensures p < rows * cols
  {
    assert i * cols <= (rows - 1) * cols;
    i * cols + j
  }

  /** The row (quotient) and column (remainder) of a position of such a table. */
  function RowOf(k: nat, rows: nat, cols: nat): (i: nat)
    requires k < rows * cols
    ensures i < rows
  {
    var i := k / cols;
    assert (rows - i) * cols > 0 by {
      assert i * cols <= k;
    }
    i
  }

  function ColumnOf(k: nat, rows: nat, cols: nat): (j: nat)
    requires k < rows * cols
    ensures j < cols
  {
    k % cols
  }

  /** Row-major positions and (row, column) pairs correspond one to one: a
      position is the row-major position of its row and column ... */
  lemma RowMajorOfRowAndColumn(k: nat, rows: nat, cols: nat)
    requires k < rows * cols
    ensures RowMajor(RowOf(k, rows, cols), ColumnOf(k, rows, cols), rows, cols) == k
  {
    assert RowOf(k, rows, cols) == k / cols;
  }

  /** ... and the row and column of the row-major position of (i, j) are i and j. */
  lemma RowAndColumnOfRowMajor(i: int, j: int, rows: nat, cols: nat)
    requires 0 <= i < rows && 0 <= j < cols
    ensures RowOf(RowMajor(i, j, rows, cols), rows, cols) == i
    ensures ColumnOf(RowMajor(i, j, rows, cols), rows, cols) == j
  {
    DivModOfSum(i, j, cols);
  }

  /** q*n + r with 0 <= r < n has quotient q and remainder r. */
  lemma DivModOfSum(q: int, r: int, n: int)
    requires n > 0 && 0 <= r < n
    ensures (q * n + r) / n == q && (q * n + r) % n == r
  {
    var k := q * n + r;
    var d := k / n - q;
    assert n * d == r - k % n;
  }

  /** All pairs (x, y) with x from xs and y from ys, the first component
      varying slowest: pair (xs[i], ys[j]) sits at the row-major position of (i, j). */
  function CartesianProduct<A, B>(xs: seq<A>, ys: seq<B>): (r: seq<(A, B)>)
    ensures |r| == |xs| * |ys|
    ensures forall i, j :: 0 <= i < |xs| && 0 <= j < |ys| ==>
      r[RowMajor(i, j, |xs|, |ys|)] == (xs[i], ys[j])
  {
    if |xs| == 0 then []
    else
      var row := seq(|ys|, j requires 0 <= j < |ys| => (xs[0], ys[j]));
      var rest := CartesianProduct(xs[1..], ys);
      assert |xs| * |ys| == |ys| + (|xs| - 1) * |ys|;
      forall i, j | 1 <= i < |xs| && 0 <= j < |ys|
        ensures (row + rest)[RowMajor(i, j, |xs|, |ys|)] == (xs[i], ys[j])
      {
        assert RowMajor(i, j, |xs|, |ys|) == |ys| + RowMajor(i - 1, j, |xs| - 1, |ys|);
      }
      row + rest
  }

  // ---------------------------------------------------------------------
  // Upper indices.
  // ---------------------------------------------------------------------

  /** The smallest upper index the grid stores. */
  function MinUpperIndex(g: Grid): int
  {
    match g.nRange
    case All => -g.maxUpperIndex
    case NonNegative => 0
    case Single => g.maxUpperIndex
  }

  /** The upper indices stored: MinUpperIndex up to MaxUpperIndex inclusive
      (the range must not run backwards). */
  function UpperIndices(g: Grid): (r: seq<int>)
    requires MinUpperIndex(g) <= g.maxUpperIndex + 1
    ensures |r| == g.maxUpperIndex - MinUpperIndex(g) + 1
    ensures forall k :: 0 <= k < |r| ==> r[k] == MinUpperIndex(g) + k
  {
    Iota(MinUpperIndex(g), g.maxUpperIndex + 1)
  }

  /** The three modes: All is symmetric about 0, NonNegative starts at 0 and
      Single holds only the largest upper index. */
  lemma UpperIndexModes(g: Grid, n: int)
    requires MinUpperIndex(g) <= g.maxUpperIndex + 1
    ensures n in UpperIndices(g) <==> MinUpperIndex(g) <= n <= g.maxUpperIndex
    ensures g.nRange == All ==> (n in UpperIndices(g) <==> Abs(n) <= g.maxUpperIndex)
    ensures g.nRange == NonNegative ==> (n in UpperIndices(g) <==> 0 <= n <= g.maxUpperIndex)
    ensures g.nRange == Single ==> UpperIndices(g) == [g.maxUpperIndex]
  {
    var r := UpperIndices(g);
    if MinUpperIndex(g) <= n <= g.maxUpperIndex {
      assert r[n - MinUpperIndex(g)] == n;
    }
  }

  // ---------------------------------------------------------------------
  // Points, their indices and weights.
  // ---------------------------------------------------------------------

  function NumberOfCoLatitudes(g: Grid): nat
  {
    |g.coLatitudes|
  }

  function NumberOfLongitudes(g: Grid): nat
  {
    |g.longitudes|
  }

  function CoLatitudeIndices(g: Grid): seq<int>
  {
    Iota(0, NumberOfCoLatitudes(g))
  }

  function LongitudeIndices(g: Grid): seq<int>
  {
    Iota(0, NumberOfLongitudes(g))
  }

  /** The number of grid points. */
  function FieldSize(g: Grid): nat
  {
    NumberOfCoLatitudes(g) * NumberOfLongitudes(g)
  }

  /** Whether (iTheta, iPhi) indexes a point of the grid. */
  predicate InGrid(g: Grid, iTheta: int, iPhi: int)
  {
    0 <= iTheta < NumberOfCoLatitudes(g) && 0 <= iPhi < NumberOfLongitudes(g)
  }

  /** The position of point (iTheta, iPhi) in the row-major enumeration,
      iTheta * nPhi + iPhi. */
  function PointPosition(g: Grid, iTheta: int, iPhi: int): (k: nat)
    requires InGrid(g, iTheta, iPhi)
    ensures k < FieldSize(g)
  {
    RowMajor(iTheta, iPhi, NumberOfCoLatitudes(g), NumberOfLongitudes(g))
  }

  /** The points (theta, phi), colatitude-major. */
  function Points(g: Grid): (r: seq<(real, real)>)
    ensures |r| == FieldSize(g)
    ensures forall i, j :: InGrid(g, i, j) ==>
      r[PointPosition(g, i, j)] == (g.coLatitudes[i], g.longitudes[j])
  {
    CartesianProduct(g.coLatitudes, g.longitudes)
  }

  /** The index pairs (iTheta, iPhi) of the points, in the same row-major order. */
  function PointIndices(g: Grid): (r: seq<(int, int)>)
    ensures |r| == FieldSize(g)
    ensures forall i, j :: InGrid(g, i, j) ==> r[PointPosition(g, i, j)] == (i, j)
  {
    CartesianProduct(CoLatitudeIndices(g), LongitudeIndices(g))
  }

  /** Position k of the enumeration holds (k div nPhi, k mod nPhi), a grid
      point whose position is k again. */
  lemma PositionIsPoint(g: Grid, k: nat)
    requires k < FieldSize(g)
    ensures var (i, j) := PointIndices(g)[k];
      i == k / NumberOfLongitudes(g) && j == k % NumberOfLongitudes(g) &&
      InGrid(g, i, j) && PointPosition(g, i, j) == k
  {
    var rows, cols := NumberOfCoLatitudes(g), NumberOfLongitudes(g);
    var i, j := RowOf(k, rows, cols), ColumnOf(k, rows, cols);
    RowMajorOfRowAndColumn(k, rows, cols);
    assert PointIndices(g)[PointPosition(g, i, j)] == (i, j);
  }

  /** Distinct grid points have distinct positions. */
  lemma PointPositionInjective(g: Grid, i: int, j: int, i': int, j': int)
    requires InGrid(g, i, j) && InGrid(g, i', j')
    ensures PointPosition(g, i, j) == PointPosition(g, i', j') <==> i == i' && j == j'
  {
    if PointPosition(g, i, j) == PointPosition(g, i', j') {
      assert PointIndices(g)[PointPosition(g, i, j)] == (i, j);
      assert PointIndices(g)[PointPosition(g, i', j')] == (i', j');
    }
  }

  /** The quadrature weights: the colatitude weight times the longitude
      weight, in the order of the pairs of weights. */
  function Weights(g: Grid): (r: seq<real>)
    ensures |r| == |g.coLatitudeWeights| * |g.longitudeWeights|
    ensures forall i, j :: 0 <= i < |g.coLatitudeWeights| && 0 <= j < |g.longitudeWeights| ==>
      r[RowMajor(i, j, |g.coLatitudeWeights|, |g.longitudeWeights|)]
        == g.coLatitudeWeights[i] * g.longitudeWeights[j]
  {
    var pairs := CartesianProduct(g.coLatitudeWeights, g.longitudeWeights);
    seq(|pairs|, k requires 0 <= k < |pairs| => pairs[k].0 * pairs[k].1)
  }

  /** For a grid with one weight per colatitude and one per longitude, the
      weight at the position of point (iTheta, iPhi) is that point's product of
      weights. */
  lemma WeightAtPoint(g: Grid, iTheta: int, iPhi: int)
    requires InGrid(g, iTheta, iPhi)
    requires |g.coLatitudeWeights| == NumberOfCoLatitudes(g)
    requires |g.longitudeWeights| == NumberOfLongitudes(g)
    ensures |Weights(g)| == FieldSize(g)
    ensures Weights(g)[PointPosition(g, iTheta, iPhi)]
         == g.coLatitudeWeights[iTheta] * g.longitudeWeights[iPhi]
  {
  }

  /** The values f(theta, phi) at the points, in the order of Points. */
  function InterpolateFunction<T>(g: Grid, f: (real, real) -> T): (r: seq<T>)
    ensures |r| == FieldSize(g)
    ensures forall i, j :: InGrid(g, i, j) ==>
      r[PointPosition(g, i, j)] == f(g.coLatitudes[i], g.longitudes[j])
  {
    var points := Points(g);
    seq(|points|, k requires 0 <= k < |points| => f(points[k].0, points[k].1))
  }

  // ---------------------------------------------------------------------
  // Coefficient counts.
  // ---------------------------------------------------------------------

  /** indexCount(orders, lMax, mMax, n) is the number of coefficient indices
      of a generalised spherical-harmonic expansion with upper index n,
      degrees up to lMax and orders up to mMax, taken over all orders or over
      the non-negative ones; how that index set is built is not part of this
      model, so the count is a parameter. */
  type IndexCount = (OrderRange, int, int, int) -> int

  function RealCoefficientSize(indexCount: IndexCount, lMax: int, n: int): int
  {
    indexCount(NonNegative, lMax, lMax, n)
  }

  function ComplexCoefficientSize(indexCount: IndexCount, lMax: int, n: int): int
  {
    indexCount(All, lMax, lMax, n)
  }

  function RealCoefficientSizeOfGrid(g: Grid, indexCount: IndexCount, n: int): int
  {
    indexCount(NonNegative, g.maxDegree, g.maxDegree, n)
  }

  function ComplexCoefficientSizeOfGrid(g: Grid, indexCount: IndexCount, n: int): int
  {
    indexCount(All, g.maxDegree, g.maxDegree, n)
  }

  function CoefficientSize(indexCount: IndexCount, lMax: int, n: int): int
  {
    indexCount(All, lMax, lMax, n)
  }

  function CoefficientSizeOfGrid(g: Grid, indexCount: IndexCount, n: int): int
  {
    indexCount(All, g.maxDegree, g.maxDegree, n)
  }

  function CoefficientSizeNonNegative(indexCount: IndexCount, lMax: int, n: int): int
  {
    indexCount(NonNegative, lMax, lMax, n)
  }

  function CoefficientSizeNonNegativeOfGrid(g: Grid, indexCount: IndexCount, n: int): int
  {
    indexCount(NonNegative, g.maxDegree, g.maxDegree, n)
  }

  /** The plain counts are the complex ones, the non-negative counts are the
      real ones, and the forms without a degree use the grid's largest degree. */
  lemma CoefficientSizeOverloads(g: Grid, indexCount: IndexCount, n: int, lMax: int)
    ensures CoefficientSize(indexCount, lMax, n) == ComplexCoefficientSize(indexCount, lMax, n)
    ensures CoefficientSizeNonNegative(indexCount, lMax, n) == RealCoefficientSize(indexCount, lMax, n)
    ensures CoefficientSizeOfGrid(g, indexCount, n) == ComplexCoefficientSize(indexCount, g.maxDegree, n)
    ensures CoefficientSizeNonNegativeOfGrid(g, indexCount, n) == RealCoefficientSize(indexCount, g.maxDegree, n)
    ensures ComplexCoefficientSizeOfGrid(g, indexCount, n) == ComplexCoefficientSize(indexCount, g.maxDegree, n)
    ensures RealCoefficientSizeOfGrid(g, indexCount, n) == RealCoefficientSize(indexCount, g.maxDegree, n)
  {
  }
}
