/** Rank-two tensor fields on a grid, stored as their nine canonical
    components (alpha, beta) in {-1, 0, 1}^2, each component a block of
    grid values in row-major point order; and the pointwise views built on
    top of a field: complexification of a real field, realification of a
    complex one, and pointwise unary maps such as negation. Values are exact
    reals; floating-point rounding is not modelled here. */
module MatrixFields {
  import opened Tags
  import opened GridBase

  // ---------------------------------------------------------------------
  // Complex numbers over the reals.
  // ---------------------------------------------------------------------

  datatype Complex = Complex(re: real, im: real)

  /** The imaginary unit. */
  const ImaginaryUnit: Complex := Complex(0.0, 1.0)

  function FromReal(x: real): Complex
  {
    Complex(x, 0.0)
  }

  function Plus(a: Complex, b: Complex): Complex
  {
    Complex(a.re + b.re, a.im + b.im)
  }

  function Minus(a: Complex, b: Complex): Complex
  {
    Complex(a.re - b.re, a.im - b.im)
  }

  function Times(a: Complex, b: Complex): Complex
  {
    Complex(a.re * b.re - a.im * b.im, a.re * b.im + a.im * b.re)
  }

  function Negative(a: Complex): Complex
  {
    Complex(-a.re, -a.im)
  }

  function Conj(a: Complex): Complex
  {
    Complex(a.re, -a.im)
  }

  // ---------------------------------------------------------------------
  // Canonical indices and the storage layout.
  // ---------------------------------------------------------------------

  /** The check the read accessor makes (MatrixField.h:122-125): |alpha| <= 1
      and |beta| <= 1. The writing accessor and the component view pass the
      pair to Offset and Index unchecked. */
  predicate IsCanonical(alpha: int, beta: int)
  {
    Abs(alpha) <= 1 && Abs(beta) <= 1
  }

  /** The number of component (alpha, beta): its block of the storage. */
  function ComponentNumber(alpha: int, beta: int): int
  {
    3 * (alpha + 1) + (beta + 1)
  }

  /** The nine canonical pairs in lexicographic order; the pair at position k
      is the one whose component number is k. */
  function CanonicalIndices(): (r: seq<(int, int)>)
    ensures |r| == 9
    ensures forall k :: 0 <= k < 9 ==>
      IsCanonical(r[k].0, r[k].1) && ComponentNumber(r[k].0, r[k].1) == k
  {
    var r := CartesianProduct(Iota(-1, 2), Iota(-1, 2));
    forall k | 0 <= k < 9
      ensures IsCanonical(r[k].0, r[k].1) && ComponentNumber(r[k].0, r[k].1) == k
    {
      assert k == RowMajor(k / 3, k % 3, 3, 3);
    }
    r
  }

  /** Every canonical pair has a component number in [0, 9), and the
      enumeration lists it at that position; so the nine pairs are distinct,
      as are their component numbers. */
  lemma CanonicalPosition(alpha: int, beta: int)
    requires IsCanonical(alpha, beta)
    ensures 0 <= ComponentNumber(alpha, beta) < 9
    ensures CanonicalIndices()[ComponentNumber(alpha, beta)] == (alpha, beta)
  {
    var r := CanonicalIndices();
    var k := ComponentNumber(alpha, beta);
    assert r[k] == r[RowMajor(alpha + 1, beta + 1, 3, 3)];
  }

  /** The number of stored values at each point's entry of one component. */
  function ComponentSize(g: Grid): nat
  {
    FieldSize(g)
  }

  /** The number of stored values of a matrix field: nine components. */
  function Size(g: Grid): nat
  {
    9 * FieldSize(g)
  }

  /** Where the block of component (alpha, beta) starts, computed for any
      pair as the unchecked writers do; a canonical pair's block lies inside
      the storage (UncheckedOffset says where the other pairs land). */
  function Offset(g: Grid, alpha: int, beta: int): (r: int)
    ensures IsCanonical(alpha, beta) ==> 0 <= r && r + ComponentSize(g) <= Size(g)
  {
    var c := ComponentNumber(alpha, beta);
    assert IsCanonical(alpha, beta) ==>
      0 <= c * ComponentSize(g) && c * ComponentSize(g) + ComponentSize(g) <= 9 * ComponentSize(g);
    c * ComponentSize(g)
  }

  /** A pair that fails IsCanonical, which the writing accessor and the
      component view accept, addresses the block of a different, canonical
      pair when its component number lies in [0, 9) -- (-1, 2) reaches the
      block of (0, -1) -- and otherwise a block that lies wholly outside the
      storage, as (2, 0) does at 10 * ComponentSize. */
  lemma UncheckedOffset(g: Grid, alpha: int, beta: int)
    requires !IsCanonical(alpha, beta)
    ensures 0 <= ComponentNumber(alpha, beta) < 9 ==>
      var p := CanonicalIndices()[ComponentNumber(alpha, beta)];
      p != (alpha, beta) && Offset(g, p.0, p.1) == Offset(g, alpha, beta)
    ensures !(0 <= ComponentNumber(alpha, beta) < 9) ==>
      Offset(g, alpha, beta) + ComponentSize(g) <= 0 || Size(g) <= Offset(g, alpha, beta)
  {
    var c, n := ComponentNumber(alpha, beta), ComponentSize(g);
    if c < 0 {
      assert (c + 1) * n <= 0;
    } else if 9 <= c {
      assert (c - 9) * n >= 0;
    }
  }

  /** The storage index the accessors compute for entry (alpha, beta) at
      (iTheta, iPhi), whatever the pair and the point: at a grid point it is
      the block's start plus the point's row-major position, and for a
      canonical pair it then lies inside the (alpha, beta) block. */
  function Index(g: Grid, alpha: int, beta: int, iTheta: int, iPhi: int): (r: int)
    ensures InGrid(g, iTheta, iPhi) ==> r == Offset(g, alpha, beta) + PointPosition(g, iTheta, iPhi)
    ensures IsCanonical(alpha, beta) && InGrid(g, iTheta, iPhi) ==>
      0 <= Offset(g, alpha, beta) <= r < Offset(g, alpha, beta) + ComponentSize(g) <= Size(g)
  {
    Offset(g, alpha, beta) + iTheta * NumberOfLongitudes(g) + iPhi
  }

  /** The storage index is the row-major position of (component, point) in a
      9-by-FieldSize table. */
  lemma IndexIsRowMajor(g: Grid, alpha: int, beta: int, iTheta: int, iPhi: int)
    requires IsCanonical(alpha, beta) && InGrid(g, iTheta, iPhi)
    ensures 0 <= ComponentNumber(alpha, beta) < 9
    ensures Index(g, alpha, beta, iTheta, iPhi)
         == RowMajor(ComponentNumber(alpha, beta), PointPosition(g, iTheta, iPhi), 9, FieldSize(g))
  {
    CanonicalPosition(alpha, beta);
  }

  /** Distinct entries are stored at distinct indices. */
  lemma IndexInjective(g: Grid, alpha: int, beta: int, iTheta: int, iPhi: int,
                       alpha': int, beta': int, iTheta': int, iPhi': int)
    requires IsCanonical(alpha, beta) && InGrid(g, iTheta, iPhi)
    requires IsCanonical(alpha', beta') && InGrid(g, iTheta', iPhi')
    requires Index(g, alpha, beta, iTheta, iPhi) == Index(g, alpha', beta', iTheta', iPhi')
    ensures alpha == alpha' && beta == beta' && iTheta == iTheta' && iPhi == iPhi'
  {
    IndexIsRowMajor(g, alpha, beta, iTheta, iPhi);
    IndexIsRowMajor(g, alpha', beta', iTheta', iPhi');
    var j := Index(g, alpha, beta, iTheta, iPhi);
    RowAndColumnOfRowMajor(ComponentNumber(alpha, beta), PointPosition(g, iTheta, iPhi), 9, FieldSize(g));
    RowAndColumnOfRowMajor(ComponentNumber(alpha', beta'), PointPosition(g, iTheta', iPhi'), 9, FieldSize(g));
    CanonicalPosition(alpha, beta);
    CanonicalPosition(alpha', beta');
    PointPositionInjective(g, iTheta, iPhi, iTheta', iPhi');
  }

  /** The entry stored at index j: the nine blocks tile [0, Size), so every
      index is the Index of exactly one entry (with IndexInjective). */
  function Slot(g: Grid, j: nat): (s: (int, int, int, int))
    requires j < Size(g)
    ensures IsCanonical(s.0, s.1) && InGrid(g, s.2, s.3)
    ensures Index(g, s.0, s.1, s.2, s.3) == j
  {
    var c, k := RowOf(j, 9, FieldSize(g)), ColumnOf(j, 9, FieldSize(g));
    RowMajorOfRowAndColumn(j, 9, FieldSize(g));
    PositionIsPoint(g, k);
    var (alpha, beta) := CanonicalIndices()[c];
    var (iTheta, iPhi) := PointIndices(g)[k];
    (alpha, beta, iTheta, iPhi)
  }

  // ---------------------------------------------------------------------
  // Fields as values: a grid and an entry for each (alpha, beta, iTheta, iPhi).
  // ---------------------------------------------------------------------

  /** Any matrix field, stored or computed on demand: its grid and its entries. */
  datatype Field<S> = Field(grid: Grid, entry: (int, int, int, int) -> S)

  /** The storage of a field whose entries are f, in the stored layout. */
  function Storage<S>(g: Grid, f: (int, int, int, int) -> S): (r: seq<S>)
    ensures |r| == Size(g)
  {
    seq(Size(g), j requires 0 <= j < Size(g) => var s := Slot(g, j); f(s.0, s.1, s.2, s.3))
  }

  /** Entry (alpha, beta, iTheta, iPhi) of f sits at its Index in the storage. */
  lemma StorageAt<S>(g: Grid, f: (int, int, int, int) -> S, alpha: int, beta: int, iTheta: int, iPhi: int)
    requires IsCanonical(alpha, beta) && InGrid(g, iTheta, iPhi)
    ensures Storage(g, f)[Index(g, alpha, beta, iTheta, iPhi)] == f(alpha, beta, iTheta, iPhi)
  {
    var j := Index(g, alpha, beta, iTheta, iPhi);
    var s := Slot(g, j);
    IndexInjective(g, alpha, beta, iTheta, iPhi, s.0, s.1, s.2, s.3);
  }

  /** The storage of a field whose component number c is the constant u[c]. */
  function ComponentStorage<S>(g: Grid, u: seq<S>): (r: seq<S>)
    requires |u| == 9
    ensures |r| == Size(g)
  {
    seq(Size(g), j requires 0 <= j < Size(g) => u[RowOf(j, 9, FieldSize(g))])
  }

  /** Every entry of component (alpha, beta) of that storage is u at the
      pair's position in the canonical enumeration. */
  lemma ComponentStorageAt<S>(g: Grid, u: seq<S>, alpha: int, beta: int, iTheta: int, iPhi: int)
    requires |u| == 9
    requires IsCanonical(alpha, beta) && InGrid(g, iTheta, iPhi)
    ensures 0 <= ComponentNumber(alpha, beta) < 9
    ensures CanonicalIndices()[ComponentNumber(alpha, beta)] == (alpha, beta)
    ensures ComponentStorage(g, u)[Index(g, alpha, beta, iTheta, iPhi)] == u[ComponentNumber(alpha, beta)]
  {
    CanonicalPosition(alpha, beta);
    IndexIsRowMajor(g, alpha, beta, iTheta, iPhi);
    RowAndColumnOfRowMajor(ComponentNumber(alpha, beta), PointPosition(g, iTheta, iPhi), 9, FieldSize(g));
  }

  // ---------------------------------------------------------------------
  // Complexification and realification.
  // ---------------------------------------------------------------------

  /** Entry (alpha, beta) of the complexification of the real field u: u(0, 0)
      at 3 alpha + beta = 0, u(alpha, beta) + i u(-alpha, -beta) above it and
      u(-alpha, -beta) - i u(alpha, beta) below it. */
  function ComplexifiedEntry(u: (int, int, int, int) -> real, alpha: int, beta: int, iTheta: int, iPhi: int): (c: Complex)
    ensures 3 * alpha + beta == 0 ==> c == Complex(u(0, 0, iTheta, iPhi), 0.0)
    ensures 3 * alpha + beta > 0 ==> c == Complex(u(alpha, beta, iTheta, iPhi), u(-alpha, -beta, iTheta, iPhi))
    ensures 3 * alpha + beta < 0 ==> c == Complex(u(-alpha, -beta, iTheta, iPhi), -u(alpha, beta, iTheta, iPhi))
  {
    var index := 3 * alpha + beta;
    if index < 0 then
      Minus(FromReal(u(-alpha, -beta, iTheta, iPhi)), Times(ImaginaryUnit, FromReal(u(alpha, beta, iTheta, iPhi))))
    else if index == 0 then
      FromReal(u(0, 0, iTheta, iPhi))
    else
      Plus(FromReal(u(alpha, beta, iTheta, iPhi)), Times(ImaginaryUnit, FromReal(u(-alpha, -beta, iTheta, iPhi))))
  }

  /** complex(u): the complex field on u's grid with those entries. */
  function Complexified(u: Field<real>): Field<Complex>
  {
    Field(u.grid, (alpha, beta, iTheta, iPhi) => ComplexifiedEntry(u.entry, alpha, beta, iTheta, iPhi))
  }

  /** Entry (alpha, beta) of the realification of the complex field v: the
      real part of v(0, 0), half the real part of v(alpha, beta) + v(-alpha, -beta)
      above 3 alpha + beta = 0, and half the imaginary part of
      v(-alpha, -beta) - v(alpha, beta) below it. */
  function RealifiedEntry(v: (int, int, int, int) -> Complex, alpha: int, beta: int, iTheta: int, iPhi: int): (r: real)
    ensures 3 * alpha + beta == 0 ==> r == v(0, 0, iTheta, iPhi).re
    ensures 3 * alpha + beta > 0 ==> 2.0 * r == v(alpha, beta, iTheta, iPhi).re + v(-alpha, -beta, iTheta, iPhi).re
    ensures 3 * alpha + beta < 0 ==> 2.0 * r == v(-alpha, -beta, iTheta, iPhi).im - v(alpha, beta, iTheta, iPhi).im
  {
    var half := 1.0 / 2.0;
    var index := 3 * alpha + beta;
    if index < 0 then
      half * Minus(v(-alpha, -beta, iTheta, iPhi), v(alpha, beta, iTheta, iPhi)).im
    else if index == 0 then
      v(0, 0, iTheta, iPhi).re
    else
      half * Plus(v(alpha, beta, iTheta, iPhi), v(-alpha, -beta, iTheta, iPhi)).re
  }

  /** real(v): the real field on v's grid with those entries. */
  function Realified(v: Field<Complex>): Field<real>
  {
    Field(v.grid, (alpha, beta, iTheta, iPhi) => RealifiedEntry(v.entry, alpha, beta, iTheta, iPhi))
  }

  /** A complex field whose entries at (alpha, beta) and (-alpha, -beta) are
      complex conjugates (so the (0, 0) entry is real). */
  ghost predicate ConjugateSymmetric(v: Field<Complex>)
  {
    forall alpha, beta, iTheta, iPhi :: IsCanonical(alpha, beta) ==>
      v.entry(-alpha, -beta, iTheta, iPhi) == Conj(v.entry(alpha, beta, iTheta, iPhi))
  }

  /** The entries of a complexified field at (alpha, beta) and (-alpha, -beta)
      are complex conjugates. */
  lemma ComplexifiedConjugate(u: Field<real>, alpha: int, beta: int, iTheta: int, iPhi: int)
    ensures Complexified(u).entry(-alpha, -beta, iTheta, iPhi) == Conj(Complexified(u).entry(alpha, beta, iTheta, iPhi))
  {
  }

  lemma ComplexifiedIsConjugateSymmetric(u: Field<real>)
    ensures ConjugateSymmetric(Complexified(u))
  {
    forall alpha, beta, iTheta, iPhi | IsCanonical(alpha, beta)
      ensures Complexified(u).entry(-alpha, -beta, iTheta, iPhi) == Conj(Complexified(u).entry(alpha, beta, iTheta, iPhi))
    {
      ComplexifiedConjugate(u, alpha, beta, iTheta, iPhi);
    }
  }

  /** real(complex(u)) == u: realification undoes complexification at every
      canonical entry, on the same grid. */
  lemma RealOfComplex(u: Field<real>, alpha: int, beta: int, iTheta: int, iPhi: int)
    requires IsCanonical(alpha, beta)
    ensures Realified(Complexified(u)).grid == u.grid
    ensures Realified(Complexified(u)).entry(alpha, beta, iTheta, iPhi) == u.entry(alpha, beta, iTheta, iPhi)
  {
    var c := Complexified(u).entry;
    if 3 * alpha + beta == 0 {
      assert alpha == 0 && beta == 0;
    } else {
      assert c(alpha, beta, iTheta, iPhi) == ComplexifiedEntry(u.entry, alpha, beta, iTheta, iPhi);
      assert c(-alpha, -beta, iTheta, iPhi) == ComplexifiedEntry(u.entry, -alpha, -beta, iTheta, iPhi);
    }
  }

  /** complex(real(v)) == v exactly for the conjugate-symmetric fields v, which
      are thus the complexifications of real fields. */
  lemma ComplexOfReal(v: Field<Complex>)
    ensures ConjugateSymmetric(v) <==>
      forall alpha, beta, iTheta, iPhi :: IsCanonical(alpha, beta) ==>
        Complexified(Realified(v)).entry(alpha, beta, iTheta, iPhi) == v.entry(alpha, beta, iTheta, iPhi)
  {
    var w := Complexified(Realified(v));
    if ConjugateSymmetric(v) {
      forall alpha, beta, iTheta, iPhi | IsCanonical(alpha, beta)
        ensures w.entry(alpha, beta, iTheta, iPhi) == v.entry(alpha, beta, iTheta, iPhi)
      {
        ComplexOfRealAt(v, alpha, beta, iTheta, iPhi);
      }
    }
    if forall alpha, beta, iTheta, iPhi :: IsCanonical(alpha, beta) ==>
         w.entry(alpha, beta, iTheta, iPhi) == v.entry(alpha, beta, iTheta, iPhi) {
      forall alpha, beta, iTheta, iPhi | IsCanonical(alpha, beta)
        ensures v.entry(-alpha, -beta, iTheta, iPhi) == Conj(v.entry(alpha, beta, iTheta, iPhi))
      {
        assert w.entry(alpha, beta, iTheta, iPhi) == v.entry(alpha, beta, iTheta, iPhi);
        assert w.entry(-alpha, -beta, iTheta, iPhi) == v.entry(-alpha, -beta, iTheta, iPhi);
        ComplexifiedConjugate(Realified(v), alpha, beta, iTheta, iPhi);
      }
    }
  }

  /** One canonical entry of complex(real(v)) for a conjugate-symmetric v. */
  lemma ComplexOfRealAt(v: Field<Complex>, alpha: int, beta: int, iTheta: int, iPhi: int)
    requires ConjugateSymmetric(v) && IsCanonical(alpha, beta)
    ensures Complexified(Realified(v)).entry(alpha, beta, iTheta, iPhi) == v.entry(alpha, beta, iTheta, iPhi)
  {
    var r := Realified(v).entry;
    assert v.entry(-alpha, -beta, iTheta, iPhi) == Conj(v.entry(alpha, beta, iTheta, iPhi));
    if 3 * alpha + beta == 0 {
      assert alpha == 0 && beta == 0;
    } else {
      assert r(alpha, beta, iTheta, iPhi) == RealifiedEntry(v.entry, alpha, beta, iTheta, iPhi);
      assert r(-alpha, -beta, iTheta, iPhi) == RealifiedEntry(v.entry, -alpha, -beta, iTheta, iPhi);
    }
  }

  // ---------------------------------------------------------------------
  // Pointwise unary maps.
  // ---------------------------------------------------------------------

  /** The field f(u): same grid, every entry mapped by f. */
  function Unary<S, T>(u: Field<S>, f: S -> T): Field<T>
  {
    Field(u.grid, (alpha, beta, iTheta, iPhi) => f(u.entry(alpha, beta, iTheta, iPhi)))
  }

  /** -u for a real field. */
  function Negated(u: Field<real>): Field<real>
  {
    Unary(u, x => -x)
  }

  /** -u for a complex field. */
  function NegatedComplex(v: Field<Complex>): Field<Complex>
  {
    Unary(v, Negative)
  }

  /** -u has u's grid and the negated entries, and negating twice gives u back. */
  lemma NegatedEntries(u: Field<real>, alpha: int, beta: int, iTheta: int, iPhi: int)
    ensures Negated(u).grid == u.grid
    ensures Negated(u).entry(alpha, beta, iTheta, iPhi) == -u.entry(alpha, beta, iTheta, iPhi)
    ensures Negated(Negated(u)).entry(alpha, beta, iTheta, iPhi) == u.entry(alpha, beta, iTheta, iPhi)
  {
  }

  /** Negation commutes with complexification: complex(-u) == -complex(u). */
  lemma ComplexifiedOfNegated(u: Field<real>, alpha: int, beta: int, iTheta: int, iPhi: int)
    ensures Complexified(Negated(u)).grid == NegatedComplex(Complexified(u)).grid
    ensures Complexified(Negated(u)).entry(alpha, beta, iTheta, iPhi)
         == NegatedComplex(Complexified(u)).entry(alpha, beta, iTheta, iPhi)
  {
    assert Complexified(Negated(u)).entry(alpha, beta, iTheta, iPhi)
        == ComplexifiedEntry(Negated(u).entry, alpha, beta, iTheta, iPhi);
    assert Complexified(u).entry(alpha, beta, iTheta, iPhi) == ComplexifiedEntry(u.entry, alpha, beta, iTheta, iPhi);
  }

  // ---------------------------------------------------------------------
  // A field that stores its values.
  // ---------------------------------------------------------------------

  /** The canonical blocks follow one another from index 0: the block of the
      pair at position i ends where the next one begins, and the last one
      ends the storage. */
  lemma NextOffset(g: Grid, i: int)
    requires 0 <= i < 9
    ensures IsCanonical(CanonicalIndices()[i].0, CanonicalIndices()[i].1)
    ensures i == 0 ==> Offset(g, CanonicalIndices()[0].0, CanonicalIndices()[0].1) == 0
    ensures Offset(g, CanonicalIndices()[i].0, CanonicalIndices()[i].1) + ComponentSize(g)
         == if i < 8 then Offset(g, CanonicalIndices()[i + 1].0, CanonicalIndices()[i + 1].1) else Size(g)
  {
    var c := ComponentSize(g);
    assert i * c + c == (i + 1) * c;
  }

  /** Two sequences of the same length with the same entries are equal. */
  lemma SameEntries<S>(a: seq<S>, b: seq<S>)
    requires |a| == |b| && forall j :: 0 <= j < |a| ==> a[j] == b[j]
    ensures a == b
  {
  }

  /** A matrix field that owns its storage of Size(grid) values. */
  class MatrixField<S> {
    const grid: Grid
    const data: array<S>

    ghost predicate Valid()
      reads this
    {
      data.Length == Size(grid)
    }

    /** A field on grid with every value initialised to zero (the scalar
        type's zero is passed in, the model being generic in it). */
    constructor (grid: Grid, zero: S)
      ensures this.grid == grid && Valid() && fresh(data)
      ensures data[..] == seq(Size(grid), _ => zero)
    {
      this.grid := grid;
      data := new S[Size(grid)](_ => zero);
    }

    /** A field whose component at canonical position i is the constant u[i]. */
    constructor FromComponents(grid: Grid, zero: S, u: seq<S>)
      requires |u| == 9
      ensures this.grid == grid && Valid() && fresh(data)
      ensures data[..] == ComponentStorage(grid, u)
    {
      this.grid := grid;
      data := new S[Size(grid)](_ => zero);
      new;
      AssignComponents(u);
    }

    /** Assign u[i] to every value of the i-th canonical component in turn. */
    method AssignComponents(u: seq<S>)
      requires Valid() && |u| == 9
      modifies data
      ensures data[..] == ComponentStorage(grid, u)
    {
      ghost var target := ComponentStorage(grid, u);
      var indices := CanonicalIndices();
      var size := ComponentSize(grid);
      var i, done := 0, 0;
      NextOffset(grid, 0);
      while i < 9
        invariant 0 <= i <= 9 && done <= Size(grid)
        invariant i < 9 ==> Offset(grid, indices[i].0, indices[i].1) == done
        invariant i == 9 ==> done == Size(grid)
        invariant forall j :: 0 <= j < done ==> data[j] == target[j]
      {
        var (alpha, beta) := indices[i];
        NextOffset(grid, i);
        AssignComponent(u, i, alpha, beta);
        i, done := i + 1, done + size;
      }
      SameEntries(data[..], target);
    }

    /** The inner step of AssignComponents: every value of the block of
        component (alpha, beta), the i-th canonical pair, becomes u[i]. */
    method AssignComponent(u: seq<S>, i: int, alpha: int, beta: int)
      requires Valid() && |u| == 9 && 0 <= i < 9
      requires IsCanonical(alpha, beta) && ComponentNumber(alpha, beta) == i
      requires forall j :: 0 <= j < Offset(grid, alpha, beta) ==> data[j] == ComponentStorage(grid, u)[j]
      modifies data
      ensures forall j :: 0 <= j < Offset(grid, alpha, beta) + ComponentSize(grid) ==>
        data[j] == ComponentStorage(grid, u)[j]
    {
      ghost var target := ComponentStorage(grid, u);
      var size := ComponentSize(grid);
      var start := Offset(grid, alpha, beta);
      var k := 0;
      while k < size
        invariant 0 <= k <= size
        invariant forall j :: 0 <= j < start + k ==> data[j] == target[j]
      {
        RowAndColumnOfRowMajor(i, k, 9, size);
        data[start + k] := u[i];
        k := k + 1;
      }
    }

    /** Assignment from another field of the same size: every entry, visited
        component by component and point by point, becomes the other's. The
        other field is a value, read as it was before the assignment. */
    method CopyValues(other: Field<S>)
      requires Valid() && Size(other.grid) == Size(grid)
      modifies data
      ensures data[..] == Storage(grid, other.entry)
    {
      ghost var target := Storage(grid, other.entry);
      var indices := CanonicalIndices();
      var size := ComponentSize(grid);
      var i, done := 0, 0;
      NextOffset(grid, 0);
      while i < 9
        invariant 0 <= i <= 9 && done <= Size(grid)
        invariant i < 9 ==> Offset(grid, indices[i].0, indices[i].1) == done
        invariant i == 9 ==> done == Size(grid)
        invariant forall j :: 0 <= j < done ==> data[j] == target[j]
      {
        var (alpha, beta) := indices[i];
        NextOffset(grid, i);
        CopyComponent(other, alpha, beta);
        i, done := i + 1, done + size;
      }
      SameEntries(data[..], target);
    }

    /** The inner loop of CopyValues: the values of component (alpha, beta),
        whose block follows the blocks already copied. */
    method CopyComponent(other: Field<S>, alpha: int, beta: int)
      requires Valid() && IsCanonical(alpha, beta)
      requires forall j :: 0 <= j < Offset(grid, alpha, beta) ==> data[j] == Storage(grid, other.entry)[j]
      modifies data
      ensures forall j :: 0 <= j < Offset(grid, alpha, beta) + ComponentSize(grid) ==>
        data[j] == Storage(grid, other.entry)[j]
    {
      ghost var target := Storage(grid, other.entry);
      var points := PointIndices(grid);
      var start := Offset(grid, alpha, beta);
      var k := 0;
      while k < |points|
        invariant 0 <= k <= |points|
        invariant forall j :: 0 <= j < start + k ==> data[j] == target[j]
      {
        var (iTheta, iPhi) := points[k];
        PositionIsPoint(grid, k);
        StorageAt(grid, other.entry, alpha, beta, iTheta, iPhi);
        data[Index(grid, alpha, beta, iTheta, iPhi)] := other.entry(alpha, beta, iTheta, iPhi);
        k := k + 1;
      }
    }

    /** Element access, for canonical (alpha, beta) at a grid point: the value
        in block (alpha, beta) at the point's row-major position. */
    function At(alpha: int, beta: int, iTheta: int, iPhi: int): (r: S)
      reads this, data
      requires Valid() && IsCanonical(alpha, beta) && InGrid(grid, iTheta, iPhi)
      ensures r == data[Offset(grid, alpha, beta) + PointPosition(grid, iTheta, iPhi)]
    {
      data[Index(grid, alpha, beta, iTheta, iPhi)]
    }

    /** This field as a value, read as the accessor reads it: for canonical
        (alpha, beta), the value at Index on this field's own grid whenever
        that index falls inside the storage, a point off the grid included.
        fill stands for the reads the accessor's checks refuse and for those
        that fall outside the storage. */
    function AsField(fill: S): (u: Field<S>)
      reads this, data
      requires Valid()
      ensures u.grid == grid
      ensures forall alpha, beta, iTheta, iPhi ::
        IsCanonical(alpha, beta) && 0 <= Index(grid, alpha, beta, iTheta, iPhi) < data.Length ==>
        u.entry(alpha, beta, iTheta, iPhi) == data[Index(grid, alpha, beta, iTheta, iPhi)]
      ensures forall alpha, beta, iTheta, iPhi :: IsCanonical(alpha, beta) && InGrid(grid, iTheta, iPhi) ==>
        u.entry(alpha, beta, iTheta, iPhi) == At(alpha, beta, iTheta, iPhi)
    {
      var values := data[..];
      Field(grid, (alpha, beta, iTheta, iPhi) =>
        if IsCanonical(alpha, beta) && 0 <= Index(grid, alpha, beta, iTheta, iPhi) < |values|
        then values[Index(grid, alpha, beta, iTheta, iPhi)] else fill)
    }
  }

  /** After CopyValues(other), element access returns other's entries, and
      after FromComponents(u), component (alpha, beta) holds u at the pair's
      canonical position. */
  lemma CopiedEntries<S>(m: MatrixField<S>, other: Field<S>, alpha: int, beta: int, iTheta: int, iPhi: int)
    requires m.Valid() && m.data[..] == Storage(m.grid, other.entry)
    requires IsCanonical(alpha, beta) && InGrid(m.grid, iTheta, iPhi)
    ensures m.At(alpha, beta, iTheta, iPhi) == other.entry(alpha, beta, iTheta, iPhi)
  {
    StorageAt(m.grid, other.entry, alpha, beta, iTheta, iPhi);
    assert m.data[Index(m.grid, alpha, beta, iTheta, iPhi)] == m.data[..][Index(m.grid, alpha, beta, iTheta, iPhi)];
  }

  // ---------------------------------------------------------------------
  // Assignment between grids of equal size but different shape.
  // ---------------------------------------------------------------------

  /** Two grids with the same numbers of colatitudes and of longitudes. */
  predicate SameShape(g: Grid, h: Grid)
  {
    NumberOfCoLatitudes(g) == NumberOfCoLatitudes(h) && NumberOfLongitudes(g) == NumberOfLongitudes(h)
  }

  /** Assignment from a field expression checks only that the two sizes agree
      and then reads the other field at this grid's points. (Assigning a
      stored field of the same type instead takes the defaulted copy
      assignment, which replaces grid and storage.) Let m be a stored field on
      a 2 x 3 grid and the target one on a 3 x 2 grid. The other field may be
      m itself, stored on another grid class, whose reads are m.AsField(fill).
      It may also be a view of m, such as -m, whose reads are those of
      m.AsField(fill) mapped entrywise by f. Either passes the size check,
      yet point (2, 0) of component (-1, -1) receives the reading of m at
      point (0, 0) of component (-1, 0), and point (2, 1) of component (1, 1)
      reads beyond m's storage. */
  lemma CopyAcrossShapesMisreads<S, T>(g: Grid, m: MatrixField<S>, fill: S, f: S -> T)
    requires m.Valid()
    requires NumberOfCoLatitudes(g) == 3 && NumberOfLongitudes(g) == 2
    requires NumberOfCoLatitudes(m.grid) == 2 && NumberOfLongitudes(m.grid) == 3
    ensures Size(g) == Size(m.grid) && !SameShape(g, m.grid)
    ensures InGrid(g, 2, 0) && InGrid(g, 2, 1)
    ensures Storage(g, m.AsField(fill).entry)[Index(g, -1, -1, 2, 0)] == m.At(-1, 0, 0, 0)
    ensures Storage(g, Unary(m.AsField(fill), f).entry)[Index(g, -1, -1, 2, 0)] == f(m.At(-1, 0, 0, 0))
    ensures Index(m.grid, 1, 1, 2, 1) == Size(m.grid) + 1
  {
    StorageAt(g, m.AsField(fill).entry, -1, -1, 2, 0);
    StorageAt(g, Unary(m.AsField(fill), f).entry, -1, -1, 2, 0);
    assert Index(m.grid, -1, -1, 2, 0) == 6;
  }

  /** When the shapes agree, assignment from a stored field copies its storage
      verbatim: every value lands at the index it had. */
  lemma CopySameShape<S>(g: Grid, m: MatrixField<S>, fill: S)
    requires m.Valid() && SameShape(g, m.grid)
    ensures Storage(g, m.AsField(fill).entry) == m.data[..]
  {
    var u := m.AsField(fill);
    forall j | 0 <= j < Size(g)
      ensures Storage(g, u.entry)[j] == m.data[j]
    {
      var s := Slot(g, j);
      assert Index(m.grid, s.0, s.1, s.2, s.3) == Index(g, s.0, s.1, s.2, s.3);
    }
  }
}
