/** The triangular index scheme of a Wigner table for one upper index n:
    degrees |n| <= l <= lMax, orders up to min(l, mMax) in absolute value (or
    0..min(l, mMax) when only non-negative orders are stored), laid out degree
    after degree, and whole columns for successive angles one after another. */
module WignerIndex {
  import opened Tags

  /** The dimensions of a table: maximum degree, maximum order, upper index,
      number of angles, and which orders are stored. */
  datatype Shape = Shape(lMax: int, mMax: int, n: int, nTheta: int, orders: OrderRange)

  /** What the constructors assert (lMax >= 0, 0 <= mMax <= lMax); the number of
      angles is a container size and so never negative. */
  predicate ConstructorAsserts(s: Shape)
  {
    s.lMax >= 0 && 0 <= s.mMax <= s.lMax && s.nTheta >= 0
  }

  /** The shapes the model's constructors accept: the constructors'
      assertions together with |n| <= mMax, under which the index scheme and
      the recursion are sound. The library also handles lMax = |n| = mMax + 1
      correctly (only degree |n| is stored and no recursion step runs), which
      this predicate leaves out. */
  predicate ValidShape(s: Shape)
  {
    ConstructorAsserts(s) && Abs(s.n) <= s.mMax
  }

  /** Count(l), as the library computes it in closed form: the number of values
      stored for all degrees |n|..l together (cumulative, not per degree). */
  function Count(s: Shape, l: int): int
  {
    var nabs := Abs(s.n);
    if l < nabs then 0
    else if s.orders == All then
      if l <= s.mMax then (l + 1) * (l + 1) - nabs * nabs
      else (s.mMax + 1) * (s.mMax + 1) - nabs * nabs + (l - s.mMax) * (2 * s.mMax + 1)
    else
      if l <= s.mMax then ((l + 1) * (l + 2)) / 2 - (nabs * (nabs + 1)) / 2
      else ((s.mMax + 1) * (s.mMax + 2)) / 2 - (nabs * (nabs + 1)) / 2 + (l - s.mMax) * (s.mMax + 1)
  }

  /** Total number of values in one angle's column (Count() of the library). */
  function Total(s: Shape): int
  {
    BlockSum(s, s.lMax)
  }

  /** Number of orders stored at degree l (reference definition). */
  function BlockSize(s: Shape, l: int): int
  {
    if s.orders == All then 2 * Min(l, s.mMax) + 1 else Min(l, s.mMax) + 1
  }

  /** Reference definition of the cumulative count: the sum of the block sizes
      of degrees |n|..l. */
  function BlockSum(s: Shape, l: int): int
    decreases if l < Abs(s.n) then 0 else l - Abs(s.n) + 1
  {
    if l < Abs(s.n) then 0 else BlockSum(s, l - 1) + BlockSize(s, l)
  }

  /** The (l, m) pairs a table holds: what the accessors assert. */
  predicate ValidSlot(s: Shape, l: int, m: int)
  {
    Abs(s.n) <= l <= s.lMax &&
    (if s.orders == All then Abs(m) <= Min(l, s.mMax) else 0 <= m <= Min(l, s.mMax))
  }

  /** The lowest order stored at degree l. */
  function StartingOrder(s: Shape, l: int): int
    requires Abs(s.n) <= l <= s.lMax
  {
    if s.orders == All then -Min(l, s.mMax) else 0
  }

  // The iterators of the library, as offsets into the buffer. They are written
  // with the block sum, which equals the library's Count (CountIsBlockSum).
  function BeginForDegree(s: Shape, l: int): int { BlockSum(s, l - 1) }
  function EndForDegree(s: Shape, l: int): int { BlockSum(s, l) }
  /** Column i starts after i whole columns (i * Count() in the library, as
      BeginForAngleIsProduct shows). */
  function BeginForAngle(s: Shape, i: int): int
    decreases i
  {
    if i <= 0 then 0 else BeginForAngle(s, i - 1) + Total(s)
  }
  function EndForAngle(s: Shape, i: int): int { BeginForAngle(s, i + 1) }
  /** The buffer holds nTheta columns (Count() * nTheta in the library). */
  function BufferSize(s: Shape): int { BeginForAngle(s, s.nTheta) }
  function BeginForAngleAndDegree(s: Shape, i: int, l: int): int { BeginForAngle(s, i) + BlockSum(s, l - 1) }
  function EndForAngleAndDegree(s: Shape, i: int, l: int): int { BeginForAngle(s, i) + BlockSum(s, l) }

  // ---------------------------------------------------------------------
  // The closed form against the reference sum.
  // ---------------------------------------------------------------------

  lemma SquareStep(l: int)
    ensures (l + 1) * (l + 1) == l * l + (2 * l + 1)
  {
  }

  lemma TriangleStep(l: int)
    ensures ((l + 1) * (l + 2)) / 2 == (l * (l + 1)) / 2 + (l + 1)
  {
    assert (l + 1) * (l + 2) == l * (l + 1) + 2 * (l + 1);
  }

  lemma LinearStep(k: int, w: int)
    ensures (k + 1) * w == k * w + w
  {
  }

  lemma CountStepAllGrowing(s: Shape, l: int)
    requires ValidShape(s) && s.orders == All && Abs(s.n) <= l <= s.mMax
    ensures Count(s, l) == Count(s, l - 1) + BlockSize(s, l)
  {
    var nabs := Abs(s.n);
    SquareStep(l);
    if l == nabs {
      assert Count(s, l - 1) == 0;
    } else {
      assert Count(s, l - 1) == l * l - nabs * nabs;
    }
    assert Count(s, l) == (l + 1) * (l + 1) - nabs * nabs;
  }

  lemma CountStepNonNegativeGrowing(s: Shape, l: int)
    requires ValidShape(s) && s.orders == NonNegative && Abs(s.n) <= l <= s.mMax
    ensures Count(s, l) == Count(s, l - 1) + BlockSize(s, l)
  {
    var nabs := Abs(s.n);
    TriangleStep(l);
    if l == nabs {
      assert Count(s, l - 1) == 0;
    } else {
      assert Count(s, l - 1) == (l * (l + 1)) / 2 - (nabs * (nabs + 1)) / 2;
    }
    assert Count(s, l) == ((l + 1) * (l + 2)) / 2 - (nabs * (nabs + 1)) / 2;
  }

  lemma CountStepClipped(s: Shape, l: int)
    requires ValidShape(s) && s.mMax < l
    ensures Count(s, l) == Count(s, l - 1) + BlockSize(s, l)
  {
    var M := s.mMax;
    if l > M + 1 {
      LinearStep(l - 1 - M, if s.orders == All then 2 * M + 1 else M + 1);
    }
  }

  /** Each degree l >= |n| adds exactly its block to the closed form. */
  lemma CountStep(s: Shape, l: int)
    requires ValidShape(s) && Abs(s.n) <= l
    ensures Count(s, l) == Count(s, l - 1) + BlockSize(s, l)
  {
    if l > s.mMax {
      CountStepClipped(s, l);
    } else if s.orders == All {
      CountStepAllGrowing(s, l);
    } else {
      CountStepNonNegativeGrowing(s, l);
    }
  }

  /** The closed form equals the sum of the per-degree block sizes. */
  lemma {:induction false} CountIsBlockSum(s: Shape, l: int)
    requires ValidShape(s)
    ensures Count(s, l) == BlockSum(s, l)
    decreases if l < Abs(s.n) then 0 else l - Abs(s.n) + 1
  {
    if l >= Abs(s.n) {
      CountIsBlockSum(s, l - 1);
      CountStep(s, l);
    }
  }

  /** The block sum is never negative. */
  lemma {:induction false} BlockSumNonNegative(s: Shape, l: int)
    requires ValidShape(s)
    ensures BlockSum(s, l) >= 0
    decreases if l < Abs(s.n) then 0 else l - Abs(s.n) + 1
  {
    if l >= Abs(s.n) {
      BlockSumNonNegative(s, l - 1);
    }
  }

  /** The block sum grows with l, so earlier degree blocks lie before later ones. */
  lemma {:induction false} BlockSumMonotone(s: Shape, l1: int, l2: int)
    requires ValidShape(s) && l1 <= l2
    ensures 0 <= BlockSum(s, l1) <= BlockSum(s, l2)
    decreases l2 - l1
  {
    if l1 < l2 {
      BlockSumMonotone(s, l1, l2 - 1);
    } else {
      BlockSumNonNegative(s, l1);
    }
  }

  // ---------------------------------------------------------------------
  // Addressing one degree block, one column, and the whole buffer.
  // ---------------------------------------------------------------------

  /** The lowest stored order is the first valid one at degree l. */
  lemma StartingOrderIsLowest(s: Shape, l: int)
    requires ValidShape(s) && Abs(s.n) <= l <= s.lMax
    ensures ValidSlot(s, l, StartingOrder(s, l)) && !ValidSlot(s, l, StartingOrder(s, l) - 1)
    ensures forall m :: ValidSlot(s, l, m) <==> StartingOrder(s, l) <= m < StartingOrder(s, l) + BlockSize(s, l)
  {
  }

  /** Offset of (l, m) inside one column (the accessor without an angle). */
  function Offset(s: Shape, l: int, m: int): (r: int)
    requires ValidShape(s) && ValidSlot(s, l, m)
    ensures BeginForDegree(s, l) <= r < EndForDegree(s, l)
    ensures r == BeginForDegree(s, l) + (m - StartingOrder(s, l))
  {
    BlockSum(s, l - 1) + (if s.orders == All then Min(l, s.mMax) + m else m)
  }

  /** Offset of (i, l, m) in the whole buffer (the accessor with an angle). */
  function OffsetAt(s: Shape, i: int, l: int, m: int): (r: int)
    requires ValidShape(s) && 0 <= i < s.nTheta && ValidSlot(s, l, m)
    ensures 0 <= BeginForAngle(s, i) <= BeginForAngleAndDegree(s, i, l) <= r
    ensures r < EndForAngleAndDegree(s, i, l) <= EndForAngle(s, i) <= BufferSize(s)
    ensures r == BeginForAngleAndDegree(s, i, l) + (m - StartingOrder(s, l))
  {
    var o := Offset(s, l, m);
    BlockSumMonotone(s, l - 1, s.lMax);
    BlockSumMonotone(s, l, s.lMax);
    assert 0 <= o < Total(s);
    ColumnFits(s, i);
    BeginForAngle(s, i) + o
  }

  /** The i-th column offset is i times the column size. */
  lemma {:induction false} BeginForAngleIsProduct(s: Shape, i: int)
    requires i >= 0
    ensures BeginForAngle(s, i) == i * Total(s)
  {
    if i > 0 {
      BeginForAngleIsProduct(s, i - 1);
      LinearStep(i - 1, Total(s));
    }
  }

  /** Later columns start later. */
  lemma {:induction false} BeginForAngleMonotone(s: Shape, i: int, j: int)
    requires ValidShape(s) && 0 <= i <= j
    ensures 0 <= BeginForAngle(s, i) <= BeginForAngle(s, j)
    decreases j - i
  {
    BlockSumNonNegative(s, s.lMax);
    if i < j {
      BeginForAngleMonotone(s, i, j - 1);
    } else if i > 0 {
      BeginForAngleIsProduct(s, i);
    }
  }

  /** Column i ends where column i + 1 begins, and the last one ends at the end of the buffer. */
  lemma ColumnFits(s: Shape, i: int)
    requires ValidShape(s) && 0 <= i < s.nTheta
    ensures EndForAngle(s, i) == BeginForAngle(s, i) + Total(s)
    ensures 0 <= BeginForAngle(s, i) && EndForAngle(s, i) <= BufferSize(s)
  {
    BeginForAngleMonotone(s, i, i + 1);
    BeginForAngleMonotone(s, i + 1, s.nTheta);
  }

  /** The first column starts the buffer and is one column long. */
  lemma FirstColumn(s: Shape)
    ensures BeginForAngle(s, 0) == 0 && EndForAngle(s, 0) == Total(s)
  {
  }

  /** Distinct slots never share an offset. */
  lemma OffsetInjective(s: Shape, l1: int, m1: int, l2: int, m2: int)
    requires ValidShape(s) && ValidSlot(s, l1, m1) && ValidSlot(s, l2, m2)
    requires Offset(s, l1, m1) == Offset(s, l2, m2)
    ensures l1 == l2 && m1 == m2
  {
    if l1 < l2 {
      BlockSumMonotone(s, l1, l2 - 1);
    } else if l2 < l1 {
      BlockSumMonotone(s, l2, l1 - 1);
    }
  }

  /** Degree blocks tile [0, Total) with no gaps: every position in a column
      is the offset of some stored slot. */
  lemma {:induction false} SlotOf(s: Shape, l: int, k: int) returns (l': int, m: int)
    requires ValidShape(s) && Abs(s.n) <= l <= s.lMax && 0 <= k < BlockSum(s, l)
    ensures Abs(s.n) <= l' <= l && ValidSlot(s, l', m) && Offset(s, l', m) == k
    decreases l
  {
    if k >= BlockSum(s, l - 1) {
      l' := l;
      m := StartingOrder(s, l) + (k - BlockSum(s, l - 1));
    } else {
      l', m := SlotOf(s, l - 1, k);
    }
  }

  /** Every position of the buffer belongs to exactly one (angle, degree, order). */
  lemma OffsetAtInjective(s: Shape, i1: int, l1: int, m1: int, i2: int, l2: int, m2: int)
    requires ValidShape(s) && 0 <= i1 < s.nTheta && 0 <= i2 < s.nTheta
    requires ValidSlot(s, l1, m1) && ValidSlot(s, l2, m2)
    requires OffsetAt(s, i1, l1, m1) == OffsetAt(s, i2, l2, m2)
    ensures i1 == i2 && l1 == l2 && m1 == m2
  {
    ColumnFits(s, i1);
    ColumnFits(s, i2);
    if i1 < i2 {
      BeginForAngleMonotone(s, i1 + 1, i2);
    } else if i2 < i1 {
      BeginForAngleMonotone(s, i2 + 1, i1);
    }
    OffsetInjective(s, l1, m1, l2, m2);
  }
}
