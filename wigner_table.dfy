/** The Wigner table for one upper index: a buffer of nTheta columns, one per
    angle, each filled in place by ComputeValues, degree block after degree
    block, with iterators that walk the blocks of degrees l - 2, l - 1 and l. */
module WignerTable {
  import opened Tags
  import opened WignerIndex
  import opened WignerBoundary
  import opened WignerRecursion
  import opened WignerBlocks

  // ---------------------------------------------------------------------
  // What a buffer holds, stated on sequences.
  // ---------------------------------------------------------------------

  /** d and d' differ at most on positions lo..hi-1. */
  ghost predicate Agree(d: seq<Float>, d': seq<Float>, lo: int, hi: int)
  {
    |d| == |d'| && forall k {:trigger d'[k]} | 0 <= k < |d| && !(lo <= k < hi) :: d'[k] == d[k]
  }

  /** Degree block l of column i lies inside column i, inside the buffer. */
  lemma BlockInColumn(s: Shape, i: int, l: int)
    requires ValidShape(s) && 0 <= i < s.nTheta && l <= s.lMax
    ensures 0 <= BeginForAngle(s, i) <= BeginForAngleAndDegree(s, i, l) <= EndForAngleAndDegree(s, i, l)
    ensures EndForAngleAndDegree(s, i, l) <= EndForAngle(s, i) <= BufferSize(s)
    ensures BeginForAngleAndDegree(s, i, l + 1) == EndForAngleAndDegree(s, i, l)
  {
    ColumnFits(s, i);
    BlockSumMonotone(s, l - 1, l);
    BlockSumMonotone(s, l, s.lMax);
  }

  /** Degree block l of column i of the buffer d. */
  ghost function Block(s: Shape, d: seq<Float>, i: int, l: int): (r: seq<Float>)
    requires ValidShape(s) && 0 <= i < s.nTheta && |d| == BufferSize(s) && Abs(s.n) <= l <= s.lMax
    ensures |r| == BlockSize(s, l)
  {
    BlockInColumn(s, i, l);
    d[BeginForAngleAndDegree(s, i, l)..EndForAngleAndDegree(s, i, l)]
  }

  /** Position k of block l is position Begin(i, l) + k of the buffer. */
  lemma BlockAt(s: Shape, d: seq<Float>, i: int, l: int, k: int)
    requires ValidShape(s) && 0 <= i < s.nTheta && |d| == BufferSize(s) && Abs(s.n) <= l <= s.lMax
    requires 0 <= k < BlockSize(s, l)
    ensures 0 <= BeginForAngleAndDegree(s, i, l) + k < |d|
    ensures Block(s, d, i, l)[k] == d[BeginForAngleAndDegree(s, i, l) + k]
  {
    BlockInColumn(s, i, l);
  }

  /** A block keeps its contents across writes outside it. */
  lemma BlockKept(s: Shape, d: seq<Float>, d': seq<Float>, i: int, l: int, lo: int, hi: int)
    requires ValidShape(s) && 0 <= i < s.nTheta && |d| == BufferSize(s) && Abs(s.n) <= l <= s.lMax
    requires Agree(d, d', lo, hi)
    requires hi <= BeginForAngleAndDegree(s, i, l) || EndForAngleAndDegree(s, i, l) <= lo
    ensures Block(s, d', i, l) == Block(s, d, i, l)
  {
    BlockInColumn(s, i, l);
    var b, e := BeginForAngleAndDegree(s, i, l), EndForAngleAndDegree(s, i, l);
    assert forall k | 0 <= k < e - b :: d'[b..e][k] == d'[b + k] == d[b + k] == d[b..e][k];
  }

  /** A block whose positions hold v, one by one, is v. */
  lemma BlockFromPositions(s: Shape, d: seq<Float>, i: int, l: int, v: seq<Float>)
    requires ValidShape(s) && 0 <= i < s.nTheta && |d| == BufferSize(s) && Abs(s.n) <= l <= s.lMax
    requires |v| == BlockSize(s, l)
    requires forall k | 0 <= k < |v| :: 0 <= BeginForAngleAndDegree(s, i, l) + k < |d| &&
                                        d[BeginForAngleAndDegree(s, i, l) + k] == v[k]
    ensures Block(s, d, i, l) == v
  {
    forall k | 0 <= k < |v|
      ensures Block(s, d, i, l)[k] == v[k]
    {
      BlockAt(s, d, i, l, k);
    }
  }

  /** Degree l of the buffer scaled by the normalisation factor of degree l. */
  function NormalisedBlock(norm: Normalisation, l: int, v: seq<Float>): (r: seq<Float>)
    ensures |r| == |v|
  {
    seq(|v|, k requires 0 <= k < |v| => Normalised(norm, l, v[k]))
  }

  /** Raw tables keep the recursion's values. */
  lemma RawIsUnscaled(l: int, v: seq<Float>)
    ensures NormalisedBlock(Raw, l, v) == v
  {
  }

  /** Every slot (l, m) of column i holds the normalised value of the recursion. */
  ghost predicate ColumnDone(s: Shape, norm: Normalisation, a: AngleArgument, d: seq<Float>, i: int)
    requires ValidShape(s) && 0 <= i < s.nTheta && |d| == BufferSize(s)
  {
    forall l, m | ValidSlot(s, l, m) :: d[OffsetAt(s, i, l, m)] == Normalised(norm, l, ColumnValue(s, a, l, m))
  }

  /** A finished column stays finished while another column is computed. */
  lemma ColumnDoneKept(s: Shape, norm: Normalisation, a: AngleArgument, d: seq<Float>, d': seq<Float>, j: int, i: int)
    requires ValidShape(s) && 0 <= i < s.nTheta && 0 <= j < s.nTheta && i != j
    requires |d| == BufferSize(s)
    requires ColumnDone(s, norm, a, d, j) && Agree(d, d', BeginForAngle(s, i), EndForAngle(s, i))
    ensures ColumnDone(s, norm, a, d', j)
  {
    ColumnFits(s, i);
    ColumnFits(s, j);
    if j < i {
      BeginForAngleMonotone(s, j + 1, i);
    } else {
      BeginForAngleMonotone(s, i + 1, j);
    }
    forall l, m | ValidSlot(s, l, m)
      ensures d'[OffsetAt(s, j, l, m)] == Normalised(norm, l, ColumnValue(s, a, l, m))
    {
      var o := OffsetAt(s, j, l, m);
      assert d'[o] == d[o];
    }
  }

  // ---------------------------------------------------------------------
  // The square-root tables.
  // ---------------------------------------------------------------------

  /** t holds sqrt(k) at every index k of the table size (Wigner.h line 293). */
  ghost predicate RootTable(s: Shape, t: seq<Float>)
  {
    |t| == TableSize(s) && forall k | 0 <= k < |t| :: t[k] == SqInt(k)
  }

  /** t holds 1 / sqrt(k) at every index k > 0 of the table size, and 0 at 0
      (Wigner.h lines 294-300). */
  ghost predicate InverseRootTable(s: Shape, t: seq<Float>)
  {
    |t| == TableSize(s) && forall k | 0 <= k < |t| :: t[k] == SqIntInv(k)
  }

  method SquareRootTables(s: Shape) returns (sqInt: array<Float>, sqIntInv: array<Float>)
    requires ValidShape(s)
    ensures fresh(sqInt) && fresh(sqIntInv)
    ensures RootTable(s, sqInt[..]) && InverseRootTable(s, sqIntInv[..])
  {
    var size := s.lMax + s.mMax + 1;
    sqInt := new Float[size];
    sqIntInv := new Float[size];
    var k := 0;
    while k < size
      invariant 0 <= k <= size
      invariant forall j | 0 <= j < k :: sqInt[j] == SqInt(j)
    {
      sqInt[k] := Sqrt(I(k));
      k := k + 1;
    }
    k := 0;
    while k < size
      invariant 0 <= k <= size
      invariant forall j | 0 <= j < size :: sqInt[j] == SqInt(j)
      invariant forall j | 0 <= j < k :: sqIntInv[j] == SqIntInv(j)
    {
      var x := sqInt[k];
      sqIntInv[k] := if k > 0 then Div(I(1), x) else I(0);
      k := k + 1;
    }
  }

  // ---------------------------------------------------------------------
  // Runs of positions.
  // ---------------------------------------------------------------------

  /** d holds v at positions b, b + 1, ..., b + |v| - 1. */
  ghost predicate Holds(d: seq<Float>, b: int, v: seq<Float>)
  {
    0 <= b && b + |v| <= |d| && forall p | b <= p < b + |v| :: d[p] == v[p - b]
  }

  /** Block l of d is held at its own offset. */
  lemma BlockHolds(s: Shape, d: seq<Float>, i: int, l: int)
    requires ValidShape(s) && 0 <= i < s.nTheta && |d| == BufferSize(s) && Abs(s.n) <= l <= s.lMax
    ensures Holds(d, BeginForAngleAndDegree(s, i, l), Block(s, d, i, l))
  {
    var b, v := BeginForAngleAndDegree(s, i, l), Block(s, d, i, l);
    BlockInColumn(s, i, l);
    forall p | b <= p < b + |v|
      ensures d[p] == v[p - b]
    {
      BlockAt(s, d, i, l, p - b);
    }
  }

  /** A run of the block's length held at the block's offset is the block. */
  lemma BlockFromHolds(s: Shape, d: seq<Float>, i: int, l: int, v: seq<Float>)
    requires ValidShape(s) && 0 <= i < s.nTheta && |d| == BufferSize(s) && Abs(s.n) <= l <= s.lMax
    requires |v| == BlockSize(s, l) && Holds(d, BeginForAngleAndDegree(s, i, l), v)
    ensures Block(s, d, i, l) == v
  {
    forall k | 0 <= k < |v|
      ensures Block(s, d, i, l)[k] == v[k]
    {
      BlockAt(s, d, i, l, k);
    }
  }

  /** A run held before every changed position is still held. */
  lemma HoldsKept(d: seq<Float>, d': seq<Float>, lo: int, hi: int, b: int, v: seq<Float>)
    requires Holds(d, b, v) && Agree(d, d', lo, hi) && b + |v| <= lo
    ensures Holds(d', b, v)
  {
  }

  /** Three consecutive writes: d0 to d1 puts x (at most one value) at b,
      d1 to d2 puts y at p = b + |x|, d2 to d3 puts z (at most one value) at
      q = p + |y|; then d3 holds x ++ y ++ z from b on. */
  lemma ThreeWrites(d0: seq<Float>, d1: seq<Float>, d2: seq<Float>, d3: seq<Float>,
                    b: int, p: int, q: int, e: int, x: seq<Float>, y: seq<Float>, z: seq<Float>, w: seq<Float>)
    requires |x| <= 1 && |z| <= 1 && 0 <= b && p == b + |x| && q == p + |y| && e == q + |z| && e <= |d0|
    requires w == x + y + z
    requires d1 == (if |x| == 1 then d0[b := x[0]] else d0)
    requires Agree(d1, d2, p, q) && Holds(d2, p, y)
    requires d3 == (if |z| == 1 then d2[q := z[0]] else d2)
    ensures Agree(d0, d3, b, e) && Holds(d3, b, w)
  {
    forall r | b <= r < e
      ensures d3[r] == w[r - b]
    {
      if p <= r < q {
        assert d3[r] == d2[r] == y[r - p];
      }
    }
  }

  /** Equal starting orders give equal runs. */
  lemma SameRun(s: Shape, a: AngleArgument, l: int, m1: int, m2: int, prev: seq<Float>)
    requires m1 == m2
    ensures OneTermRun(s, a, l, m1, prev) == OneTermRun(s, a, l, m2, prev)
  {
  }

  /** Where the three writes of degree |n| + 1 fall, and the square-root
      indices they read. */
  lemma NextDegreeLayout(s: Shape, i: int, l: int)
    requires ValidShape(s) && 0 <= i < s.nTheta && Abs(s.n) < s.lMax && l == Abs(s.n) + 1
    ensures var b := BeginForAngleAndDegree(s, i, l);
            var front := if HasLowerBoundary(s, l) then 1 else 0;
            var zl := if l <= s.mMax then 1 else 0;
            var src := BeginForAngleAndDegree(s, i, l - 1);
            var len := EndForAngleAndDegree(s, i, l - 1) - src;
            var mStart := StartingOrder(s, l);
            0 <= src && src + len == b && len == BlockSize(s, l - 1) &&
            EndForAngleAndDegree(s, i, l) == b + front + len + zl && b + front + len + zl <= BufferSize(s) &&
            BlockSize(s, l) == front + len + zl &&
            1 <= l + (mStart + front) && (mStart + front) + len <= l &&
            l - (mStart + front) < TableSize(s) && l + (mStart + front) + len <= TableSize(s) &&
            l + Abs(s.n) < TableSize(s) &&
            (zl == 1 ==> (if s.orders == All then 2 * l - 1 else l) == len)
  {
    BlockInColumn(s, i, l - 1);
    BlockInColumn(s, i, l);
  }

  /** The three parts written at degree |n| + 1 make up NextDegreeBlock. */
  lemma NextDegreeParts(s: Shape, a: AngleArgument, l: int, mStart: int, front: int, prev: seq<Float>)
    requires ValidShape(s) && Abs(s.n) < s.lMax && l == Abs(s.n) + 1 && mStart == StartingOrder(s, l)
    requires front == (if s.orders == All && l <= s.mMax then 1 else 0)
    ensures LowerEnd(s, a, l) + OneTermRun(s, a, l, mStart + front, prev) + UpperEnd(s, a, l) ==
            NextDegreeBlock(s, a, prev)
  {
  }


  /** Two consecutive runs: d0 to d1 puts x at b, d1 to d2 puts y at
      p = b + |x|, each changing only its own positions; then d2 holds
      x ++ y from b on. */
  lemma RunsJoin(d0: seq<Float>, d1: seq<Float>, d2: seq<Float>, b: int, p: int, e: int,
                 x: seq<Float>, y: seq<Float>, w: seq<Float>)
    requires p == b + |x| && e == p + |y| && w == x + y
    requires Agree(d0, d1, b, p) && Holds(d1, b, x)
    requires Agree(d1, d2, p, e) && Holds(d2, p, y)
    ensures Agree(d0, d2, b, e) && Holds(d2, b, w)
  {
    forall r | b <= r < e
      ensures d2[r] == w[r - b]
    {
      if r < p {
        assert d2[r] == d1[r] == x[r - b];
      }
    }
  }

  /** The order arithmetic of a degree l >= |n| + 2: the two-term run covers
      the orders of degree l - 2, the upper edges read the last value of
      degree l - 1, the iterator steps of Wigner.h lines 431-434 and 451-454 are the
      length of degree l - 2, and every square-root index is in its table. */
  lemma DegreeOrders(s: Shape, l: int)
    requires ValidShape(s) && Abs(s.n) + 2 <= l <= s.lMax
    ensures var mStart := StartingOrder(s, l - 2);
            var len := BlockSize(s, l - 2);
            1 <= l + mStart && mStart + len <= l && l - mStart < TableSize(s) && l + mStart + len <= TableSize(s) &&
            l + Abs(s.n) < TableSize(s) && 0 <= l - 1 - Abs(s.n) &&
            (l <= s.mMax ==> (if s.orders == All then 2 * l - 3 else l - 1) == len) &&
            (l == s.mMax + 1 ==> (if s.orders == All then 2 * s.mMax - 1 else s.mMax) == len) &&
            (l <= s.mMax + 1 ==> LowerSkip(s, l) + len == BlockSize(s, l - 1) - 1) &&
            LowerSkip(s, l) + len <= BlockSize(s, l - 1)
  {
  }

  /** The sizes the upper edges of a degree l >= |n| + 2 are written with:
      lower edges, two-term run and upper edges fill the block, and the run
      reads the block of degree l - 1 up to its last value but one. */
  lemma UpperEdgesLayout(s: Shape, a: AngleArgument, l: int, prev1: seq<Float>, prev2: seq<Float>)
    requires ValidShape(s) && Abs(s.n) + 2 <= l <= s.lMax
    requires |prev1| == BlockSize(s, l - 1) && |prev2| == BlockSize(s, l - 2)
    ensures |LowerEdges(s, a, l, prev1)| + |prev2| + |UpperEdges(s, a, l, prev1)| == BlockSize(s, l)
    ensures l <= s.mMax ==> (if s.orders == All then 2 * l - 3 else l - 1) == |prev2|
    ensures l == s.mMax + 1 ==> (if s.orders == All then 2 * s.mMax - 1 else s.mMax) == |prev2|
    ensures l <= s.mMax + 1 ==> LowerSkip(s, l) + |prev2| == |prev1| - 1
  {
    DegreeOrders(s, l);
  }

  /** The upper edges written after the lower edges and the two-term run
      complete the block of degree l. */
  lemma UpperEdgesJoin(s: Shape, a: AngleArgument, l: int, prev1: seq<Float>, prev2: seq<Float>,
                       d1: seq<Float>, d2: seq<Float>, b: int, start: int)
    requires ValidShape(s) && Abs(s.n) + 2 <= l <= s.lMax
    requires |prev1| == BlockSize(s, l - 1) && |prev2| == BlockSize(s, l - 2)
    requires start == b + |LowerEdges(s, a, l, prev1)|
    requires Holds(d1, b, LowerEdges(s, a, l, prev1) +
                          TwoTermRun(s, a, l, StartingOrder(s, l - 2), prev1, LowerSkip(s, l), prev2))
    requires Agree(d1, d2, start + |prev2|, b + BlockSize(s, l))
    requires Holds(d2, start + |prev2|, UpperEdges(s, a, l, prev1))
    ensures Holds(d2, b, DegreeBlock(s, a, l, prev1, prev2))
  {
    UpperEdgesLayout(s, a, l, prev1, prev2);
    var xy := LowerEdges(s, a, l, prev1) + TwoTermRun(s, a, l, StartingOrder(s, l - 2), prev1, LowerSkip(s, l), prev2);
    RunsJoin(d1, d1, d2, b, start + |prev2|, b + BlockSize(s, l), xy, UpperEdges(s, a, l, prev1),
             DegreeBlock(s, a, l, prev1, prev2));
  }

  /** Where the writes of a degree l >= |n| + 2 fall in column i. */
  lemma DegreeLayout(s: Shape, i: int, l: int)
    requires ValidShape(s) && 0 <= i < s.nTheta && Abs(s.n) + 2 <= l <= s.lMax
    ensures var b2 := BeginForAngleAndDegree(s, i, l - 2);
            var b1 := BeginForAngleAndDegree(s, i, l - 1);
            var b := BeginForAngleAndDegree(s, i, l);
            0 <= b2 && EndForAngleAndDegree(s, i, l - 2) == b1 && b1 - b2 == BlockSize(s, l - 2) &&
            b - b1 == BlockSize(s, l - 1) && EndForAngleAndDegree(s, i, l) == b + BlockSize(s, l) &&
            b + BlockSize(s, l) <= BufferSize(s)
  {
    BlockInColumn(s, i, l - 2);
    BlockInColumn(s, i, l - 1);
    BlockInColumn(s, i, l);
  }

  /** Before degree l >= |n| + 2 of column i is written: where its two
      sources and its own block lie, and that d holds the two sources there. */
  lemma DegreeSources(s: Shape, d: seq<Float>, i: int, l: int)
    requires ValidShape(s) && 0 <= i < s.nTheta && |d| == BufferSize(s) && Abs(s.n) + 2 <= l <= s.lMax
    ensures var b2 := BeginForAngleAndDegree(s, i, l - 2);
            var b1 := BeginForAngleAndDegree(s, i, l - 1);
            var b := BeginForAngleAndDegree(s, i, l);
            0 <= b2 && b1 - b2 == BlockSize(s, l - 2) && b - b1 == BlockSize(s, l - 1) &&
            EndForAngleAndDegree(s, i, l) == b + BlockSize(s, l) && b + BlockSize(s, l) <= |d| &&
            Holds(d, b2, Block(s, d, i, l - 2)) && Holds(d, b1, Block(s, d, i, l - 1))
  {
    DegreeLayout(s, i, l);
    BlockHolds(s, d, i, l - 1);
    BlockHolds(s, d, i, l - 2);
  }

  // ---------------------------------------------------------------------
  // A column filled degree after degree, then normalised.
  // ---------------------------------------------------------------------

  /** Degrees |n|..top of column i hold the values of the recursion. */
  ghost predicate ColumnUpTo(s: Shape, a: AngleArgument, d: seq<Float>, i: int, top: int)
    requires ValidShape(s) && 0 <= i < s.nTheta && |d| == BufferSize(s) && top <= s.lMax
  {
    forall l | Abs(s.n) <= l <= top :: Block(s, d, i, l) == ColumnBlock(s, a, l)
  }

  /** Writes confined to degree l of column i keep the degrees below it. */
  lemma LowerBlockKept(s: Shape, d: seq<Float>, d': seq<Float>, i: int, l': int, l: int)
    requires ValidShape(s) && 0 <= i < s.nTheta && |d| == BufferSize(s) && Abs(s.n) <= l' < l <= s.lMax
    requires Agree(d, d', BeginForAngleAndDegree(s, i, l), EndForAngleAndDegree(s, i, l))
    ensures Block(s, d', i, l') == Block(s, d, i, l')
  {
    BlockInColumn(s, i, l');
    BlockSumMonotone(s, l', l - 1);
    BlockKept(s, d, d', i, l', BeginForAngleAndDegree(s, i, l), EndForAngleAndDegree(s, i, l));
  }

  /** Writes confined to degree l of column i are confined to column i. */
  lemma AgreeInColumn(s: Shape, d: seq<Float>, d': seq<Float>, i: int, l: int)
    requires ValidShape(s) && 0 <= i < s.nTheta && l <= s.lMax
    requires Agree(d, d', BeginForAngleAndDegree(s, i, l), EndForAngleAndDegree(s, i, l))
    ensures Agree(d, d', BeginForAngle(s, i), EndForAngle(s, i))
  {
    BlockInColumn(s, i, l);
  }

  /** Writing the recursion's block of degree l keeps the degrees below it. */
  lemma ColumnUpToStep(s: Shape, a: AngleArgument, d: seq<Float>, d': seq<Float>, i: int, l: int)
    requires ValidShape(s) && 0 <= i < s.nTheta && |d| == BufferSize(s) && Abs(s.n) <= l <= s.lMax
    requires ColumnUpTo(s, a, d, i, l - 1)
    requires Agree(d, d', BeginForAngleAndDegree(s, i, l), EndForAngleAndDegree(s, i, l))
    requires Block(s, d', i, l) == ColumnBlock(s, a, l)
    ensures ColumnUpTo(s, a, d', i, l)
  {
    forall l' | Abs(s.n) <= l' < l
      ensures Block(s, d', i, l') == ColumnBlock(s, a, l')
    {
      LowerBlockKept(s, d, d', i, l', l);
    }
  }

  /** Degree |n| written by the upper-index evaluator is the recursion's degree |n|. */
  lemma UpperIndexStep(s: Shape, a: AngleArgument, d: seq<Float>, d': seq<Float>, i: int)
    requires ValidShape(s) && 0 <= i < s.nTheta && |d| == BufferSize(s)
    requires Agree(d, d', BeginForAngleAndDegree(s, i, Abs(s.n)), EndForAngleAndDegree(s, i, Abs(s.n)))
    requires Block(s, d', i, Abs(s.n)) == UpperIndexBlock(s, a)
    ensures ColumnUpTo(s, a, d', i, Abs(s.n))
    ensures Agree(d, d', BeginForAngle(s, i), EndForAngle(s, i))
  {
    UpperIndexBlockIsColumn(s, a);
    ColumnUpToStep(s, a, d, d', i, Abs(s.n));
    AgreeInColumn(s, d, d', i, Abs(s.n));
  }

  /** Degree |n| + 1 written by the one-term recurrence from the recursion's
      degree |n| is the recursion's degree |n| + 1. */
  lemma NextDegreeStep(s: Shape, a: AngleArgument, d: seq<Float>, d': seq<Float>, i: int)
    requires ValidShape(s) && 0 <= i < s.nTheta && |d| == BufferSize(s) && Abs(s.n) < s.lMax
    requires ColumnUpTo(s, a, d, i, Abs(s.n))
    requires Agree(d, d', BeginForAngleAndDegree(s, i, Abs(s.n) + 1), EndForAngleAndDegree(s, i, Abs(s.n) + 1))
    requires Block(s, d', i, Abs(s.n) + 1) == NextDegreeBlock(s, a, Block(s, d, i, Abs(s.n)))
    ensures ColumnUpTo(s, a, d', i, Abs(s.n) + 1)
    ensures Agree(d, d', BeginForAngle(s, i), EndForAngle(s, i))
  {
    assert Block(s, d, i, Abs(s.n)) == ColumnBlock(s, a, Abs(s.n));
    NextDegreeBlockIsColumn(s, a);
    ColumnUpToStep(s, a, d, d', i, Abs(s.n) + 1);
    AgreeInColumn(s, d, d', i, Abs(s.n) + 1);
  }

  /** Degree l >= |n| + 2 written from the recursion's degrees l - 1 and l - 2
      is the recursion's degree l. */
  lemma DegreeStep(s: Shape, a: AngleArgument, d: seq<Float>, d': seq<Float>, i: int, l: int)
    requires ValidShape(s) && 0 <= i < s.nTheta && |d| == BufferSize(s) && Abs(s.n) + 2 <= l <= s.lMax
    requires ColumnUpTo(s, a, d, i, l - 1)
    requires Agree(d, d', BeginForAngleAndDegree(s, i, l), EndForAngleAndDegree(s, i, l))
    requires Block(s, d', i, l) == DegreeBlock(s, a, l, Block(s, d, i, l - 1), Block(s, d, i, l - 2))
    ensures ColumnUpTo(s, a, d', i, l)
    ensures Agree(d, d', BeginForAngle(s, i), EndForAngle(s, i))
  {
    assert Block(s, d, i, l - 1) == ColumnBlock(s, a, l - 1);
    assert Block(s, d, i, l - 2) == ColumnBlock(s, a, l - 2);
    DegreeBlockIsColumn(s, a, l);
    ColumnUpToStep(s, a, d, d', i, l);
    AgreeInColumn(s, d, d', i, l);
  }

  /** Degrees |n|..top of column i of d hold those of d0 scaled by the Ortho factor. */
  ghost predicate ScaledUpTo(s: Shape, d0: seq<Float>, d: seq<Float>, i: int, top: int)
    requires ValidShape(s) && 0 <= i < s.nTheta && |d0| == BufferSize(s) && |d| == BufferSize(s) && top <= s.lMax
  {
    forall l | Abs(s.n) <= l <= top :: Block(s, d, i, l) == NormalisedBlock(Ortho, l, Block(s, d0, i, l))
  }

  /** Scaling the range of degree l keeps the scaled degrees below it and
      leaves the rest of the column as it was. */
  lemma ScaledStep(s: Shape, d0: seq<Float>, d: seq<Float>, d': seq<Float>, i: int, l: int)
    requires ValidShape(s) && 0 <= i < s.nTheta && |d0| == BufferSize(s) && |d| == BufferSize(s) && 0 <= l <= s.lMax
    requires ScaledUpTo(s, d0, d, i, l - 1)
    requires Agree(d0, d, BeginForAngle(s, i), BeginForAngleAndDegree(s, i, l))
    requires Agree(d, d', BeginForAngleAndDegree(s, i, l), EndForAngleAndDegree(s, i, l))
    requires forall p | BeginForAngleAndDegree(s, i, l) <= p < EndForAngleAndDegree(s, i, l) ::
               0 <= p < |d| && d'[p] == Normalised(Ortho, l, d[p])
    ensures ScaledUpTo(s, d0, d', i, l)
    ensures Agree(d0, d', BeginForAngle(s, i), BeginForAngleAndDegree(s, i, l + 1))
  {
    BlockInColumn(s, i, l);
    forall l' | Abs(s.n) <= l' < l
      ensures Block(s, d', i, l') == NormalisedBlock(Ortho, l', Block(s, d0, i, l'))
    {
      LowerBlockKept(s, d, d', i, l', l);
    }
    if Abs(s.n) <= l {
      ScaledBlock(s, d0, d, d', i, l);
    }
  }

  /** Degree l scaled position by position is the scaled block of degree l. */
  lemma ScaledBlock(s: Shape, d0: seq<Float>, d: seq<Float>, d': seq<Float>, i: int, l: int)
    requires ValidShape(s) && 0 <= i < s.nTheta && |d0| == BufferSize(s) && |d| == BufferSize(s)
    requires Abs(s.n) <= l <= s.lMax && |d'| == |d|
    requires Agree(d0, d, BeginForAngle(s, i), BeginForAngleAndDegree(s, i, l))
    requires forall p | BeginForAngleAndDegree(s, i, l) <= p < EndForAngleAndDegree(s, i, l) ::
               0 <= p < |d| && d'[p] == Normalised(Ortho, l, d[p])
    ensures Block(s, d', i, l) == NormalisedBlock(Ortho, l, Block(s, d0, i, l))
  {
    BlockKept(s, d0, d, i, l, BeginForAngle(s, i), BeginForAngleAndDegree(s, i, l));
    forall k | 0 <= k < BlockSize(s, l)
      ensures Block(s, d', i, l)[k] == NormalisedBlock(Ortho, l, Block(s, d0, i, l))[k]
    {
      BlockAt(s, d', i, l, k);
      BlockAt(s, d, i, l, k);
    }
  }

  /** The recursion's column, scaled when the normalisation asks for it, is the finished column. */
  lemma ColumnFinished(s: Shape, norm: Normalisation, a: AngleArgument, d: seq<Float>, d': seq<Float>, i: int)
    requires ValidShape(s) && 0 <= i < s.nTheta && |d| == BufferSize(s) && |d'| == BufferSize(s)
    requires ColumnUpTo(s, a, d, i, s.lMax)
    requires if norm == Ortho then ScaledUpTo(s, d, d', i, s.lMax) else d' == d
    ensures ColumnDone(s, norm, a, d', i)
  {
    forall l, m | ValidSlot(s, l, m)
      ensures d'[OffsetAt(s, i, l, m)] == Normalised(norm, l, ColumnValue(s, a, l, m))
    {
      assert Block(s, d, i, l) == ColumnBlock(s, a, l);
      if norm == Raw {
        RawIsUnscaled(l, ColumnBlock(s, a, l));
      }
      FinishedSlot(s, norm, a, d', i, l, m);
    }
  }

  /** One slot of a finished column. */
  lemma FinishedSlot(s: Shape, norm: Normalisation, a: AngleArgument, d: seq<Float>, i: int, l: int, m: int)
    requires ValidShape(s) && 0 <= i < s.nTheta && |d| == BufferSize(s) && ValidSlot(s, l, m)
    requires Block(s, d, i, l) == NormalisedBlock(norm, l, ColumnBlock(s, a, l))
    ensures d[OffsetAt(s, i, l, m)] == Normalised(norm, l, ColumnValue(s, a, l, m))
  {
    var k := m - StartingOrder(s, l);
    ColumnBlockEntry(s, a, l, m, k);
    BlockAt(s, d, i, l, k);
    assert d[OffsetAt(s, i, l, m)] == NormalisedBlock(norm, l, ColumnBlock(s, a, l))[k];
  }

  /** Columns 0..count-1 are finished, column j for the angle thetas[j]. */
  ghost predicate ColumnsDone(s: Shape, norm: Normalisation, thetas: seq<Angle>, d: seq<Float>, count: int)
    requires ValidShape(s) && |thetas| == s.nTheta && |d| == BufferSize(s) && count <= s.nTheta
  {
    forall j | 0 <= j < count :: ColumnDone(s, norm, AngleArgumentOf(thetas[j]), d, j)
  }

  /** Computing column i keeps the finished columns before it. */
  lemma ColumnsDoneKept(s: Shape, norm: Normalisation, thetas: seq<Angle>, d: seq<Float>, d': seq<Float>, i: int)
    requires ValidShape(s) && |thetas| == s.nTheta && |d| == BufferSize(s) && 0 <= i < s.nTheta
    requires ColumnsDone(s, norm, thetas, d, i) && Agree(d, d', BeginForAngle(s, i), EndForAngle(s, i))
    ensures ColumnsDone(s, norm, thetas, d', i)
  {
    forall j | 0 <= j < i
      ensures ColumnDone(s, norm, AngleArgumentOf(thetas[j]), d', j)
    {
      ColumnDoneKept(s, norm, AngleArgumentOf(thetas[j]), d, d', j, i);
    }
  }

  /** Finishing column i extends the finished columns 0..i-1 to 0..i. */
  lemma ColumnsDoneExtended(s: Shape, norm: Normalisation, thetas: seq<Angle>, d: seq<Float>, i: int)
    requires ValidShape(s) && |thetas| == s.nTheta && |d| == BufferSize(s) && 0 <= i < s.nTheta
    requires ColumnsDone(s, norm, thetas, d, i) && ColumnDone(s, norm, AngleArgumentOf(thetas[i]), d, i)
    ensures ColumnsDone(s, norm, thetas, d, i + 1)
  {
  }

  class WignerN {
    const shape: Shape
    const norm: Normalisation
    const data: array<Float>
    /** The angles the columns were computed for. */
    ghost const angles: seq<Angle>

    /** The dimensions are sound and the buffer holds nTheta columns. */
    ghost predicate Shaped()
      reads this
    {
      ValidShape(shape) && data.Length == BufferSize(shape)
    }

    /** Every column holds the normalised recursion for its angle. */
    ghost predicate Valid()
      reads this, data
    {
      Shaped() && |angles| == shape.nTheta &&
      forall i | 0 <= i < shape.nTheta :: ColumnDone(shape, norm, AngleArgumentOf(angles[i]), data[..], i)
    }

    /** Degree |n|: every order from the upper-index evaluator (Wigner.h lines 303-323). */
    method FillUpperIndexDegree(i: int, a: AngleArgument)
      requires Shaped() && 0 <= i < shape.nTheta
      modifies data
      ensures Block(shape, data[..], i, Abs(shape.n)) == UpperIndexBlock(shape, a)
      ensures Agree(old(data[..]), data[..], BeginForAngleAndDegree(shape, i, Abs(shape.n)),
                    EndForAngleAndDegree(shape, i, Abs(shape.n)))
    {
      var l: int := Abs(shape.n);
      var mStart := StartingOrder(shape, l);
      var start := BeginForAngleAndDegree(shape, i, l);
      var finish := EndForAngleAndDegree(shape, i, l);
      BlockInColumn(shape, i, l);
      ghost var u := UpperIndexBlock(shape, a);
      var p := start;
      while p < finish
        invariant start <= p <= finish
        invariant forall k | 0 <= k < p - start :: data[start + k] == u[k]
        invariant Agree(old(data[..]), data[..], start, p)
      {
        var m := mStart + (p - start);
        data[p] := if shape.n >= 0 then MaxUpperIndexAtOrder(l, m, a) else MinUpperIndexAtOrder(l, m, a);
        p := p + 1;
      }
      BlockFromPositions(shape, data[..], i, l, u);
    }

    /** The std::transform of the one-term recurrence at degree |n| + 1
        (Wigner.h lines 346-354): the values prev at positions src..srcEnd-1 of degree
        l - 1, for the orders from mStart on, are stepped into the positions
        from dst on, which lie after them. */
    method OneTermTransform(src: int, srcEnd: int, dst: int, a: AngleArgument, l: int, mStart: int,
                            alpha: Float, beta: Float, sqIntInv: seq<Float>, ghost prev: seq<Float>)
      requires 0 <= src <= srcEnd <= dst && dst + (srcEnd - src) <= data.Length
      requires |prev| == srcEnd - src && Holds(data[..], src, prev)
      requires ValidShape(shape) && l == Abs(shape.n) + 1
      requires (alpha, beta) == FirstStepConstants(l, shape.n, a.cosTheta, SqIntInv(l + Abs(shape.n)))
      requires InverseRootTable(shape, sqIntInv)
      requires 1 <= l + mStart && mStart + (srcEnd - src) <= l
      requires l - mStart < TableSize(shape) && l + mStart + (srcEnd - src) <= TableSize(shape)
      modifies data
      ensures Agree(old(data[..]), data[..], dst, dst + (srcEnd - src))
      ensures Holds(data[..], dst, OneTermRun(shape, a, l, mStart, prev))
    {
      ghost var d0 := data[..];
      ghost var run := OneTermRun(shape, a, l, mStart, prev);
      var j := 0;
      while j < srcEnd - src
        invariant 0 <= j <= srcEnd - src
        invariant Agree(d0, data[..], dst, dst + j)
        invariant forall p | dst <= p < dst + j :: data[p] == run[p - dst]
      {
        var m := mStart + j;
        var f1 := FirstStepFactor(alpha, beta, m, sqIntInv[l - m], sqIntInv[l + m]);
        assert f1 == FirstStepCoefficient(shape, a, l, m);
        assert data[src + j] == d0[src + j] == prev[j];
        data[dst + j] := Mul(f1, data[src + j]);
        j := j + 1;
      }
    }

    /** The writes of degree |n| + 1 from blockStart on (Wigner.h lines 334-367): the
        evaluator at m = -l when all orders are stored and l is within the
        maximum order (front is then 1), the one-term transform of the values
        prev of degree |n| at startMinusOne..finishMinusOne, and the evaluator
        at m = l when l is within the maximum order (zl is then 1). */
    /** The evaluator at m = -l written at start when degree l = |n| + 1 opens
        with it (Wigner.h lines 334-342); start then moves past it. */
    method WriteNextDegreeLowerEnd(start: int, a: AngleArgument, l: int) returns (next: int)
      requires Abs(shape.n) <= l && 0 <= start && start + |LowerEnd(shape, a, l)| <= data.Length
      modifies data
      ensures next == start + |LowerEnd(shape, a, l)|
      ensures data[..] == if next == start + 1 then old(data[..])[start := LowerEnd(shape, a, l)[0]] else old(data[..])
    {
      next := start;
      if shape.orders == All {
        if l <= shape.mMax {
          data[next] := MinOrderAtUpperIndex(l, shape.n, a);
          next := next + 1;
        }
      }
    }

    /** The evaluator at m = l written mStep places past start while orders
        grow, mStep being the number of orders stored at degree l - 1
        (Wigner.h lines 357-365). */
    method WriteNextDegreeUpperEnd(start: int, a: AngleArgument, l: int)
      requires Abs(shape.n) < l && 0 <= start
      requires l <= shape.mMax ==> start + (if shape.orders == All then 2 * l - 1 else l) < data.Length
      modifies data
      ensures data[..] == if l <= shape.mMax
                          then old(data[..])[start + (if shape.orders == All then 2 * l - 1 else l) := UpperEnd(shape, a, l)[0]]
                          else old(data[..])
    {
      if l <= shape.mMax {
        var mStep := 2 * l - 1;
        if shape.orders == NonNegative {
          mStep := l;
        }
        data[start + mStep] := MaxOrderAtUpperIndex(l, shape.n, a);
      }
    }

    /** Degree l = |n| + 1 from the block prev of degree |n| held at
        startMinusOne (Wigner.h lines 325-366): its lower end at blockStart, the one-term
        transform of prev after it, and its upper end last. */
    method WriteNextDegree(blockStart: int, startMinusOne: int, finishMinusOne: int, a: AngleArgument, l: int,
                           blockOrder: int, ghost front: int, ghost zl: int, ghost blockEnd: int,
                           sqIntInv: seq<Float>, ghost prev: seq<Float>)
      requires ValidShape(shape) && l == Abs(shape.n) + 1
      requires front == (if shape.orders == All && l <= shape.mMax then 1 else 0)
      requires zl == (if l <= shape.mMax then 1 else 0)
      requires 0 <= startMinusOne <= finishMinusOne == blockStart
      requires |prev| == finishMinusOne - startMinusOne && Holds(data[..], startMinusOne, prev)
      requires blockEnd == blockStart + front + (finishMinusOne - startMinusOne) + zl && blockEnd <= data.Length
      requires 1 <= l + (blockOrder + front) && (blockOrder + front) + (finishMinusOne - startMinusOne) <= l
      requires l - (blockOrder + front) < TableSize(shape) &&
               l + (blockOrder + front) + (finishMinusOne - startMinusOne) <= TableSize(shape)
      requires l + Abs(shape.n) < TableSize(shape)
      requires zl == 1 ==> (if shape.orders == All then 2 * l - 1 else l) == finishMinusOne - startMinusOne
      requires InverseRootTable(shape, sqIntInv)
      modifies data
      ensures Agree(old(data[..]), data[..], blockStart, blockEnd)
      ensures Holds(data[..], blockStart,
                    LowerEnd(shape, a, l) + OneTermRun(shape, a, l, blockOrder + front, prev) + UpperEnd(shape, a, l))
    {
      ghost var d0 := data[..];
      ghost var x, z := LowerEnd(shape, a, l), UpperEnd(shape, a, l);
      var start := WriteNextDegreeLowerEnd(blockStart, a, l);
      var mStart := blockOrder + (start - blockStart);
      ghost var d1 := data[..];
      HoldsKept(d0, d1, blockStart, start, startMinusOne, prev);

      var q := sqIntInv[l + Abs(shape.n)];
      var (alpha, beta) := FirstStepConstants(l, shape.n, a.cosTheta, q);
      OneTermTransform(startMinusOne, finishMinusOne, start, a, l, mStart, alpha, beta, sqIntInv, prev);
      ghost var d2 := data[..];
      ghost var y := OneTermRun(shape, a, l, mStart, prev);

      WriteNextDegreeUpperEnd(start, a, l);
      ghost var d3 := data[..];
      SameRun(shape, a, l, mStart, blockOrder + front, prev);
      ThreeWrites(d0, d1, d2, d3, blockStart, start, start + (finishMinusOne - startMinusOne), blockEnd, x, y, z,
                  x + OneTermRun(shape, a, l, blockOrder + front, prev) + z);
    }

    /** The two values below the two-term run while orders grow and all are
        stored (Wigner.h lines 382-396): the evaluator at m = -l at start, and the
        one-term value at m = -l + 1 from the value p at startMinusOne. */
    method WriteGrowingLowerEdges(start: int, startMinusOne: int, a: AngleArgument, l: int,
                                  sqIntInv: seq<Float>, ghost p: Float)
      requires ValidShape(shape) && Abs(shape.n) + 2 <= l <= shape.mMax
      requires 0 <= startMinusOne < start && start + 2 <= data.Length && data[startMinusOne] == p
      requires InverseRootTable(shape, sqIntInv)
      modifies data
      ensures data[..] == old(data[..])[start := MinOrderAtUpperIndex(l, shape.n, a)]
                                       [start + 1 := OneTermValue(shape, a, l, -l + 1, p)]
    {
      data[start] := MinOrderAtUpperIndex(l, shape.n, a);
      var m := -l + 1;
      var f1 := EdgeFactor(l, m, shape.n, a.cosTheta, sqIntInv[l - shape.n], sqIntInv[l + shape.n],
                           sqIntInv[l - m], sqIntInv[l + m]);
      data[start + 1] := Mul(f1, data[startMinusOne]);
    }

    /** The one-term value below the two-term run at the first clipped degree
        (Wigner.h lines 399-407): the value at m = -mMax from the value p at
        startMinusOne, written at start. */
    method WriteCriticalLowerEdge(start: int, startMinusOne: int, a: AngleArgument, l: int,
                                  sqIntInv: seq<Float>, ghost p: Float)
      requires ValidShape(shape) && Abs(shape.n) + 2 <= l <= shape.lMax && l == shape.mMax + 1
      requires 0 <= startMinusOne < start < data.Length && data[startMinusOne] == p
      requires InverseRootTable(shape, sqIntInv)
      modifies data
      ensures data[..] == old(data[..])[start := OneTermValue(shape, a, l, -shape.mMax, p)]
    {
      var m := -shape.mMax;
      var f1 := EdgeFactor(l, m, shape.n, a.cosTheta, sqIntInv[l - shape.n], sqIntInv[l + shape.n],
                           sqIntInv[l - m], sqIntInv[l + m]);
      data[start] := Mul(f1, data[startMinusOne]);
    }

    /** The values below the two-term run of degree l (Wigner.h lines 380-408), written
        from blockStart on, reading the values prev1 of degree l - 1 held from
        oneStart on; returns the advanced iterators and starting order. */
    method WriteLowerEdges(blockStart: int, oneStart: int, a: AngleArgument, l: int, blockOrder: int,
                           sqIntInv: seq<Float>, ghost prev1: seq<Float>)
      returns (start: int, startMinusOne: int, mStart: int)
      requires ValidShape(shape) && Abs(shape.n) + 2 <= l <= shape.lMax
      requires |prev1| > 0 && Holds(data[..], oneStart, prev1) && oneStart + |prev1| <= blockStart
      requires blockStart + |LowerEdges(shape, a, l, prev1)| <= data.Length
      requires InverseRootTable(shape, sqIntInv)
      modifies data
      ensures start == blockStart + |LowerEdges(shape, a, l, prev1)|
      ensures startMinusOne == oneStart + LowerSkip(shape, l)
      ensures mStart == blockOrder + |LowerEdges(shape, a, l, prev1)|
      ensures Agree(old(data[..]), data[..], blockStart, start)
      ensures Holds(data[..], blockStart, LowerEdges(shape, a, l, prev1))
    {
      start, startMinusOne, mStart := blockStart, oneStart, blockOrder;
      if shape.orders == All {
        if l <= shape.mMax {
          WriteGrowingLowerEdges(start, startMinusOne, a, l, sqIntInv, prev1[0]);
          start, startMinusOne := start + 2, startMinusOne + 1;
          mStart := mStart + 2;
        }
        if l == shape.mMax + 1 {
          WriteCriticalLowerEdge(start, startMinusOne, a, l, sqIntInv, prev1[0]);
          start, startMinusOne := start + 1, startMinusOne + 1;
          mStart := mStart + 1;
        }
      }
    }

    /** One step of the two-term recurrence (Wigner.h lines 422-425): the value at
        (l, m) from the values p1 at srcOne and p2 at srcTwo, written at dst. */
    method WriteTwoTermValue(srcTwo: int, srcOne: int, dst: int, a: AngleArgument, l: int, m: int,
                             alpha: Float, beta: Float, gamma: Float, sqInt: seq<Float>, sqIntInv: seq<Float>,
                             ghost p1: Float, ghost p2: Float)
      requires 0 <= srcTwo < data.Length && 0 <= srcOne < data.Length && 0 <= dst < data.Length
      requires data[srcOne] == p1 && data[srcTwo] == p2
      requires (alpha, beta, gamma) == TwoTermConstants(l, shape.n, a.cosTheta, SqIntInv(l - shape.n), SqIntInv(l + shape.n),
                                                        SqInt(l - 1 - shape.n), SqInt(l - 1 + shape.n))
      requires RootTable(shape, sqInt) && InverseRootTable(shape, sqIntInv)
      requires 1 <= l + m && m < l && l - m < TableSize(shape) && l + m < TableSize(shape)
      modifies data
      ensures data[..] == old(data[..])[dst := TwoTermValue(shape, a, l, m, p1, p2)]
    {
      var (f1, f2) := TwoTermFactors(alpha, beta, gamma, m, sqIntInv[l - m], sqIntInv[l + m],
                                     sqInt[l - 1 - m], sqInt[l - 1 + m]);
      data[dst] := Sub(Mul(f1, data[srcOne]), Mul(f2, data[srcTwo]));
    }

    /** Entry k of the two-term run, from the values at srcOne and srcTwo,
        written at dst. */
    method WriteTwoTermEntry(srcTwo: int, srcOne: int, dst: int, a: AngleArgument, l: int, mStart: int, k: int,
                             alpha: Float, beta: Float, gamma: Float, sqInt: seq<Float>, sqIntInv: seq<Float>,
                             ghost one: seq<Float>, ghost skip: int, ghost two: seq<Float>)
      requires 0 <= srcTwo < data.Length && 0 <= srcOne < data.Length && 0 <= dst < data.Length
      requires 0 <= k < |two| && 0 <= skip && skip + |two| <= |one|
      requires data[srcOne] == one[skip + k] && data[srcTwo] == two[k]
      requires (alpha, beta, gamma) == TwoTermConstants(l, shape.n, a.cosTheta, SqIntInv(l - shape.n), SqIntInv(l + shape.n),
                                                        SqInt(l - 1 - shape.n), SqInt(l - 1 + shape.n))
      requires RootTable(shape, sqInt) && InverseRootTable(shape, sqIntInv)
      requires 1 <= l + (mStart + k) && mStart + k < l && l - (mStart + k) < TableSize(shape) &&
               l + (mStart + k) < TableSize(shape)
      modifies data
      ensures data[..] == old(data[..])[dst := TwoTermRun(shape, a, l, mStart, one, skip, two)[k]]
    {
      ghost var v := TwoTermRun(shape, a, l, mStart, one, skip, two)[k];
      assert v == TwoTermValue(shape, a, l, mStart + k, one[skip + k], two[k]);
      WriteTwoTermValue(srcTwo, srcOne, dst, a, l, mStart + k, alpha, beta, gamma, sqInt, sqIntInv,
                        one[skip + k], two[k]);
    }

    /** The std::transform of the two-term recurrence (Wigner.h lines 411-427): the
        values two of degree l - 2 at srcTwo..srcTwoEnd-1 and the values of
        one (degree l - 1, held from oneStart on) from srcOne on, for the
        orders from mStart on, are stepped into the positions from dst on,
        which lie after both. */
    method TwoTermTransform(srcTwo: int, srcTwoEnd: int, srcOne: int, dst: int, a: AngleArgument, l: int,
                            mStart: int, alpha: Float, beta: Float, gamma: Float,
                            sqInt: seq<Float>, sqIntInv: seq<Float>,
                            ghost one: seq<Float>, ghost oneStart: int, ghost two: seq<Float>)
      requires 0 <= srcTwo <= srcTwoEnd <= dst && |two| == srcTwoEnd - srcTwo && Holds(data[..], srcTwo, two)
      requires Holds(data[..], oneStart, one) && oneStart <= srcOne && (srcOne - oneStart) + |two| <= |one|
      requires oneStart + |one| <= dst && dst + |two| <= data.Length
      requires (alpha, beta, gamma) == TwoTermConstants(l, shape.n, a.cosTheta, SqIntInv(l - shape.n), SqIntInv(l + shape.n),
                                                        SqInt(l - 1 - shape.n), SqInt(l - 1 + shape.n))
      requires RootTable(shape, sqInt)
      requires InverseRootTable(shape, sqIntInv)
      requires 1 <= l + mStart && mStart + |two| <= l
      requires l - mStart < TableSize(shape) && l + mStart + |two| <= TableSize(shape)
      modifies data
      ensures Agree(old(data[..]), data[..], dst, dst + |two|)
      ensures Holds(data[..], dst, TwoTermRun(shape, a, l, mStart, one, srcOne - oneStart, two))
    {
      ghost var d0 := data[..];
      ghost var run := TwoTermRun(shape, a, l, mStart, one, srcOne - oneStart, two);
      var j := 0;
      while j < srcTwoEnd - srcTwo
        invariant 0 <= j <= srcTwoEnd - srcTwo
        invariant Agree(d0, data[..], dst, dst + j)
        invariant forall p | dst <= p < dst + j :: data[p] == run[p - dst]
      {
        assert data[srcOne + j] == d0[srcOne + j] == one[srcOne - oneStart + j];
        assert data[srcTwo + j] == d0[srcTwo + j] == two[j];
        WriteTwoTermEntry(srcTwo + j, srcOne + j, dst + j, a, l, mStart, j, alpha, beta, gamma, sqInt, sqIntInv,
                          one, srcOne - oneStart, two);
        j := j + 1;
      }
    }

    /** The two values above the two-term run while orders grow (Wigner.h lines
        436-446): the one-term value at m = l - 1 from the value p at
        startMinusOne, written at start, and the evaluator at m = l after it. */
    method WriteGrowingUpperEdges(start: int, startMinusOne: int, a: AngleArgument, l: int,
                                  sqIntInv: seq<Float>, ghost p: Float)
      requires ValidShape(shape) && Abs(shape.n) + 2 <= l <= shape.mMax
      requires 0 <= startMinusOne < start && start + 2 <= data.Length && data[startMinusOne] == p
      requires InverseRootTable(shape, sqIntInv)
      modifies data
      ensures data[..] == old(data[..])[start := OneTermValue(shape, a, l, l - 1, p)]
                                       [start + 1 := MaxOrderAtUpperIndex(l, shape.n, a)]
    {
      var m := l - 1;
      var f1 := EdgeFactor(l, m, shape.n, a.cosTheta, sqIntInv[l - shape.n], sqIntInv[l + shape.n],
                           sqIntInv[l - m], sqIntInv[l + m]);
      data[start] := Mul(f1, data[startMinusOne]);
      data[start + 1] := MaxOrderAtUpperIndex(l, shape.n, a);
    }

    /** The one-term value above the two-term run at the first clipped degree
        (Wigner.h lines 458-464): the value at m = mMax from the value p at
        startMinusOne, written at start. */
    method WriteCriticalUpperEdge(start: int, startMinusOne: int, a: AngleArgument, l: int,
                                  sqIntInv: seq<Float>, ghost p: Float)
      requires ValidShape(shape) && Abs(shape.n) + 2 <= l <= shape.lMax && l == shape.mMax + 1
      requires 0 <= startMinusOne < start < data.Length && data[startMinusOne] == p
      requires InverseRootTable(shape, sqIntInv)
      modifies data
      ensures data[..] == old(data[..])[start := OneTermValue(shape, a, l, shape.mMax, p)]
    {
      var m := shape.mMax;
      var f1 := EdgeFactor(l, m, shape.n, a.cosTheta, sqIntInv[l - shape.n], sqIntInv[l + shape.n],
                           sqIntInv[l - m], sqIntInv[l + m]);
      data[start] := Mul(f1, data[startMinusOne]);
    }

    /** The values above the two-term run of degree l (Wigner.h lines 429-465): the
        iterators runStart and runOneStart, where the lower edges left them,
        step over the runLen values of the run, and the one-term value and
        evaluator (or the one-term value alone at the first clipped degree)
        follow, reading the last of the values prev1 of degree l - 1 held from
        oneStart on. */
    method WriteUpperEdges(runStart: int, runOneStart: int, a: AngleArgument, l: int, sqIntInv: seq<Float>,
                           ghost prev1: seq<Float>, ghost oneStart: int, ghost runLen: int)
      requires ValidShape(shape) && Abs(shape.n) + 2 <= l <= shape.lMax
      requires 0 <= runLen
      requires l <= shape.mMax ==> (if shape.orders == All then 2 * l - 3 else l - 1) == runLen
      requires l == shape.mMax + 1 ==> (if shape.orders == All then 2 * shape.mMax - 1 else shape.mMax) == runLen
      requires |prev1| > 0 && Holds(data[..], oneStart, prev1)
      requires l <= shape.mMax + 1 ==> runOneStart + runLen == oneStart + |prev1| - 1
      requires oneStart + |prev1| <= runStart + runLen
      requires runStart + runLen + |UpperEdges(shape, a, l, prev1)| <= data.Length
      requires InverseRootTable(shape, sqIntInv)
      modifies data
      ensures Agree(old(data[..]), data[..], runStart + runLen, runStart + runLen + |UpperEdges(shape, a, l, prev1)|)
      ensures Holds(data[..], runStart + runLen, UpperEdges(shape, a, l, prev1))
    {
      var start, startMinusOne := runStart, runOneStart;
      if l <= shape.mMax {
        var mStep := 2 * l - 3;
        if shape.orders == NonNegative {
          mStep := l - 1;
        }
        startMinusOne, start := startMinusOne + mStep, start + mStep;
        WriteGrowingUpperEdges(start, startMinusOne, a, l, sqIntInv, prev1[|prev1| - 1]);
        start, startMinusOne := start + 2, startMinusOne + 1;
      }
      if l == shape.mMax + 1 {
        var mStep := 2 * shape.mMax - 1;
        if shape.orders == NonNegative {
          mStep := shape.mMax;
        }
        startMinusOne, start := startMinusOne + mStep, start + mStep;
        WriteCriticalUpperEdge(start, startMinusOne, a, l, sqIntInv, prev1[|prev1| - 1]);
        start, startMinusOne := start + 1, startMinusOne + 1;
      }
    }

    /** Degree |n| + 1: the evaluator at m = -l while orders grow and all are
        stored, the one-term recurrence from degree |n|, and the evaluator at
        m = l while orders grow (Wigner.h lines 325-367). */
    method FillNextDegree(i: int, a: AngleArgument, sqIntInv: seq<Float>)
      requires Shaped() && 0 <= i < shape.nTheta && Abs(shape.n) < shape.lMax
      requires InverseRootTable(shape, sqIntInv)
      modifies data
      ensures Block(shape, data[..], i, Abs(shape.n) + 1) ==
              NextDegreeBlock(shape, a, Block(shape, old(data[..]), i, Abs(shape.n)))
      ensures Agree(old(data[..]), data[..], BeginForAngleAndDegree(shape, i, Abs(shape.n) + 1),
                    EndForAngleAndDegree(shape, i, Abs(shape.n) + 1))
    {
      var l: int := Abs(shape.n) + 1;
      assert l - 1 == Abs(shape.n);
      ghost var prev := Block(shape, data[..], i, l - 1);
      var mStart := StartingOrder(shape, l);
      var startMinusOne := BeginForAngleAndDegree(shape, i, l - 1);
      var finishMinusOne := EndForAngleAndDegree(shape, i, l - 1);
      var start := BeginForAngleAndDegree(shape, i, l);
      NextDegreeLayout(shape, i, l);
      BlockHolds(shape, data[..], i, l - 1);
      ghost var front, zl := (if HasLowerBoundary(shape, l) then 1 else 0), (if l <= shape.mMax then 1 else 0);
      WriteNextDegree(start, startMinusOne, finishMinusOne, a, l, mStart, front, zl,
                      EndForAngleAndDegree(shape, i, l), sqIntInv, prev);
      NextDegreeParts(shape, a, l, mStart, front, prev);
      BlockFromHolds(shape, data[..], i, l, NextDegreeBlock(shape, a, prev));
    }

    /** The interior of degree l >= |n| + 2 (Wigner.h lines 410-427): alpha, beta and
        gamma from the tables, then the two-term transform of the values prev2
        of degree l - 2 at b2..b1-1 and of the values prev1 of degree l - 1
        from startMinusOne on, for the orders from mStart on, into the
        positions from start on. */
    method WriteTwoTermBlock(b2: int, b1: int, startMinusOne: int, start: int, a: AngleArgument, l: int, mStart: int,
                             sqInt: seq<Float>, sqIntInv: seq<Float>, ghost prev1: seq<Float>, ghost prev2: seq<Float>)
      requires ValidShape(shape) && Abs(shape.n) + 2 <= l <= shape.lMax
      requires |prev2| == BlockSize(shape, l - 2) && |prev1| == BlockSize(shape, l - 1)
      requires mStart == StartingOrder(shape, l - 2) && startMinusOne == b1 + LowerSkip(shape, l)
      requires 0 <= b2 && b1 - b2 == |prev2| && b1 + |prev1| <= start && start + |prev2| <= data.Length
      requires Holds(data[..], b2, prev2) && Holds(data[..], b1, prev1)
      requires RootTable(shape, sqInt) && InverseRootTable(shape, sqIntInv)
      modifies data
      ensures Agree(old(data[..]), data[..], start, start + |prev2|)
      ensures Holds(data[..], start, TwoTermRun(shape, a, l, mStart, prev1, LowerSkip(shape, l), prev2))
    {
      DegreeOrders(shape, l);
      var n := shape.n;
      var (alpha, beta, gamma) := TwoTermConstants(l, n, a.cosTheta, sqIntInv[l - n], sqIntInv[l + n],
                                                   sqInt[l - 1 - n], sqInt[l - 1 + n]);
      TwoTermTransform(b2, b1, startMinusOne, start, a, l, mStart, alpha, beta, gamma, sqInt, sqIntInv,
                       prev1, b1, prev2);
    }

    /** The lower edges and the two-term block of degree l >= |n| + 2
        (Wigner.h lines 380-427), from the blocks prev2 of degree l - 2 at b2 and prev1
        of degree l - 1 at b1, written from b on; start and startMinusOne are
        where the upper edges begin and read. */
    method WriteBelowUpperEdges(b2: int, b1: int, b: int, a: AngleArgument, l: int,
                                sqInt: seq<Float>, sqIntInv: seq<Float>, ghost prev1: seq<Float>, ghost prev2: seq<Float>)
      returns (start: int, startMinusOne: int)
      requires ValidShape(shape) && Abs(shape.n) + 2 <= l <= shape.lMax
      requires |prev2| == BlockSize(shape, l - 2) && |prev1| == BlockSize(shape, l - 1)
      requires 0 <= b2 && b1 - b2 == |prev2| && b - b1 == |prev1| && b + BlockSize(shape, l) <= data.Length
      requires Holds(data[..], b2, prev2) && Holds(data[..], b1, prev1)
      requires RootTable(shape, sqInt) && InverseRootTable(shape, sqIntInv)
      modifies data
      ensures start == b + |LowerEdges(shape, a, l, prev1)| && startMinusOne == b1 + LowerSkip(shape, l)
      ensures Agree(old(data[..]), data[..], b, start + |prev2|) && Holds(data[..], b1, prev1)
      ensures Holds(data[..], b, LowerEdges(shape, a, l, prev1) +
                                 TwoTermRun(shape, a, l, StartingOrder(shape, l - 2), prev1, LowerSkip(shape, l), prev2))
    {
      ghost var d0 := data[..];
      var mStart;
      start, startMinusOne, mStart := WriteLowerEdges(b, b1, a, l, StartingOrder(shape, l), sqIntInv, prev1);
      ghost var d1 := data[..];
      HoldsKept(d0, d1, b, start, b1, prev1);
      HoldsKept(d0, d1, b, start, b2, prev2);
      WriteTwoTermBlock(b2, b1, startMinusOne, start, a, l, mStart, sqInt, sqIntInv, prev1, prev2);
      ghost var d2 := data[..];
      HoldsKept(d1, d2, start, start + |prev2|, b1, prev1);
      RunsJoin(d0, d1, d2, b, start, start + |prev2|, LowerEdges(shape, a, l, prev1),
               TwoTermRun(shape, a, l, mStart, prev1, LowerSkip(shape, l), prev2),
               LowerEdges(shape, a, l, prev1) + TwoTermRun(shape, a, l, mStart, prev1, LowerSkip(shape, l), prev2));
    }

    /** Degree l >= |n| + 2 (Wigner.h lines 371-466) from the blocks prev2 of degree
        l - 2 at b2 and prev1 of degree l - 1 at b1, written from b on: the
        lower edges, the two-term block and the upper edges. */
    method WriteDegree(b2: int, b1: int, b: int, a: AngleArgument, l: int, sqInt: seq<Float>, sqIntInv: seq<Float>,
                       ghost prev1: seq<Float>, ghost prev2: seq<Float>)
      requires ValidShape(shape) && Abs(shape.n) + 2 <= l <= shape.lMax
      requires |prev2| == BlockSize(shape, l - 2) && |prev1| == BlockSize(shape, l - 1)
      requires 0 <= b2 && b1 - b2 == |prev2| && b - b1 == |prev1| && b + BlockSize(shape, l) <= data.Length
      requires Holds(data[..], b2, prev2) && Holds(data[..], b1, prev1)
      requires RootTable(shape, sqInt) && InverseRootTable(shape, sqIntInv)
      modifies data
      ensures Agree(old(data[..]), data[..], b, b + BlockSize(shape, l))
      ensures Holds(data[..], b, DegreeBlock(shape, a, l, prev1, prev2))
    {
      var start, startMinusOne := WriteBelowUpperEdges(b2, b1, b, a, l, sqInt, sqIntInv, prev1, prev2);
      WriteUpperEdgesOfDegree(b1, b, start, startMinusOne, a, l, sqIntInv, prev1, prev2);
    }

    /** The upper edges of degree l >= |n| + 2 (Wigner.h lines 429-465), once the block
        from b on holds the lower edges and the two-term run; prev1 is the
        block of degree l - 1 at b1. */
    method WriteUpperEdgesOfDegree(b1: int, b: int, start: int, startMinusOne: int, a: AngleArgument, l: int,
                                   sqIntInv: seq<Float>, ghost prev1: seq<Float>, ghost prev2: seq<Float>)
      requires ValidShape(shape) && Abs(shape.n) + 2 <= l <= shape.lMax
      requires |prev2| == BlockSize(shape, l - 2) && |prev1| == BlockSize(shape, l - 1)
      requires 0 <= b1 && b - b1 == |prev1| && b + BlockSize(shape, l) <= data.Length
      requires start == b + |LowerEdges(shape, a, l, prev1)| && startMinusOne == b1 + LowerSkip(shape, l)
      requires Holds(data[..], b1, prev1)
      requires Holds(data[..], b, LowerEdges(shape, a, l, prev1) +
                                  TwoTermRun(shape, a, l, StartingOrder(shape, l - 2), prev1, LowerSkip(shape, l), prev2))
      requires InverseRootTable(shape, sqIntInv)
      modifies data
      ensures Agree(old(data[..]), data[..], start + |prev2|, b + BlockSize(shape, l))
      ensures Holds(data[..], b, DegreeBlock(shape, a, l, prev1, prev2))
    {
      ghost var d1 := data[..];
      UpperEdgesLayout(shape, a, l, prev1, prev2);
      WriteUpperEdges(start, startMinusOne, a, l, sqIntInv, prev1, b1, |prev2|);
      UpperEdgesJoin(shape, a, l, prev1, prev2, d1, data[..], b, start);
    }

    /** Degree l >= |n| + 2 of column i from its degrees l - 1 and l - 2. */
    method FillDegree(i: int, a: AngleArgument, l: int, sqInt: seq<Float>, sqIntInv: seq<Float>)
      requires Shaped() && 0 <= i < shape.nTheta && Abs(shape.n) + 2 <= l <= shape.lMax
      requires RootTable(shape, sqInt) && InverseRootTable(shape, sqIntInv)
      modifies data
      ensures Block(shape, data[..], i, l) ==
              DegreeBlock(shape, a, l, Block(shape, old(data[..]), i, l - 1), Block(shape, old(data[..]), i, l - 2))
      ensures Agree(old(data[..]), data[..], BeginForAngleAndDegree(shape, i, l), EndForAngleAndDegree(shape, i, l))
    {
      ghost var prev1, prev2 := Block(shape, data[..], i, l - 1), Block(shape, data[..], i, l - 2);
      var startMinusTwo := BeginForAngleAndDegree(shape, i, l - 2);
      var startMinusOne := BeginForAngleAndDegree(shape, i, l - 1);
      var start := BeginForAngleAndDegree(shape, i, l);
      DegreeSources(shape, data[..], i, l);
      WriteDegree(startMinusTwo, startMinusOne, start, a, l, sqInt, sqIntInv, prev1, prev2);
      BlockFromHolds(shape, data[..], i, l, DegreeBlock(shape, a, l, prev1, prev2));
    }

    /** Degrees |n| and, when lMax > |n|, |n| + 1 of column i (Wigner.h lines 302-367). */
    method FillLowDegrees(i: int, a: AngleArgument, sqIntInv: seq<Float>)
      requires Shaped() && 0 <= i < shape.nTheta && InverseRootTable(shape, sqIntInv)
      modifies data
      ensures ColumnUpTo(shape, a, data[..], i, Min(Abs(shape.n) + 1, shape.lMax))
      ensures Agree(old(data[..]), data[..], BeginForAngle(shape, i), EndForAngle(shape, i))
    {
      ghost var d0 := data[..];
      FillUpperIndexDegree(i, a);
      ghost var d1 := data[..];
      UpperIndexStep(shape, a, d0, d1, i);
      if Abs(shape.n) < shape.lMax {
        FillColumnNextDegree(i, a, sqIntInv);
      }
    }

    /** Degree |n| + 1 of a column whose degree |n| is done. */
    method FillColumnNextDegree(i: int, a: AngleArgument, sqIntInv: seq<Float>)
      requires Shaped() && 0 <= i < shape.nTheta && Abs(shape.n) < shape.lMax && InverseRootTable(shape, sqIntInv)
      requires ColumnUpTo(shape, a, data[..], i, Abs(shape.n))
      modifies data
      ensures ColumnUpTo(shape, a, data[..], i, Abs(shape.n) + 1)
      ensures Agree(old(data[..]), data[..], BeginForAngle(shape, i), EndForAngle(shape, i))
    {
      ghost var d1 := data[..];
      FillNextDegree(i, a, sqIntInv);
      ghost var d2 := data[..];
      NextDegreeStep(shape, a, d1, d2, i);
    }

    /** The loop over the degrees l = |n| + 2, ..., lMax of column i (Wigner.h lines 369-466). */
    method FillDegrees(i: int, a: AngleArgument, sqInt: seq<Float>, sqIntInv: seq<Float>)
      requires Shaped() && 0 <= i < shape.nTheta
      requires RootTable(shape, sqInt) && InverseRootTable(shape, sqIntInv)
      requires ColumnUpTo(shape, a, data[..], i, Min(Abs(shape.n) + 1, shape.lMax))
      modifies data
      ensures ColumnUpTo(shape, a, data[..], i, shape.lMax)
      ensures Agree(old(data[..]), data[..], BeginForAngle(shape, i), EndForAngle(shape, i))
    {
      var l := Abs(shape.n) + 2;
      while l <= shape.lMax
        invariant Abs(shape.n) + 2 <= l && (l <= shape.lMax + 1 || l == Abs(shape.n) + 2)
        invariant ColumnUpTo(shape, a, data[..], i, Min(l - 1, shape.lMax))
        invariant Agree(old(data[..]), data[..], BeginForAngle(shape, i), EndForAngle(shape, i))
      {
        ghost var d := data[..];
        FillDegree(i, a, l, sqInt, sqIntInv);
        DegreeStep(shape, a, d, data[..], i, l);
        l := l + 1;
      }
    }

    /** The std::transform of the Ortho normalisation over positions
        start..finish-1, which hold degree l (Wigner.h lines 470-474). */
    method ScaleRange(start: int, finish: int, l: int)
      requires 0 <= start <= finish <= data.Length
      modifies data
      ensures Agree(old(data[..]), data[..], start, finish)
      ensures forall p | start <= p < finish :: data[p] == Normalised(Ortho, l, old(data[p]))
    {
      var p := start;
      while p < finish
        invariant start <= p <= finish
        invariant Agree(old(data[..]), data[..], start, p)
        invariant forall q | start <= q < p :: data[q] == Normalised(Ortho, l, old(data[q]))
      {
        data[p] := Mul(Mul(Mul(Lit(0.5), Sqrt(I(2 * l + 1))), InvSqrtPi), data[p]);
        p := p + 1;
      }
    }

    /** The Ortho normalisation of column i (Wigner.h lines 466-477): the loop runs over
        every degree 0..lMax, and the ranges of the degrees below |n| are empty. */
    method Normalise(i: int)
      requires Shaped() && 0 <= i < shape.nTheta
      modifies data
      ensures ScaledUpTo(shape, old(data[..]), data[..], i, shape.lMax)
      ensures Agree(old(data[..]), data[..], BeginForAngle(shape, i), EndForAngle(shape, i))
    {
      var l := 0;
      while l <= shape.lMax
        invariant 0 <= l <= shape.lMax + 1
        invariant ScaledUpTo(shape, old(data[..]), data[..], i, l - 1)
        invariant Agree(old(data[..]), data[..], BeginForAngle(shape, i), BeginForAngleAndDegree(shape, i, l))
      {
        ghost var d := data[..];
        var start := BeginForAngleAndDegree(shape, i, l);
        var finish := EndForAngleAndDegree(shape, i, l);
        BlockInColumn(shape, i, l);
        ScaleRange(start, finish, l);
        ScaledStep(shape, old(data[..]), d, data[..], i, l);
        l := l + 1;
      }
      BlockInColumn(shape, i, shape.lMax);
    }

    /** Column i for the angle t (Wigner.h lines 279-478): the angle terms, the
        square-root tables, the recursion degree by degree and, for Ortho
        tables, the normalisation. */
    method ComputeValues(i: int, t: Angle)
      requires Shaped() && 0 <= i < shape.nTheta
      modifies data
      ensures ColumnDone(shape, norm, AngleArgumentOf(t), data[..], i)
      ensures Agree(old(data[..]), data[..], BeginForAngle(shape, i), EndForAngle(shape, i))
    {
      var a := AngleArgumentOf(t);
      var sqInt, sqIntInv := SquareRootTables(shape);
      FillLowDegrees(i, a, sqIntInv[..]);
      FillDegrees(i, a, sqInt[..], sqIntInv[..]);
      ghost var d := data[..];
      if norm == Ortho {
        Normalise(i);
      }
      ColumnFinished(shape, norm, a, d, data[..], i);
    }

    /** The constructors for a range of angles and for a pair of iterators
        over angles (Wigner.h lines 84-110): one column per angle, column i computed
        for angle i. */
    constructor (lMax: int, mMax: int, n: int, orders: OrderRange, norm: Normalisation, thetas: seq<Angle>)
      requires ValidShape(Shape(lMax, mMax, n, |thetas|, orders))
      ensures shape == Shape(lMax, mMax, n, |thetas|, orders) && this.norm == norm && angles == thetas
      ensures Valid() && fresh(data)
    {
      shape := Shape(lMax, mMax, n, |thetas|, orders);
      this.norm := norm;
      angles := thetas;
      BeginForAngleMonotone(Shape(lMax, mMax, n, |thetas|, orders), 0, |thetas|);
      data := new Float[BufferSize(Shape(lMax, mMax, n, |thetas|, orders))](_ => I(0));
      new;
      ComputeColumns(thetas);
    }

    /** The loop of the range constructors: column i computed for angle i. */
    method ComputeColumns(thetas: seq<Angle>)
      requires Shaped() && thetas == angles && |thetas| == shape.nTheta
      modifies data
      ensures Valid()
    {
      var i := 0;
      while i < |thetas|
        invariant 0 <= i <= |thetas|
        invariant ColumnsDone(shape, norm, thetas, data[..], i)
      {
        ghost var d := data[..];
        ComputeValues(i, thetas[i]);
        ColumnsDoneKept(shape, norm, thetas, d, data[..], i);
        ColumnsDoneExtended(shape, norm, thetas, data[..], i);
        i := i + 1;
      }
    }

    /** The constructor for a single angle (Wigner.h lines 73-81): one column. */
    constructor Single(lMax: int, mMax: int, n: int, orders: OrderRange, norm: Normalisation, theta: Angle)
      requires ValidShape(Shape(lMax, mMax, n, 1, orders))
      ensures shape == Shape(lMax, mMax, n, 1, orders) && this.norm == norm && angles == [theta]
      ensures Valid() && fresh(data)
    {
      shape := Shape(lMax, mMax, n, 1, orders);
      this.norm := norm;
      angles := [theta];
      BeginForAngleMonotone(Shape(lMax, mMax, n, 1, orders), 0, 1);
      data := new Float[BufferSize(Shape(lMax, mMax, n, 1, orders))](_ => I(0));
      new;
      ComputeValues(0, theta);
    }

    /** The accessor with an angle (Wigner.h lines 246-261): the value at (i, l, m)
        is the normalised d^l_{m,n} of angle i. */
    function At(i: int, l: int, m: int): (r: Float)
      reads this, data
      requires Valid() && 0 <= i < shape.nTheta && ValidSlot(shape, l, m)
      ensures r == Normalised(norm, l, ColumnValue(shape, AngleArgumentOf(angles[i]), l, m))
    {
      data[OffsetAt(shape, i, l, m)]
    }

    /** The accessor without an angle (Wigner.h lines 229-244): offset Offset(l, m)
        from the start of the buffer, which is the first angle's column. */
    function AtFirst(l: int, m: int): (r: Float)
      reads this, data
      requires Valid() && 1 <= shape.nTheta && ValidSlot(shape, l, m)
      ensures r == At(0, l, m) == Normalised(norm, l, ColumnValue(shape, AngleArgumentOf(angles[0]), l, m))
    {
      assert OffsetAt(shape, 0, l, m) == Offset(shape, l, m);
      data[Offset(shape, l, m)]
    }
  }
}
