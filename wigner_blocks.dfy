/** What the library writes for one degree of one column, as a sequence built
    from the blocks of the previous degrees: the boundary values at the ends
    of the block, the one-term values next to them, and the run of two-term
    values in between. Each is proved equal to the block of values the
    recursion defines. */
module WignerBlocks {
  import opened Tags
  import opened WignerIndex
  import opened WignerBoundary
  import opened WignerRecursion

  /** The values the recursion defines for degree l, lowest order first. */
  function ColumnBlock(s: Shape, a: AngleArgument, l: int): (r: seq<Float>)
    requires ValidShape(s) && Abs(s.n) <= l <= s.lMax
    ensures |r| == BlockSize(s, l)
  {
    seq(BlockSize(s, l), k requires 0 <= k < BlockSize(s, l) => ColumnValue(s, a, l, StartingOrder(s, l) + k))
  }

  /** Order m of degree l sits at position m - StartingOrder(l) of its block. */
  lemma ColumnBlockAt(s: Shape, a: AngleArgument, l: int, m: int)
    requires ValidShape(s) && ValidSlot(s, l, m)
    ensures 0 <= m - StartingOrder(s, l) < BlockSize(s, l)
    ensures ColumnBlock(s, a, l)[m - StartingOrder(s, l)] == ColumnValue(s, a, l, m)
  {
  }

  /** The same with the position given as k. */
  lemma ColumnBlockEntry(s: Shape, a: AngleArgument, l: int, m: int, k: int)
    requires ValidShape(s) && ValidSlot(s, l, m) && k == m - StartingOrder(s, l)
    ensures 0 <= k < BlockSize(s, l) && ColumnBlock(s, a, l)[k] == ColumnValue(s, a, l, m)
  {
    ColumnBlockAt(s, a, l, m);
  }

  /** Three blocks laid end to end equal c when each agrees with its part of c. */
  lemma Concat3(x: seq<Float>, y: seq<Float>, z: seq<Float>, c: seq<Float>)
    requires |x| + |y| + |z| == |c|
    requires forall k | 0 <= k < |x| :: x[k] == c[k]
    requires forall k | 0 <= k < |y| :: y[k] == c[|x| + k]
    requires forall k | 0 <= k < |z| :: z[k] == c[|x| + |y| + k]
    ensures x + y + z == c
  {
    var r := x + y + z;
    forall k | 0 <= k < |c|
      ensures r[k] == c[k]
    {
      if k < |x| {
      } else if k < |x| + |y| {
        assert r[k] == y[k - |x|];
      } else {
        assert r[k] == z[k - |x| - |y|];
      }
    }
  }

  // The recursion at each of the three kinds of slot.

  lemma BoundaryIsColumn(s: Shape, a: AngleArgument, l: int, m: int)
    requires ValidShape(s) && ValidSlot(s, l, m) && !ValidSlot(s, l - 1, m)
    ensures ColumnValue(s, a, l, m) == BoundaryValue(s, a, l, m)
  {
  }

  lemma OneTermIsColumn(s: Shape, a: AngleArgument, l: int, m: int)
    requires ValidShape(s) && ValidSlot(s, l, m) && ValidSlot(s, l - 1, m) && !ValidSlot(s, l - 2, m)
    ensures ColumnValue(s, a, l, m) == OneTermValue(s, a, l, m, ColumnValue(s, a, l - 1, m))
  {
  }

  lemma TwoTermIsColumn(s: Shape, a: AngleArgument, l: int, m: int)
    requires ValidShape(s) && ValidSlot(s, l, m) && ValidSlot(s, l - 1, m) && ValidSlot(s, l - 2, m)
    ensures ColumnValue(s, a, l, m) == TwoTermValue(s, a, l, m, ColumnValue(s, a, l - 1, m), ColumnValue(s, a, l - 2, m))
  {
  }

  // ---------------------------------------------------------------------
  // Degree |n| (Wigner.h lines 303-323).
  // ---------------------------------------------------------------------

  /** The upper-index evaluator at every order of degree |n|: d^l_{m,l} for
      n >= 0 and d^l_{m,-l} for n < 0. */
  function UpperIndexBlock(s: Shape, a: AngleArgument): (r: seq<Float>)
    requires ValidShape(s)
    ensures |r| == BlockSize(s, Abs(s.n))
  {
    var l: int := Abs(s.n);
    seq(BlockSize(s, l), k requires 0 <= k < BlockSize(s, l) =>
      if s.n >= 0 then MaxUpperIndexAtOrder(l, StartingOrder(s, l) + k, a)
      else MinUpperIndexAtOrder(l, StartingOrder(s, l) + k, a))
  }

  /** Degree |n| as written holds the recursion's values. */
  lemma UpperIndexBlockIsColumn(s: Shape, a: AngleArgument)
    requires ValidShape(s)
    ensures UpperIndexBlock(s, a) == ColumnBlock(s, a, Abs(s.n))
  {
    var l: int := Abs(s.n);
    var u, c := UpperIndexBlock(s, a), ColumnBlock(s, a, l);
    forall k | 0 <= k < BlockSize(s, l)
      ensures u[k] == c[k]
    {
      BoundaryIsColumn(s, a, l, StartingOrder(s, l) + k);
    }
  }

  // ---------------------------------------------------------------------
  // Degree |n| + 1 (Wigner.h lines 325-367).
  // ---------------------------------------------------------------------

  /** The one-term transform of the values prev of degree l - 1, for the
      orders from mStart on. */
  function OneTermRun(s: Shape, a: AngleArgument, l: int, mStart: int, prev: seq<Float>): (r: seq<Float>)
    ensures |r| == |prev|
  {
    seq(|prev|, k requires 0 <= k < |prev| => OneTermValue(s, a, l, mStart + k, prev[k]))
  }

  /** Whether degree l starts with the evaluator at m = -l: all orders are
      stored and l is still within the maximum order. */
  predicate HasLowerBoundary(s: Shape, l: int)
  {
    s.orders == All && l <= s.mMax
  }

  /** The evaluator at m = -l that opens degree l, when it is written. */
  function LowerEnd(s: Shape, a: AngleArgument, l: int): (r: seq<Float>)
    requires Abs(s.n) <= l
  {
    if HasLowerBoundary(s, l) then [MinOrderAtUpperIndex(l, s.n, a)] else []
  }

  /** The evaluator at m = l that closes degree l while orders grow. */
  function UpperEnd(s: Shape, a: AngleArgument, l: int): (r: seq<Float>)
    requires Abs(s.n) <= l
  {
    if l <= s.mMax then [MaxOrderAtUpperIndex(l, s.n, a)] else []
  }

  /** Degree |n| + 1 as the library writes it from the block prev of degree |n|:
      the evaluator at m = -l while orders grow and all are stored, the
      one-term transform of prev, and the evaluator at m = l while orders grow. */
  function NextDegreeBlock(s: Shape, a: AngleArgument, prev: seq<Float>): (r: seq<Float>)
    requires ValidShape(s) && Abs(s.n) < s.lMax
  {
    var l := Abs(s.n) + 1;
    LowerEnd(s, a, l) + OneTermRun(s, a, l, StartingOrder(s, l) + |LowerEnd(s, a, l)|, prev) + UpperEnd(s, a, l)
  }

  /** The one-term run of degree |n| + 1 holds the recursion's values of the
      orders stored at degree |n|. */
  lemma NextDegreeRunIsColumn(s: Shape, a: AngleArgument, front: int, y: seq<Float>, c: seq<Float>)
    requires ValidShape(s) && Abs(s.n) < s.lMax
    requires front == |LowerEnd(s, a, Abs(s.n) + 1)|
    requires y == OneTermRun(s, a, Abs(s.n) + 1, StartingOrder(s, Abs(s.n) + 1) + front, ColumnBlock(s, a, Abs(s.n)))
    requires c == ColumnBlock(s, a, Abs(s.n) + 1)
    ensures forall j | 0 <= j < |y| :: front + j < |c| && y[j] == c[front + j]
  {
    var l := Abs(s.n) + 1;
    var prev := ColumnBlock(s, a, l - 1);
    var mStart := StartingOrder(s, l) + front;
    assert mStart == StartingOrder(s, l - 1);
    forall j | 0 <= j < |y|
      ensures front + j < |c| && y[j] == c[front + j]
    {
      var m := mStart + j;
      assert prev[j] == ColumnValue(s, a, l - 1, m);
      assert c[front + j] == ColumnValue(s, a, l, m);
      OneTermIsColumn(s, a, l, m);
    }
  }

  /** The evaluators at the two ends of degree |n| + 1 are the recursion's
      values there. */
  lemma NextDegreeEndsAreColumn(s: Shape, a: AngleArgument, x: seq<Float>, z: seq<Float>, c: seq<Float>)
    requires ValidShape(s) && Abs(s.n) < s.lMax
    requires x == LowerEnd(s, a, Abs(s.n) + 1) && z == UpperEnd(s, a, Abs(s.n) + 1)
    requires c == ColumnBlock(s, a, Abs(s.n) + 1)
    ensures |x| + BlockSize(s, Abs(s.n)) + |z| == |c|
    ensures forall k | 0 <= k < |x| :: x[k] == c[k]
    ensures forall k | 0 <= k < |z| :: z[k] == c[|c| - 1 + k]
  {
    var l := Abs(s.n) + 1;
    if |x| == 1 {
      ColumnBlockAt(s, a, l, -l);
      BoundaryIsColumn(s, a, l, -l);
    }
    if |z| == 1 {
      ColumnBlockAt(s, a, l, l);
      BoundaryIsColumn(s, a, l, l);
    }
  }

  /** The three parts of degree |n| + 1, its two ends and its one-term run,
      laid end to end are the recursion's block. */
  lemma NextDegreePartsAreColumn(s: Shape, a: AngleArgument, x: seq<Float>, y: seq<Float>, z: seq<Float>, c: seq<Float>)
    requires ValidShape(s) && Abs(s.n) < s.lMax
    requires x == LowerEnd(s, a, Abs(s.n) + 1) && z == UpperEnd(s, a, Abs(s.n) + 1)
    requires y == OneTermRun(s, a, Abs(s.n) + 1, StartingOrder(s, Abs(s.n) + 1) + |x|, ColumnBlock(s, a, Abs(s.n)))
    requires c == ColumnBlock(s, a, Abs(s.n) + 1)
    ensures x + y + z == c
  {
    NextDegreeEndsAreColumn(s, a, x, z, c);
    NextDegreeRunIsColumn(s, a, |x|, y, c);
    Concat3(x, y, z, c);
  }

  /** Degree |n| + 1 as written from the recursion's degree |n| holds the
      recursion's values. */
  lemma NextDegreeBlockIsColumn(s: Shape, a: AngleArgument)
    requires ValidShape(s) && Abs(s.n) < s.lMax
    ensures NextDegreeBlock(s, a, ColumnBlock(s, a, Abs(s.n))) == ColumnBlock(s, a, Abs(s.n) + 1)
  {
    var l := Abs(s.n) + 1;
    var prev, c := ColumnBlock(s, a, Abs(s.n)), ColumnBlock(s, a, l);
    var x, z := LowerEnd(s, a, l), UpperEnd(s, a, l);
    var y := OneTermRun(s, a, l, StartingOrder(s, l) + |x|, prev);
    assert NextDegreeBlock(s, a, prev) == x + y + z;
    NextDegreePartsAreColumn(s, a, x, y, z, c);
  }

  // ---------------------------------------------------------------------
  // Degrees |n| + 2 and above (Wigner.h lines 370-466).
  // ---------------------------------------------------------------------

  /** Whether degree l is the first one clipped at the maximum order. */
  predicate IsCritical(s: Shape, l: int)
  {
    l == s.mMax + 1
  }

  /** The values written below the two-term run (Wigner.h lines 380-408), from the
      block prev of degree l - 1: with all orders stored, the evaluator at
      m = -l and the one-term value at m = -l + 1 while orders grow, and the
      one-term value at m = -mMax at the first clipped degree. */
  function LowerEdges(s: Shape, a: AngleArgument, l: int, prev: seq<Float>): (r: seq<Float>)
    requires ValidShape(s) && Abs(s.n) + 2 <= l <= s.lMax && |prev| > 0
    ensures |r| == StartingOrder(s, l - 2) - StartingOrder(s, l)
  {
    if s.orders != All then []
    else if l <= s.mMax then [MinOrderAtUpperIndex(l, s.n, a), OneTermValue(s, a, l, -l + 1, prev[0])]
    else if IsCritical(s, l) then [OneTermValue(s, a, l, -s.mMax, prev[0])]
    else []
  }

  /** The values written above the two-term run (Wigner.h lines 429-465), from the
      block prev of degree l - 1: the one-term value at m = l - 1 and the
      evaluator at m = l while orders grow, and the one-term value at
      m = mMax at the first clipped degree. */
  function UpperEdges(s: Shape, a: AngleArgument, l: int, prev: seq<Float>): (r: seq<Float>)
    requires ValidShape(s) && Abs(s.n) + 2 <= l <= s.lMax && |prev| > 0
    ensures |r| == (StartingOrder(s, l) + BlockSize(s, l)) - (StartingOrder(s, l - 2) + BlockSize(s, l - 2))
  {
    if l <= s.mMax then [OneTermValue(s, a, l, l - 1, prev[|prev| - 1]), MaxOrderAtUpperIndex(l, s.n, a)]
    else if IsCritical(s, l) then [OneTermValue(s, a, l, s.mMax, prev[|prev| - 1])]
    else []
  }

  /** The two-term transform of the values two (degree l - 2) and of the
      values of one (degree l - 1) from position skip on, for the orders from
      mStart on. */
  function TwoTermRun(s: Shape, a: AngleArgument, l: int, mStart: int, one: seq<Float>, skip: int, two: seq<Float>)
    : (r: seq<Float>)
    requires 0 <= skip && skip + |two| <= |one|
    ensures |r| == |two|
  {
    seq(|two|, k requires 0 <= k < |two| => TwoTermValue(s, a, l, mStart + k, one[skip + k], two[k]))
  }

  /** How many values of degree l - 1 the lower edges consume. */
  function LowerSkip(s: Shape, l: int): int
  {
    if s.orders == All && l <= s.mMax + 1 then 1 else 0
  }

  /** Degree l >= |n| + 2 as the library writes it from the blocks prev1 and
      prev2 of degrees l - 1 and l - 2: the lower edges, the two-term
      transform over the orders stored at degree l - 2, and the upper edges. */
  function DegreeBlock(s: Shape, a: AngleArgument, l: int, prev1: seq<Float>, prev2: seq<Float>): (r: seq<Float>)
    requires ValidShape(s) && Abs(s.n) + 2 <= l <= s.lMax
    requires |prev1| == BlockSize(s, l - 1) && |prev2| == BlockSize(s, l - 2)
  {
    LowerEdges(s, a, l, prev1) +
    TwoTermRun(s, a, l, StartingOrder(s, l - 2), prev1, LowerSkip(s, l), prev2) +
    UpperEdges(s, a, l, prev1)
  }

  /** The values below the two-term run are the recursion's values of the
      orders of degree l not stored at degree l - 2 from below. */
  lemma LowerEdgesAreColumn(s: Shape, a: AngleArgument, l: int, x: seq<Float>, c: seq<Float>)
    requires ValidShape(s) && Abs(s.n) + 2 <= l <= s.lMax
    requires x == LowerEdges(s, a, l, ColumnBlock(s, a, l - 1))
    requires c == ColumnBlock(s, a, l)
    ensures |x| == StartingOrder(s, l - 2) - StartingOrder(s, l)
    ensures forall k | 0 <= k < |x| :: x[k] == c[k]
  {
    if s.orders == All && l <= s.mMax {
      LowerEdgesGrowing(s, a, l, x, c);
    } else if s.orders == All && IsCritical(s, l) {
      LowerEdgeCritical(s, a, l, x, c);
    }
  }

  lemma LowerEdgesGrowing(s: Shape, a: AngleArgument, l: int, x: seq<Float>, c: seq<Float>)
    requires ValidShape(s) && Abs(s.n) + 2 <= l <= s.lMax && s.orders == All && l <= s.mMax
    requires x == LowerEdges(s, a, l, ColumnBlock(s, a, l - 1))
    requires c == ColumnBlock(s, a, l)
    ensures |x| == 2 && x[0] == c[0] && x[1] == c[1]
  {
    ColumnBlockAt(s, a, l, -l);
    BoundaryIsColumn(s, a, l, -l);
    ColumnBlockAt(s, a, l - 1, -l + 1);
    ColumnBlockAt(s, a, l, -l + 1);
    OneTermIsColumn(s, a, l, -l + 1);
  }

  lemma LowerEdgeCritical(s: Shape, a: AngleArgument, l: int, x: seq<Float>, c: seq<Float>)
    requires ValidShape(s) && Abs(s.n) + 2 <= l <= s.lMax && s.orders == All && IsCritical(s, l)
    requires x == LowerEdges(s, a, l, ColumnBlock(s, a, l - 1))
    requires c == ColumnBlock(s, a, l)
    ensures |x| == 1 && x[0] == c[0]
  {
    ColumnBlockAt(s, a, l - 1, -s.mMax);
    ColumnBlockAt(s, a, l, -s.mMax);
    OneTermIsColumn(s, a, l, -s.mMax);
  }

  /** The values above the two-term run are the recursion's values of the
      orders of degree l not stored at degree l - 2 from above. */
  lemma UpperEdgesAreColumn(s: Shape, a: AngleArgument, l: int, z: seq<Float>, c: seq<Float>)
    requires ValidShape(s) && Abs(s.n) + 2 <= l <= s.lMax
    requires z == UpperEdges(s, a, l, ColumnBlock(s, a, l - 1))
    requires c == ColumnBlock(s, a, l)
    ensures |z| == (StartingOrder(s, l) + BlockSize(s, l)) - (StartingOrder(s, l - 2) + BlockSize(s, l - 2))
    ensures forall k | 0 <= k < |z| :: z[k] == c[|c| - |z| + k]
  {
    if l <= s.mMax {
      UpperEdgesGrowing(s, a, l, z, c);
    } else if IsCritical(s, l) {
      UpperEdgeCritical(s, a, l, z, c);
    }
  }

  lemma UpperEdgesGrowing(s: Shape, a: AngleArgument, l: int, z: seq<Float>, c: seq<Float>)
    requires ValidShape(s) && Abs(s.n) + 2 <= l <= s.lMax && l <= s.mMax
    requires z == UpperEdges(s, a, l, ColumnBlock(s, a, l - 1))
    requires c == ColumnBlock(s, a, l)
    ensures |z| == 2 && z[0] == c[|c| - 2] && z[1] == c[|c| - 1]
  {
    ColumnBlockAt(s, a, l - 1, l - 1);
    ColumnBlockAt(s, a, l, l - 1);
    OneTermIsColumn(s, a, l, l - 1);
    ColumnBlockAt(s, a, l, l);
    BoundaryIsColumn(s, a, l, l);
  }

  lemma UpperEdgeCritical(s: Shape, a: AngleArgument, l: int, z: seq<Float>, c: seq<Float>)
    requires ValidShape(s) && Abs(s.n) + 2 <= l <= s.lMax && IsCritical(s, l)
    requires z == UpperEdges(s, a, l, ColumnBlock(s, a, l - 1))
    requires c == ColumnBlock(s, a, l)
    ensures |z| == 1 && z[0] == c[|c| - 1]
  {
    ColumnBlockAt(s, a, l - 1, s.mMax);
    ColumnBlockAt(s, a, l, s.mMax);
    OneTermIsColumn(s, a, l, s.mMax);
  }

  /** The two inputs of entry j of the two-term run at degree l are the
      recursion's values at (l - 1, m) and (l - 2, m), m being the order of
      entry j. */
  lemma TwoTermInputsAt(s: Shape, a: AngleArgument, l: int, j: int)
    requires ValidShape(s) && Abs(s.n) + 2 <= l <= s.lMax && 0 <= j < BlockSize(s, l - 2)
    ensures var m := StartingOrder(s, l - 2) + j;
            var prev1, prev2 := ColumnBlock(s, a, l - 1), ColumnBlock(s, a, l - 2);
            ValidSlot(s, l, m) && ValidSlot(s, l - 1, m) && ValidSlot(s, l - 2, m) &&
            0 <= LowerSkip(s, l) + j < |prev1| &&
            prev1[LowerSkip(s, l) + j] == ColumnValue(s, a, l - 1, m) && prev2[j] == ColumnValue(s, a, l - 2, m)
  {
    var m := StartingOrder(s, l - 2) + j;
    TwoTermSlots(s, l, m);
    ColumnBlockEntry(s, a, l - 2, m, j);
    ColumnBlockEntry(s, a, l - 1, m, LowerSkip(s, l) + j);
  }

  /** Entry j of the two-term run at degree l, from the recursion's blocks of
      degrees l - 1 and l - 2, is the recursion's value at its order. */
  lemma TwoTermRunAt(s: Shape, a: AngleArgument, l: int, j: int)
    requires ValidShape(s) && Abs(s.n) + 2 <= l <= s.lMax && 0 <= j < BlockSize(s, l - 2)
    ensures var m := StartingOrder(s, l - 2) + j;
            var prev1, prev2 := ColumnBlock(s, a, l - 1), ColumnBlock(s, a, l - 2);
            0 <= LowerSkip(s, l) + j < |prev1| &&
            TwoTermValue(s, a, l, m, prev1[LowerSkip(s, l) + j], prev2[j]) == ColumnValue(s, a, l, m)
  {
    TwoTermInputsAt(s, a, l, j);
    TwoTermIsColumn(s, a, l, StartingOrder(s, l - 2) + j);
  }

  /** The two-term run holds the recursion's values of the orders stored at
      degree l - 2, read from the matching orders of degrees l - 1 and l - 2. */
  lemma TwoTermRunIsColumn(s: Shape, a: AngleArgument, l: int, off: int, y: seq<Float>, c: seq<Float>)
    requires ValidShape(s) && Abs(s.n) + 2 <= l <= s.lMax
    requires y == TwoTermRun(s, a, l, StartingOrder(s, l - 2), ColumnBlock(s, a, l - 1), LowerSkip(s, l),
                             ColumnBlock(s, a, l - 2))
    requires c == ColumnBlock(s, a, l)
    requires off == StartingOrder(s, l - 2) - StartingOrder(s, l)
    ensures forall j | 0 <= j < |y| :: 0 <= off + j < |c| && y[j] == c[off + j]
  {
    forall j | 0 <= j < |y|
      ensures 0 <= off + j < |c| && y[j] == c[off + j]
    {
      var m := StartingOrder(s, l - 2) + j;
      TwoTermSlots(s, l, m);
      TwoTermRunAt(s, a, l, j);
      ColumnBlockAt(s, a, l, m);
      assert off + j == m - StartingOrder(s, l);
    }
  }

  /** Degree l >= |n| + 2 as written from the recursion's degrees l - 1 and
      l - 2 holds the recursion's values. */
  lemma DegreeBlockIsColumn(s: Shape, a: AngleArgument, l: int)
    requires ValidShape(s) && Abs(s.n) + 2 <= l <= s.lMax
    ensures DegreeBlock(s, a, l, ColumnBlock(s, a, l - 1), ColumnBlock(s, a, l - 2)) == ColumnBlock(s, a, l)
  {
    var prev1, prev2, c := ColumnBlock(s, a, l - 1), ColumnBlock(s, a, l - 2), ColumnBlock(s, a, l);
    var x := LowerEdges(s, a, l, prev1);
    var y := TwoTermRun(s, a, l, StartingOrder(s, l - 2), prev1, LowerSkip(s, l), prev2);
    var z := UpperEdges(s, a, l, prev1);
    LowerEdgesAreColumn(s, a, l, x, c);
    UpperEdgesAreColumn(s, a, l, z, c);
    TwoTermRunIsColumn(s, a, l, |x|, y, c);
    Concat3(x, y, z, c);
  }
}
