/** Inputs the constructors of the Wigner table accept although the index
    scheme or the recursion is not sound for them: the constructors only
    check 0 <= lMax and 0 <= mMax <= lMax (ConstructorAsserts). The column
    layout and the square-root tables are sound when also |n| <= mMax
    (ValidShape, which the model's constructors require), or when
    lMax = |n| = mMax + 1, where only degree |n| is stored. */
module WignerFindings {
  import opened Tags
  import opened WignerIndex
  import opened WignerRecursion

  /** With lMax = 2, mMax = 0 and n = 2 the constructors' checks pass, yet the
      closed-form column size Count() is -1, so the buffer cannot be sized. */
  lemma NegativeCountAdmitted()
    ensures var s := Shape(2, 0, 2, 1, All);
      ConstructorAsserts(s) && !ValidShape(s) && Count(s, s.lMax) == -1
  {
  }

  /** With lMax = 2, mMax = 0 and n = 1 the checks pass and the first
      recursion step, at degree |n| + 1 = 2, reads entry l + |n| = 3 of the
      inverse square-root table, which has lMax + mMax + 1 = 3 entries. */
  lemma TableOverrunAdmitted()
    ensures var s := Shape(2, 0, 1, 1, All);
      ConstructorAsserts(s) && !ValidShape(s) &&
      ValidSlot(s, Abs(s.n) + 1, 0) &&
      (Abs(s.n) + 1) + Abs(s.n) == TableSize(s)
  {
  }

  /** Under ValidShape both failures are excluded: Count() is the sum of the
      block sizes, never negative, and every table index the first step reads
      lies inside the table. */
  lemma ValidShapeExcludesBoth(s: Shape)
    requires ValidShape(s) && Abs(s.n) + 1 <= s.lMax
    ensures Count(s, s.lMax) == BlockSum(s, s.lMax) >= 0
    ensures 1 <= (Abs(s.n) + 1) + Abs(s.n) < TableSize(s)
  {
    CountIsBlockSum(s, s.lMax);
    BlockSumNonNegative(s, s.lMax);
    StartingOrderIsLowest(s, Abs(s.n) + 1);
    StartingOrderIsLowest(s, Abs(s.n));
    RecurrenceIndicesInRange(s, Abs(s.n) + 1, StartingOrder(s, Abs(s.n)));
  }

  /** The shapes outside ValidShape that the library still handles:
      lMax = |n| = mMax + 1. Only degree |n| is stored, the closed form gives
      exactly its block, and no recursion step (degree |n| + 1 on) runs. */
  lemma TopDegreeOnlyExact(s: Shape)
    requires ConstructorAsserts(s) && s.lMax == Abs(s.n) == s.mMax + 1
    ensures !ValidShape(s)
    ensures Count(s, s.lMax - 1) == 0
    ensures Count(s, s.lMax) == BlockSum(s, s.lMax) == BlockSize(s, s.lMax)
    ensures Abs(s.n) + 1 > s.lMax
  {
    assert BlockSum(s, s.lMax - 1) == 0;
  }
}
