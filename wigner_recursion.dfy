/** What one angle's column of a Wigner table holds, degree by degree.
    A slot (l, m) is filled by the boundary evaluator when order m is not
    stored at degree l - 1, by the one-term recurrence from (l - 1, m) when m is
    stored at l - 1 but not at l - 2, and by the two-term recurrence from
    (l - 1, m) and (l - 2, m) when it is stored at both. The coefficients are
    written as the floating-point operations the library performs, in its
    order of evaluation. */
module WignerRecursion {
  import opened Tags
  import opened WignerIndex
  import opened WignerBoundary

  /** An integer converted to the floating-point type. */
  function I(k: int): Float
  {
    Lit(k as real)
  }

  /** sqInt[k] = sqrt(k). */
  function SqInt(k: int): Float
  {
    Sqrt(I(k))
  }

  /** sqIntInv[k] = 1 / sqrt(k), and 0 where sqrt(k) is not positive; the
      floating-point square root of an integer k is positive exactly when k is. */
  function SqIntInv(k: int): Float
  {
    if k > 0 then Div(I(1), SqInt(k)) else I(0)
  }

  /** Both tables have lMax + mMax + 1 entries. */
  function TableSize(s: Shape): int
  {
    s.lMax + s.mMax + 1
  }

  // The coefficients are written as a per-degree part and a per-order part,
  // each taking the table entries it reads as arguments, as the library
  // computes them.

  /** alpha and beta of the one-term step at degree |n| + 1 (Wigner.h lines 347-349),
      from q = sqIntInv[l + |n|]; beta changes sign for negative n. */
  function FirstStepConstants(l: int, n: int, cosTheta: Float, q: Float): (Float, Float)
  {
    var alpha := Mul(Mul(I((2 * l - 1) * l), cosTheta), q);
    var beta := Mul(I(2 * l - 1), q);
    (alpha, if n < 0 then Mul(beta, I(-1)) else beta)
  }

  /** f1 of the one-term step at degree |n| + 1 (Wigner.h line 353), from
      qm = sqIntInv[l - m] and qp = sqIntInv[l + m]. */
  function FirstStepFactor(alpha: Float, beta: Float, m: int, qm: Float, qp: Float): Float
  {
    Mul(Mul(Sub(alpha, Mul(beta, I(m))), qm), qp)
  }

  /** One-term coefficient at degree |n| + 1 (Wigner.h lines 347-353). */
  function FirstStepCoefficient(s: Shape, a: AngleArgument, l: int, m: int): Float
  {
    var (alpha, beta) := FirstStepConstants(l, s.n, a.cosTheta, SqIntInv(l + Abs(s.n)));
    FirstStepFactor(alpha, beta, m, SqIntInv(l - m), SqIntInv(l + m))
  }

  /** f1 of the one-term step at a growing edge (Wigner.h lines 389-391, 401-403,
      441-443, 461-463), from the entries sqIntInv[l - n], sqIntInv[l + n],
      sqIntInv[l - m], sqIntInv[l + m]. */
  function EdgeFactor(l: int, m: int, n: int, cosTheta: Float, qn: Float, qnp: Float, qm: Float, qmp: Float): Float
  {
    var c := Mul(I(2 * l - 1), Sub(Mul(I(l * (l - 1)), cosTheta), I(m * n)));
    Div(Mul(Mul(Mul(Mul(c, qn), qnp), qm), qmp), I(l - 1))
  }

  /** One-term coefficient at the growing edges of later degrees. */
  function EdgeCoefficient(s: Shape, a: AngleArgument, l: int, m: int): Float
  {
    EdgeFactor(l, m, s.n, a.cosTheta, SqIntInv(l - s.n), SqIntInv(l + s.n),
               SqIntInv(l - m), SqIntInv(l + m))
  }

  /** alpha, beta and gamma of the two-term step (Wigner.h lines 412-417), from
      qn = sqIntInv[l - n], qnp = sqIntInv[l + n], rn = sqInt[l - 1 - n],
      rnp = sqInt[l - 1 + n]. */
  function TwoTermConstants(l: int, n: int, cosTheta: Float, qn: Float, qnp: Float, rn: Float, rnp: Float)
    : (Float, Float, Float)
  {
    var alpha := Mul(Mul(Mul(I((2 * l - 1) * l), cosTheta), qn), qnp);
    var beta := Div(Mul(Mul(I((2 * l - 1) * n), qn), qnp), I(l - 1));
    var gamma := Div(Mul(Mul(Mul(Mul(I(l), rn), rnp), qn), qnp), I(l - 1));
    (alpha, beta, gamma)
  }

  /** f1 and f2 of the two-term step (Wigner.h lines 422-424), from qm = sqIntInv[l - m],
      qmp = sqIntInv[l + m], rm = sqInt[l - 1 - m], rmp = sqInt[l - 1 + m]. */
  function TwoTermFactors(alpha: Float, beta: Float, gamma: Float, m: int, qm: Float, qmp: Float, rm: Float, rmp: Float)
    : (Float, Float)
  {
    var denom := Mul(qm, qmp);
    (Mul(Sub(alpha, Mul(beta, I(m))), denom), Mul(Mul(Mul(gamma, rm), rmp), denom))
  }

  /** The two coefficients of the two-term recurrence (Wigner.h lines 412-424). */
  function TwoTermCoefficients(s: Shape, a: AngleArgument, l: int, m: int): (Float, Float)
  {
    var n := s.n;
    var (alpha, beta, gamma) := TwoTermConstants(l, n, a.cosTheta, SqIntInv(l - n), SqIntInv(l + n),
                                                 SqInt(l - 1 - n), SqInt(l - 1 + n));
    TwoTermFactors(alpha, beta, gamma, m, SqIntInv(l - m), SqIntInv(l + m),
                   SqInt(l - 1 - m), SqInt(l - 1 + m))
  }

  /** The value of a slot that is not stored at the previous degree: at degree
      |n| the upper-index evaluators, later the order evaluators at m = -l, l. */
  function BoundaryValue(s: Shape, a: AngleArgument, l: int, m: int): Float
    requires ValidShape(s) && ValidSlot(s, l, m)
  {
    if l == Abs(s.n) then
      if s.n >= 0 then MaxUpperIndexAtOrder(l, m, a) else MinUpperIndexAtOrder(l, m, a)
    else if m == -l then MinOrderAtUpperIndex(l, s.n, a)
    else MaxOrderAtUpperIndex(l, s.n, a)
  }

  /** The one-term recurrence at (l, m) from the value p1 at (l - 1, m): the
      first-step coefficient at degree |n| + 1, the edge coefficient later. */
  function OneTermValue(s: Shape, a: AngleArgument, l: int, m: int, p1: Float): Float
  {
    Mul(if l == Abs(s.n) + 1 then FirstStepCoefficient(s, a, l, m) else EdgeCoefficient(s, a, l, m), p1)
  }

  /** The two-term recurrence f1 p1 - f2 p2 at (l, m) from the values p1 at
      (l - 1, m) and p2 at (l - 2, m) (Wigner.h line 425). */
  function TwoTermValue(s: Shape, a: AngleArgument, l: int, m: int, p1: Float, p2: Float): Float
  {
    var (f1, f2) := TwoTermCoefficients(s, a, l, m);
    Sub(Mul(f1, p1), Mul(f2, p2))
  }

  /** The value the recursion stores at (l, m) when p1 and p2 are the values
      at (l - 1, m) and (l - 2, m): a boundary value, a one-term step or a
      two-term step, by which of those two slots are stored. */
  function Step(s: Shape, a: AngleArgument, l: int, m: int, p1: Float, p2: Float): Float
    requires ValidShape(s) && ValidSlot(s, l, m)
  {
    if !ValidSlot(s, l - 1, m) then BoundaryValue(s, a, l, m)
    else if !ValidSlot(s, l - 2, m) then OneTermValue(s, a, l, m, p1)
    else TwoTermValue(s, a, l, m, p1, p2)
  }

  /** The unnormalised value d^l_{m,n} that the recursion leaves in slot (l, m). */
  function ColumnValue(s: Shape, a: AngleArgument, l: int, m: int): Float
    requires ValidShape(s) && ValidSlot(s, l, m)
    decreases l, 1
  {
    ColumnStep(s, a, l, m)
  }

  /** The step at (l, m) applied to the values the recursion leaves at
      (l - 1, m) and (l - 2, m). */
  function ColumnStep(s: Shape, a: AngleArgument, l: int, m: int): Float
    requires ValidShape(s) && ValidSlot(s, l, m)
    decreases l, 0
  {
    Step(s, a, l, m,
         if ValidSlot(s, l - 1, m) then ColumnValue(s, a, l - 1, m) else I(0),
         if ValidSlot(s, l - 2, m) then ColumnValue(s, a, l - 2, m) else I(0))
  }

  /** The normalisation 0.5 sqrt(2l+1) / sqrt(pi) applied to every value of degree l (Wigner.h lines 473-474). */
  function Normalised(norm: Normalisation, l: int, v: Float): Float
  {
    if norm == Ortho then Mul(Mul(Mul(Lit(0.5), Sqrt(I(2 * l + 1))), InvSqrtPi), v) else v
  }

  // ---------------------------------------------------------------------
  // The branches of the library's degree loop are exactly the three kinds.
  // ---------------------------------------------------------------------

  /** A slot not stored at degree l - 1 is the whole block at l = |n|, and later
      only m = l (and m = -l when all orders are stored) while l <= mMax. */
  lemma BoundarySlots(s: Shape, l: int, m: int)
    requires ValidShape(s) && ValidSlot(s, l, m) && l > Abs(s.n)
    ensures !ValidSlot(s, l - 1, m) <==> l <= s.mMax && (m == l || (s.orders == All && m == -l))
  {
  }

  /** From degree |n| + 2 on, the one-term recurrence is used exactly at the
      branches of Wigner.h lines 382-396, 399-407, 430-449 and 452-465. */
  lemma OneTermSlots(s: Shape, l: int, m: int)
    requires ValidShape(s) && ValidSlot(s, l, m) && l >= Abs(s.n) + 2
    ensures (ValidSlot(s, l - 1, m) && !ValidSlot(s, l - 2, m)) <==>
            (l <= s.mMax && (m == l - 1 || (s.orders == All && m == -l + 1))) ||
            (l == s.mMax + 1 && (m == s.mMax || (s.orders == All && m == -s.mMax)))
  {
  }

  /** The two-term recurrence covers one contiguous run of orders, those
      stored at degree l - 2, starting at that degree's starting order. */
  lemma TwoTermSlots(s: Shape, l: int, m: int)
    requires ValidShape(s) && l >= Abs(s.n) + 2 && l <= s.lMax
    ensures ValidSlot(s, l - 2, m) ==> ValidSlot(s, l - 1, m) && ValidSlot(s, l, m)
    ensures ValidSlot(s, l - 2, m) <==>
            StartingOrder(s, l - 2) <= m < StartingOrder(s, l - 2) + BlockSize(s, l - 2)
  {
  }

  /** Every square-root index read by a recurrence lies in the tables, every
      inverse-table index is at least 1 (so the 0 entry is never read), and the
      divisor l - 1 is at least 1. */
  lemma RecurrenceIndicesInRange(s: Shape, l: int, m: int)
    requires ValidShape(s) && ValidSlot(s, l, m) && ValidSlot(s, l - 1, m)
    ensures l >= Abs(s.n) + 2 ==> l - 1 >= 1
    ensures 1 <= l - m < TableSize(s) && 1 <= l + m < TableSize(s)
    ensures l == Abs(s.n) + 1 ==> 1 <= l + Abs(s.n) < TableSize(s)
    ensures l >= Abs(s.n) + 2 ==> 1 <= l - s.n < TableSize(s) && 1 <= l + s.n < TableSize(s)
    ensures ValidSlot(s, l - 2, m) ==>
              0 <= l - 1 - s.n < TableSize(s) && 0 <= l - 1 + s.n < TableSize(s) &&
              0 <= l - 1 - m < TableSize(s) && 0 <= l - 1 + m < TableSize(s)
  {
  }
}
