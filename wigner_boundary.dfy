/** The closed-form evaluators for the extremal values d^l_{-l,n}, d^l_{l,n},
    d^l_{m,-l}, d^l_{m,l}, with their values at the poles. */
module WignerBoundary {
  import opened Tags

  /** Remainder of the truncating `%` of C++ (its sign follows the dividend). */
  function TruncRem(a: int, b: int): int
    requires b > 0
  {
    if a >= 0 then a % b else -((-a) % b)
  }

  /** (-1)^m, computed as `m % 2 ? -1 : 1` with a truncating remainder. */
  function MinusOneToPower(m: int): (r: int)
    ensures r == (if m % 2 == 0 then 1 else -1)
  {
    if TruncRem(m, 2) != 0 then -1 else 1
  }

  /** The sign rule for sums, negative exponents included. */
  lemma MinusOneToPowerAdd(a: int, b: int)
    ensures MinusOneToPower(a + b) == MinusOneToPower(a) * MinusOneToPower(b)
  {
  }

  /** An even exponent, 2k for any k, gives 1. */
  lemma MinusOneToPowerEven(k: int)
    ensures MinusOneToPower(2 * k) == 1
  {
  }

  /** A floating-point value, written as the operations that computed it: an
      exactly given value (an input, a literal, an integer converted to the
      floating-point type), a negation, one of the four arithmetic operations,
      or one of the library functions. Two values are known to be equal when
      the same operations were applied to equal operands; nothing is assumed
      about rounding. */
  datatype Float =
    | Lit(v: real)
    | Neg(x: Float)
    | Add(x: Float, y: Float)
    | Sub(x: Float, y: Float)
    | Mul(x: Float, y: Float)
    | Div(x: Float, y: Float)
    | Sqrt(x: Float)
    | Exp(x: Float)
    | Lgamma(x: Float)
    | Log(x: Float)
    | Sin(x: Float)
    | Cos(x: Float)
    | InvSqrtPi      // the constant 1 / sqrt(pi) of the floating-point type

  /** Multiplication by a sign (-1)^k: exact in floating point, a negation
      for -1 and the value itself for 1; a double negation cancels. */
  function Signed(sign: int, v: Float): (r: Float)
    ensures sign >= 0 ==> r == v
    ensures sign < 0 && v.Neg? ==> r == v.x
    ensures sign < 0 && !v.Neg? ==> r == Neg(v)
  {
    if sign >= 0 then v else if v.Neg? then v.x else Neg(v)
  }

  /** Per-angle terms: cos(theta), log(sin(theta/2)), log(cos(theta/2)) and the pole flags. */
  datatype AngleArgument = AngleArgument(
    cosTheta: Float,
    logSinHalf: Float,
    logCosHalf: Float,
    atLeft: bool,
    atRight: bool
  )

  /** An angle theta as the library receives it, with the outcomes of its two
      comparisons of sin(theta/2) and cos(theta/2) against the smallest
      positive normal value (Wigner.h lines 285-286), which the model does not evaluate. */
  datatype Angle = Angle(theta: real, sinHalfBelowMin: bool, cosHalfBelowMin: bool)

  /** The angle terms computed at the start of a column (Wigner.h lines 282-288): a
      half-angle sine or cosine below the smallest normal value marks a pole,
      and the logarithm of that term is then never taken (it is replaced by 0). */
  function AngleArgumentOf(t: Angle): (a: AngleArgument)
    ensures a.atLeft == t.sinHalfBelowMin && a.atRight == t.cosHalfBelowMin
    ensures a.atLeft ==> a.logSinHalf == Lit(0.0)
    ensures a.atRight ==> a.logCosHalf == Lit(0.0)
  {
    var sinHalf := Sin(Mul(Lit(0.5), Lit(t.theta)));
    var cosHalf := Cos(Mul(Lit(0.5), Lit(t.theta)));
    AngleArgument(Cos(Lit(t.theta)),
                  if t.sinHalfBelowMin then Lit(0.0) else Log(sinHalf),
                  if t.cosHalfBelowMin then Lit(0.0) else Log(cosHalf),
                  t.sinHalfBelowMin, t.cosHalfBelowMin)
  }

  /** d^l_{-l,n}(theta): 1 at l = 0, exact 0/1 values at the poles, and otherwise
      exp(1/2 (lgamma(2l+1) - lgamma(l-n+1) - lgamma(l+n+1)) + (l+n) log sin(theta/2)
      + (l-n) log cos(theta/2)). */
  function MinOrderAtUpperIndex(l: int, n: int, a: AngleArgument): (r: Float)
    requires l >= 0 && Abs(n) <= l
    ensures !r.Neg?
  {
    if l == 0 then Lit(1.0)
    else if a.atLeft then (if n == -l then Lit(1.0) else Lit(0.0))
    else if a.atRight then (if n == l then Lit(1.0) else Lit(0.0))
    else
      var L, N := Lit(l as real), Lit(n as real);
      var one := Lit(1.0);
      Exp(Add(Add(Mul(Lit(0.5), Sub(Sub(Lgamma(Add(Mul(Lit(2.0), L), one)), Lgamma(Add(Sub(L, N), one))),
                                    Lgamma(Add(Add(L, N), one)))),
                  Mul(Add(L, N), a.logSinHalf)),
              Mul(Sub(L, N), a.logCosHalf)))
  }

  /** d^l_{l,n} = (-1)^(n+l) d^l_{-l,-n}. */
  function MaxOrderAtUpperIndex(l: int, n: int, a: AngleArgument): Float
    requires l >= 0 && Abs(n) <= l
  {
    Signed(MinusOneToPower(n + l), MinOrderAtUpperIndex(l, -n, a))
  }

  /** d^l_{m,-l} = d^l_{l,-m}. */
  function MinUpperIndexAtOrder(l: int, m: int, a: AngleArgument): Float
    requires l >= 0 && Abs(m) <= l
  {
    MaxOrderAtUpperIndex(l, -m, a)
  }

  /** d^l_{m,l} = d^l_{-l,-m}. */
  function MaxUpperIndexAtOrder(l: int, m: int, a: AngleArgument): Float
    requires l >= 0 && Abs(m) <= l
  {
    MinOrderAtUpperIndex(l, -m, a)
  }

  // ---------------------------------------------------------------------
  // Exact values at l = 0 and at the poles.
  // ---------------------------------------------------------------------

  /** All four evaluators give 1 at degree 0. */
  lemma DegreeZero(n: int, a: AngleArgument)
    requires n == 0
    ensures MinOrderAtUpperIndex(0, n, a) == Lit(1.0)
    ensures MaxOrderAtUpperIndex(0, n, a) == Lit(1.0)
    ensures MinUpperIndexAtOrder(0, n, a) == Lit(1.0)
    ensures MaxUpperIndexAtOrder(0, n, a) == Lit(1.0)
  {
  }

  /** A zero of either sign: -0.0 arises where a zero is multiplied by -1. */
  predicate IsZero(r: Float)
  {
    r == Lit(0.0) || r == Neg(Lit(0.0))
  }

  /** At theta = 0: d^l_{-l,n} = [n = -l], d^l_{l,n} = [n = l],
      d^l_{m,-l} = [m = -l], d^l_{m,l} = [m = l], each 0 possibly negative. */
  lemma AtLeftPole(l: int, k: int, a: AngleArgument)
    requires l > 0 && Abs(k) <= l && a.atLeft
    ensures MinOrderAtUpperIndex(l, k, a) == (if k == -l then Lit(1.0) else Lit(0.0))
    ensures k == l ==> MaxOrderAtUpperIndex(l, k, a) == Lit(1.0)
    ensures k != l ==> IsZero(MaxOrderAtUpperIndex(l, k, a))
    ensures k == -l ==> MinUpperIndexAtOrder(l, k, a) == Lit(1.0)
    ensures k != -l ==> IsZero(MinUpperIndexAtOrder(l, k, a))
    ensures MaxUpperIndexAtOrder(l, k, a) == (if k == l then Lit(1.0) else Lit(0.0))
  {
    MinusOneToPowerEven(l);
  }

  /** At theta = pi (and not also at theta = 0): d^l_{-l,n} = [n = l],
      d^l_{l,n} = [n = -l], d^l_{m,-l} = [m = l], d^l_{m,l} = [m = -l]. */
  lemma AtRightPole(l: int, k: int, a: AngleArgument)
    requires l > 0 && Abs(k) <= l && !a.atLeft && a.atRight
    ensures MinOrderAtUpperIndex(l, k, a) == (if k == l then Lit(1.0) else Lit(0.0))
    ensures k == -l ==> MaxOrderAtUpperIndex(l, k, a) == Lit(1.0)
    ensures k != -l ==> IsZero(MaxOrderAtUpperIndex(l, k, a))
    ensures k == l ==> MinUpperIndexAtOrder(l, k, a) == Lit(1.0)
    ensures k != l ==> IsZero(MinUpperIndexAtOrder(l, k, a))
    ensures MaxUpperIndexAtOrder(l, k, a) == (if k == -l then Lit(1.0) else Lit(0.0))
  {
    MinusOneToPowerEven(0);
  }

  /** The symmetry d^l_{-l,n} = (-1)^(l+n) d^l_{l,-n}: the max-order evaluator
      undoes the min-order one. */
  lemma MinFromMaxOrder(l: int, n: int, a: AngleArgument)
    requires l >= 0 && Abs(n) <= l
    ensures MinOrderAtUpperIndex(l, n, a) == Signed(MinusOneToPower(l + n), MaxOrderAtUpperIndex(l, -n, a))
  {
    MinusOneToPowerAdd(l + n, -n + l);
    MinusOneToPowerEven(l);
  }

  /** The symmetry d^l_{m,-l} = (-1)^(l-m) d^l_{-m,l} between the two upper-index evaluators. */
  lemma UpperIndexSymmetry(l: int, m: int, a: AngleArgument)
    requires l >= 0 && Abs(m) <= l
    ensures MinUpperIndexAtOrder(l, m, a) == Signed(MinusOneToPower(l - m), MaxUpperIndexAtOrder(l, -m, a))
  {
  }
}
