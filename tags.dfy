/** Configuration tags shared by the Wigner table, the grid and the fields.
    In the library these are empty tag types chosen at compile time; here they are
    one runtime value each. */
module Tags {

  /** Range of orders (for a Wigner table) or of upper indices (for a grid). */
  datatype IndexRange = All | NonNegative | Single

  /** A Wigner table stores either all orders or only the non-negative ones. */
  type OrderRange = r: IndexRange | r != Single witness All

  /** Ortho multiplies degree l by sqrt(2l+1)/(2 sqrt(pi)); Raw leaves the values alone. */
  datatype Normalisation = Ortho | Raw

  function Abs(x: int): (r: nat)
    ensures r == x || r == -x
  {
    if x < 0 then -x else x
  }

  function Min(a: int, b: int): (r: int)
    ensures r <= a && r <= b && (r == a || r == b)
  {
    if a <= b then a else b
  }
}
