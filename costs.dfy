/** Costs and connection lengths of the navigation graph.
    The source stores both as `float`; a connection length is a Euclidean
    distance (never negative) and a cost is either such a sum or
    `float.PositiveInfinity`. Rounding is not modelled. */
module Costs {

  /** A connection length (`Vector3.Distance` of two node positions). */
  type Length = r: real | r >= 0.0

  /** A layer cost: a finite sum of lengths or +∞. */
  datatype Cost = Fin(value: Length) | Inf

  /** `a <= b` on costs, +∞ being above every finite cost. */
  predicate Le(a: Cost, b: Cost) {
    b.Inf? || (a.Fin? && a.value <= b.value)
  }

  /** `a < b` as the float comparison does it: `+∞ < +∞` is false. */
  predicate Lt(a: Cost, b: Cost) {
    !Le(b, a)
  }

  /** `a + l` as float addition does it when `a` may be +∞. */
  function Add(a: Cost, l: Length): Cost {
    if a.Inf? then Inf else Fin(a.value + l)
  }
}
