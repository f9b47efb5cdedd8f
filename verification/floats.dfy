/** IEEE doubles as far as the SNR arithmetic can tell them apart: a finite value,
    an infinity, or NaN. Values are exact reals (no rounding) and the sign of a
    zero is not kept, so zero counts as +0. */
module Floats {

  datatype Float = Finite(x: real) | Infinite(negative: bool) | NaN

  /** The square-root function the model is given: it returns the
      non-negative root of every non-negative real. */
  ghost predicate IsSqrt(sqrt: real -> real)
  {
    forall x :: x >= 0.0 ==> sqrt(x) >= 0.0 && sqrt(x) * sqrt(x) == x
  }

  /** numpy's true division `a / b`. */
  function Divide(a: Float, b: Float): (r: Float)
    ensures a.Finite? && b.Finite? && b.x != 0.0 ==> r == Finite(a.x / b.x)
    ensures a.Finite? && b == Finite(0.0) ==>
      (a.x > 0.0 ==> r == Infinite(false)) && (a.x < 0.0 ==> r == Infinite(true)) && (a.x == 0.0 ==> r.NaN?)
    ensures a.NaN? || b.NaN? || (a.Infinite? && b.Infinite?) ==> r.NaN?
    ensures a.Finite? && b.Infinite? ==> r == Finite(0.0)
    ensures a.Infinite? && b.Finite? ==> r.Infinite?
  {
    match (a, b)
    case (Finite(p), Finite(q)) =>
      if q != 0.0 then Finite(p / q)
      else if p > 0.0 then Infinite(false)
      else if p < 0.0 then Infinite(true)
      else NaN
    case (Finite(_), Infinite(_)) => Finite(0.0)
    case (Infinite(n), Finite(q)) => if q < 0.0 then Infinite(!n) else Infinite(n)
    case _ => NaN
  }

  /** numpy's `np.sqrt`: NaN below zero and for NaN, +inf stays +inf. */
  function Sqrt(a: Float, sqrt: real -> real): (r: Float)
    requires IsSqrt(sqrt)
    ensures r.Finite? <==> a.Finite? && a.x >= 0.0
    ensures r.Finite? ==> r.x >= 0.0 && r.x * r.x == a.x
    ensures r.Infinite? <==> a == Infinite(false)
    ensures r.Infinite? ==> !r.negative
    ensures r.NaN? <==> a.NaN? || a == Infinite(true) || (a.Finite? && a.x < 0.0)
  {
    match a
    case Finite(v) => if v >= 0.0 then Finite(sqrt(v)) else NaN
    case Infinite(negative) => if negative then NaN else Infinite(false)
    case NaN => NaN
  }
}
