/** Exact reals extended with the special values of IEEE 754 arithmetic.
    The host reference computes in `float`; rounding is not modelled, but the
    infinities and NaN that the causal mask introduces are. */
module ExtendedReals {

  datatype Ext = Fin(v: real) | PosInf | NegInf | NaN

  predicate Less(a: Ext, b: Ext) {
    match (a, b)
    case (NaN, _) => false
    case (_, NaN) => false
    case (Fin(x), Fin(y)) => x < y
    case (NegInf, _) => b != NegInf
    case (_, PosInf) => a != PosInf
    case (_, _) => false
  }

  function Neg(a: Ext): Ext {
    match a
    case Fin(x) => Fin(-x)
    case PosInf => NegInf
    case NegInf => PosInf
    case NaN => NaN
  }

  function Add(a: Ext, b: Ext): Ext {
    match (a, b)
    case (NaN, _) => NaN
    case (_, NaN) => NaN
    case (Fin(x), Fin(y)) => Fin(x + y)
    case (Fin(_), _) => b
    case (_, Fin(_)) => a
    case (_, _) => if a == b then a else NaN
  }

  function Sub(a: Ext, b: Ext): Ext {
    Add(a, Neg(b))
  }

  // The infinity with the sign of x, or NaN when x is zero.
  function SignedInf(x: real): Ext {
    if x > 0.0 then PosInf else if x < 0.0 then NegInf else NaN
  }

  function Sign(a: Ext): real {
    match a
    case Fin(x) => if x > 0.0 then 1.0 else if x < 0.0 then -1.0 else 0.0
    case PosInf => 1.0
    case NegInf => -1.0
    case NaN => 0.0
  }

  function Mul(a: Ext, b: Ext): Ext {
    match (a, b)
    case (NaN, _) => NaN
    case (_, NaN) => NaN
    case (Fin(x), Fin(y)) => Fin(x * y)
    case (_, _) => SignedInf(Sign(a) * Sign(b))
  }

  // A zero divisor counts as +0, so a nonzero dividend gives the infinity of its sign.
  function Div(a: Ext, b: Ext): Ext {
    match (a, b)
    case (NaN, _) => NaN
    case (_, NaN) => NaN
    case (Fin(x), Fin(y)) => if y != 0.0 then Fin(x / y) else SignedInf(x)
    case (Fin(_), _) => Fin(0.0)
    case (_, Fin(y)) => if y < 0.0 then Neg(a) else a
    case (_, _) => NaN
  }

  function Exp(exp: real -> real, a: Ext): Ext {
    match a
    case Fin(x) => Fin(exp(x))
    case PosInf => PosInf
    case NegInf => Fin(0.0)
    case NaN => NaN
  }
}
