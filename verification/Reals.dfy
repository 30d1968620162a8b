/** Positive reals, and sums of reals. */
module Reals {

  type PositiveReal = x: real | x > 0.0 witness 1.0

  function Sum(xs: seq<real>): real {
    if |xs| == 0 then 0.0 else Sum(xs[..|xs| - 1]) + xs[|xs| - 1]
  }
}
