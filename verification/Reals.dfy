/** Facts about real numbers, used by the statistics and the rate limiter. */
module Reals {
  function MinReal(a: real, b: real): real {
    if a <= b then a else b
  }

  function MaxReal(a: real, b: real): real {
    if a >= b then a else b
  }

  lemma NotPositive(q: real, d: real)
    requires q <= 0.0 && d > 0.0
    ensures q * d <= 0.0
  {
  }

  lemma Square(x: real)
    ensures x * x >= 0.0
  {
  }
}
