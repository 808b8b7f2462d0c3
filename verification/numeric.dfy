/** Shared vocabulary of the model: results that may carry an error, the fixed
    singularity tolerance and the square-root witness used in place of the
    floating-point `sqrt`. Doubles are modelled as exact reals. */
module Numeric {

  datatype Result<+T, +E> = Success(value: T) | Failure(error: E)

  /** The tolerance 1e-9 the scripts compare determinants against. */
  const Eps: real := 0.000000001

  /** `fabs` in C, `abs` in Python. */
  function Abs(x: real): (r: real)
    ensures r >= 0.0
    ensures r == x || r == -x
  {
    if x < 0.0 then -x else x
  }

  /** `s` is the value a correctly rounded `sqrt(x)` stands for. */
  predicate IsSqrt(s: real, x: real) {
    s >= 0.0 && s * s == x
  }

  /** The non-negative square root is unique, so a witness determines the
      value `sqrt` returns. */
  lemma SqrtUnique(s: real, t: real, x: real)
    requires IsSqrt(s, x) && IsSqrt(t, x)
    ensures s == t
  {
    assert (s - t) * (s + t) == 0.0;
    if s + t != 0.0 {
      ZeroProduct(s - t, s + t);
    }
  }

  lemma ZeroProduct(x: real, y: real)
    requires x * y == 0.0 && y != 0.0
    ensures x == 0.0
  {
  }
}
