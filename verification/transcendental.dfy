/** The exponential, logarithm and square root that the source takes from its math
    libraries. They are not defined here: every operation that needs one receives it as
    a parameter, and its contract assumes only the laws below. */
module Transcendental {

  /** The laws of `exp` this model relies on. */
  ghost predicate IsExp(exp: real -> real)
  {
    && exp(0.0) == 1.0
    && (forall x :: 0.0 < exp(x))
    && (forall x, y :: x < y ==> exp(x) < exp(y))
  }

  /** `log` is a right inverse of `exp` on the positive reals. */
  ghost predicate IsLogFor(exp: real -> real, log: real -> real)
  {
    forall x :: 0.0 < x ==> exp(log(x)) == x
  }

  /** `sqrt` is non-negative on the non-negative reals and vanishes only at zero. */
  ghost predicate IsSqrt(sqrt: real -> real)
  {
    forall x :: 0.0 <= x ==> 0.0 <= sqrt(x) && (sqrt(x) == 0.0 <==> x == 0.0)
  }

  lemma ExpBelowOne(exp: real -> real, x: real)
    requires IsExp(exp)
    requires x < 0.0
    ensures 0.0 < exp(x) < 1.0
  {
    assert exp(x) < exp(0.0);
  }

  lemma ExpAboveOne(exp: real -> real, x: real)
    requires IsExp(exp)
    requires 0.0 < x
    ensures 1.0 < exp(x)
  {
    assert exp(0.0) < exp(x);
  }
}
