/** The numerical library functions the pipeline calls (natural logarithm,
    square root, the standard normal quantile and the chi-squared CDF) are
    passed to the model as function-valued parameters. The only facts the
    model uses about them are the laws below, required by the members that
    need them. */
module Transcendental {

  /** The two properties of the natural logarithm the Kupiec statistic needs. */
  ghost predicate LogLaws(log: real -> real) {
    (forall y :: 0.0 < y ==> log(y) <= y - 1.0) &&
    (forall u, v :: 0.0 < u && 0.0 < v ==> log(u / v) == log(u) - log(v))
  }

  /** Square root: zero at zero and never negative. */
  ghost predicate SqrtLaws(sqrt: real -> real) {
    sqrt(0.0) == 0.0 && forall x :: 0.0 <= x ==> 0.0 <= sqrt(x)
  }

  /** A cumulative distribution function takes its values in [0, 1]. */
  ghost predicate CdfLaws(cdf: real -> real) {
    forall t :: 0.0 <= cdf(t) <= 1.0
  }

  /** From the two logarithm laws: log u - log v <= u/v - 1. */
  lemma LogDifference(log: real -> real, u: real, v: real)
    requires LogLaws(log)
    requires 0.0 < u && 0.0 < v
    ensures log(u) - log(v) <= u / v - 1.0
  {
    assert log(u / v) == log(u) - log(v);
    assert log(u / v) <= u / v - 1.0;
  }
}
