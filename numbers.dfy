/** Values shared by every stage of the pipeline. */
module Numbers {

  /** A floating-point result that is either an ordinary number or NaN.
      Arithmetic is exact (`real`); only the NaN case is kept. */
  datatype Float = NaN | Num(value: real)

  /** An operation that either yields a value or raises an error. */
  datatype Result<+T, +E> = Ok(value: T) | Err(error: E)

  /** Whether `q` is accepted by numpy's quantile, which raises otherwise. */
  predicate InUnit(q: real) {
    0.0 <= q <= 1.0
  }

  lemma ProductNonNegative(a: real, b: real)
    requires 0.0 <= a && 0.0 <= b
    ensures 0.0 <= a * b
  {
  }

  lemma ProductPositive(a: real, b: real)
    requires 0.0 < a && 0.0 < b
    ensures 0.0 < a * b
  {
    ProductNonNegative(a, b);
    if a * b == 0.0 {
      ZeroFactor(a, b);
    }
  }

  /** A product with a non-zero factor is zero only if the other factor is. */
  lemma ZeroFactor(z: real, v: real)
    requires v != 0.0 && z * v == 0.0
    ensures z == 0.0
  {
    var iv := 1.0 / v;
    assert iv * v == 1.0;
    assert z == z * (v * iv);
    assert z * (v * iv) == (z * v) * iv;
  }

  /** u / v - 1 == (u - v) / v. */
  lemma RatioMinusOne(u: real, v: real)
    requires v != 0.0
    ensures u / v - 1.0 == (u - v) / v
  {
    var q := u / v;
    var r := (u - v) / v;
    assert q * v == u;
    assert r * v == u - v;
    assert (q - 1.0 - r) * v == 0.0;
    ZeroFactor(q - 1.0 - r, v);
  }

  /** (m la1 + x la) - (m lp1 + x lp) == m (la1 - lp1) + x (la - lp). */
  lemma Regroup(m: real, x: real, la1: real, la: real, lp1: real, lp: real)
    ensures (m * la1 + x * la) - (m * lp1 + x * lp) == m * (la1 - lp1) + x * (la - lp)
  {
  }

  /** Multiplying an inequality by a non-negative factor keeps it. */
  lemma ScaleAtMost(c: real, u: real, v: real)
    requires 0.0 <= c && u <= v
    ensures c * u <= c * v
  {
    ProductNonNegative(c, v - u);
    assert c * (v - u) == c * v - c * u;
  }
}
