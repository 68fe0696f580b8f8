/** Sample statistics used by the rolling estimator and the backtests:
    sum, mean, unbiased variance, sorting, numpy's default ("linear")
    quantile and the one-sided tails of a sample. */
module Stats {
  import opened Numbers
  import opened Transcendental

  // ----- sums and means -----

  function Sum(s: seq<real>): real {
    if s == [] then 0.0 else s[0] + Sum(s[1..])
  }

  /** Arithmetic mean of a non-empty sample (numpy's `mean`). */
  function Mean(s: seq<real>): real
    requires |s| > 0
  {
    Sum(s) / |s| as real
  }

  lemma {:induction false} SumAtMost(s: seq<real>, c: real)
    requires forall k :: 0 <= k < |s| ==> s[k] <= c
    ensures Sum(s) <= |s| as real * c
  {
    if s != [] {
      SumAtMost(s[1..], c);
    }
  }

  lemma {:induction false} SumAtLeast(s: seq<real>, c: real)
    requires forall k :: 0 <= k < |s| ==> c <= s[k]
    ensures |s| as real * c <= Sum(s)
  {
    if s != [] {
      SumAtLeast(s[1..], c);
    }
  }

  /** A sample bounded above by c has its mean bounded above by c. */
  lemma MeanAtMost(s: seq<real>, c: real)
    requires |s| > 0
    requires forall k :: 0 <= k < |s| ==> s[k] <= c
    ensures Mean(s) <= c
  {
    SumAtMost(s, c);
    var n := |s| as real;
    assert Sum(s) / n <= (n * c) / n;
  }

  /** A sample bounded below by c has its mean bounded below by c. */
  lemma MeanAtLeast(s: seq<real>, c: real)
    requires |s| > 0
    requires forall k :: 0 <= k < |s| ==> c <= s[k]
    ensures c <= Mean(s)
  {
    SumAtLeast(s, c);
    var n := |s| as real;
    assert (n * c) / n <= Sum(s) / n;
  }

  /** The mean of a constant sample is that constant. */
  lemma MeanOfConstant(s: seq<real>, c: real)
    requires |s| > 0
    requires forall k :: 0 <= k < |s| ==> s[k] == c
    ensures Mean(s) == c
  {
    MeanAtMost(s, c);
    MeanAtLeast(s, c);
  }

  // ----- unbiased variance and standard deviation -----

  /** Sum of squared deviations of the sample from `mu`. */
  function SquaredDeviations(s: seq<real>, mu: real): (d: real)
    ensures 0.0 <= d
  {
    if s == [] then 0.0
    else
      SquareNonNegative(s[0] - mu);
      (s[0] - mu) * (s[0] - mu) + SquaredDeviations(s[1..], mu)
  }

  lemma SquareNonNegative(x: real)
    ensures 0.0 <= x * x
  {
    if x < 0.0 {
      assert x * x == (-x) * (-x);
    }
  }

  /** Sample variance with divisor n - 1 (numpy's `var(ddof=1)`); it is
      undefined for fewer than two values. */
  function Variance(s: seq<real>): (v: real)
    requires |s| >= 2
    ensures 0.0 <= v
  {
    SquaredDeviations(s, Mean(s)) / (|s| - 1) as real
  }

  /** Sample standard deviation (numpy's `std(ddof=1)`), over an abstract square root. */
  function StdDev(s: seq<real>, sqrt: real -> real): (sd: real)
    requires |s| >= 2
    requires SqrtLaws(sqrt)
    ensures 0.0 <= sd
  {
    sqrt(Variance(s))
  }

  lemma {:induction false} SquaredDeviationsOfConstant(s: seq<real>, c: real)
    requires forall k :: 0 <= k < |s| ==> s[k] == c
    ensures SquaredDeviations(s, c) == 0.0
  {
    if s != [] {
      SquaredDeviationsOfConstant(s[1..], c);
    }
  }

  /** A constant sample has variance and standard deviation zero. */
  lemma StdDevOfConstant(s: seq<real>, c: real, sqrt: real -> real)
    requires |s| >= 2 && SqrtLaws(sqrt)
    requires forall k :: 0 <= k < |s| ==> s[k] == c
    ensures Variance(s) == 0.0 && StdDev(s, sqrt) == 0.0
  {
    MeanOfConstant(s, c);
    SquaredDeviationsOfConstant(s, c);
  }

  // ----- sorting by a key -----

  ghost predicate SortedBy<T>(s: seq<T>, key: T -> real) {
    forall i, j :: 0 <= i < j < |s| ==> key(s[i]) <= key(s[j])
  }

  /** Inserts `x` into a sequence before the first element whose key is not smaller. */
  function Insert<T>(x: T, s: seq<T>, key: T -> real): (r: seq<T>)
    ensures |r| == |s| + 1
  {
    if s == [] then [x]
    else if key(x) <= key(s[0]) then [x] + s
    else [s[0]] + Insert(x, s[1..], key)
  }

  /** Sorts a sequence by ascending key (insertion sort). */
  function SortBy<T>(s: seq<T>, key: T -> real): (r: seq<T>)
    ensures |r| == |s|
  {
    if s == [] then [] else Insert(s[0], SortBy(s[1..], key), key)
  }

  lemma {:induction false} InsertPermutes<T>(x: T, s: seq<T>, key: T -> real)
    ensures multiset(Insert(x, s, key)) == multiset(s) + multiset{x}
  {
    if s != [] && key(s[0]) < key(x) {
      InsertPermutes(x, s[1..], key);
      assert s == [s[0]] + s[1..];
    }
  }

  lemma {:induction false} InsertSorted<T>(x: T, s: seq<T>, key: T -> real)
    requires SortedBy(s, key)
    ensures SortedBy(Insert(x, s, key), key)
  {
    if s != [] && key(s[0]) < key(x) {
      InsertSorted(x, s[1..], key);
      InsertAtLeast(x, s[1..], key, key(s[0]));
    }
  }

  /** Inserting an element whose key is at least b into a sequence whose
      keys are all at least b keeps every key at least b. */
  lemma {:induction false} InsertAtLeast<T>(x: T, s: seq<T>, key: T -> real, b: real)
    requires forall k :: 0 <= k < |s| ==> b <= key(s[k])
    requires b <= key(x)
    ensures forall k :: 0 <= k < |Insert(x, s, key)| ==> b <= key(Insert(x, s, key)[k])
  {
    if s != [] && key(s[0]) < key(x) {
      InsertAtLeast(x, s[1..], key, b);
    }
  }

  /** Sorting permutes its input. */
  lemma {:induction false} SortByPermutes<T>(s: seq<T>, key: T -> real)
    ensures multiset(SortBy(s, key)) == multiset(s)
  {
    if s != [] {
      SortByPermutes(s[1..], key);
      InsertPermutes(s[0], SortBy(s[1..], key), key);
      assert s == [s[0]] + s[1..];
    }
  }

  /** Sorting puts the keys in ascending order. */
  lemma {:induction false} SortBySorted<T>(s: seq<T>, key: T -> real)
    ensures SortedBy(SortBy(s, key), key)
  {
    if s != [] {
      SortBySorted(s[1..], key);
      InsertSorted(s[0], SortBy(s[1..], key), key);
    }
  }

  /** Sorting leaves an already sorted sequence as it is. */
  lemma {:induction false} SortByKeepsSorted<T>(s: seq<T>, key: T -> real)
    requires SortedBy(s, key)
    ensures SortBy(s, key) == s
  {
    if s != [] {
      SortByKeepsSorted(s[1..], key);
    }
  }

  /** The identity, used as the sort key of a plain sample. */
  function AsKey(x: real): real { x }

  /** A sample in ascending order. */
  function Sorted(xs: seq<real>): (s: seq<real>)
    ensures |s| == |xs|
  {
    SortBy(xs, AsKey)
  }

  /** The sorted sample is an ascending permutation of the sample. */
  lemma SortedSpec(xs: seq<real>)
    ensures multiset(Sorted(xs)) == multiset(xs)
    ensures forall i, j :: 0 <= i < j < |xs| ==> Sorted(xs)[i] <= Sorted(xs)[j]
  {
    SortByPermutes(xs, AsKey);
    SortBySorted(xs, AsKey);
  }

  lemma SortedOfSorted(xs: seq<real>)
    requires forall i, j :: 0 <= i < j < |xs| ==> xs[i] <= xs[j]
    ensures Sorted(xs) == xs
  {
    SortByKeepsSorted(xs, AsKey);
  }

  // ----- quantile -----

  /** numpy's default "linear" quantile (definition 7 of Hyndman and Fan):
      sort, take h = (n - 1) q, and interpolate between the order statistics
      at floor(h) and floor(h) + 1, the latter clipped to the last index.
      numpy raises when q is outside [0, 1] or the sample is empty; those
      cases are excluded here and handled by the callers. */
  function Quantile(xs: seq<real>, q: real): real
    requires |xs| > 0 && 0.0 <= q <= 1.0
  {
    Interpolate(Sorted(xs), Position(|xs|, q))
  }

  /** numpy's fractional index h = (n - 1) q into the sorted sample; it
      stays within the sample's index range. */
  function Position(n: nat, q: real): (h: real)
    requires n > 0 && 0.0 <= q <= 1.0
    ensures 0.0 <= h <= (n - 1) as real
  {
    Scaled((n - 1) as real, q);
    (n - 1) as real * q
  }

  /** The quantile lies between the smallest and the largest order statistic. */
  lemma QuantileBetween(xs: seq<real>, q: real)
    requires |xs| > 0 && 0.0 <= q <= 1.0
    ensures Sorted(xs)[0] <= Quantile(xs, q) <= Sorted(xs)[|xs| - 1]
  {
    SortedSpec(xs);
    InterpolateBetween(Sorted(xs), Position(|xs|, q));
  }

  /** The quantile lies between two elements of the sample: it never leaves
      the range from the minimum to the maximum. */
  lemma QuantileInRange(xs: seq<real>, q: real)
    requires |xs| > 0 && 0.0 <= q <= 1.0
    ensures exists j :: 0 <= j < |xs| && xs[j] <= Quantile(xs, q)
    ensures exists j :: 0 <= j < |xs| && Quantile(xs, q) <= xs[j]
  {
    QuantileBetween(xs, q);
    var s := Sorted(xs);
    SortedSpec(xs);
    assert s[0] in multiset(xs) && s[|s| - 1] in multiset(xs);
    var lo :| 0 <= lo < |xs| && xs[lo] == s[0];
    var hi :| 0 <= hi < |xs| && xs[hi] == s[|s| - 1];
  }

  /** Linear interpolation between the order statistics of the sorted
      sample `s` at the fractional position `h`. */
  function Interpolate(s: seq<real>, h: real): real
    requires 0.0 <= h <= (|s| - 1) as real
  {
    FloorIndex(h, |s|);
    var i := h.Floor;
    // numpy clips the upper neighbour's index to the last position
    var j := if i + 1 < |s| then i + 1 else |s| - 1;
    Lerp(s[i], s[j], h - i as real)
  }

  /** The point a fraction t of the way from lo to hi. */
  function Lerp(lo: real, hi: real, t: real): real {
    lo + t * (hi - lo)
  }

  /** On a sorted sample, the interpolated value lies between the first
      and the last order statistic. */
  lemma InterpolateBetween(s: seq<real>, h: real)
    requires 0.0 <= h <= (|s| - 1) as real
    requires forall i, j :: 0 <= i < j < |s| ==> s[i] <= s[j]
    ensures s[0] <= Interpolate(s, h) <= s[|s| - 1]
  {
    FloorIndex(h, |s|);
    var i := h.Floor;
    var j := if i + 1 < |s| then i + 1 else |s| - 1;
    assert Interpolate(s, h) == Lerp(s[i], s[j], h - i as real);
    Interpolated(s[i], s[j], h - i as real);
    assert s[0] <= s[i] && s[j] <= s[|s| - 1];
  }

  lemma Scaled(a: real, q: real)
    requires 0.0 <= a && 0.0 <= q <= 1.0
    ensures 0.0 <= a * q <= a
  {
    assert a - a * q == a * (1.0 - q);
  }

  lemma Interpolated(lo: real, hi: real, t: real)
    requires lo <= hi && 0.0 <= t <= 1.0
    ensures lo <= Lerp(lo, hi, t) <= hi
  {
    ProductNonNegative(t, hi - lo);
    ProductNonNegative(1.0 - t, hi - lo);
    assert (hi - lo) - t * (hi - lo) == (1.0 - t) * (hi - lo);
  }

  lemma FloorIndex(h: real, n: int)
    requires 0.0 <= h <= (n - 1) as real
    ensures 0 <= h.Floor < n
    ensures 0.0 <= h - h.Floor as real < 1.0
  {
  }

  /** The quantile is monotone in the level: a lower level never gives a
      higher quantile. */
  lemma QuantileMonotone(xs: seq<real>, q1: real, q2: real)
    requires |xs| > 0 && 0.0 <= q1 <= q2 <= 1.0
    ensures Quantile(xs, q1) <= Quantile(xs, q2)
  {
    SortedSpec(xs);
    var n := (|xs| - 1) as real;
    assert n * q2 - n * q1 == n * (q2 - q1);
    ProductNonNegative(n, q2 - q1);
    InterpolateMonotone(Sorted(xs), Position(|xs|, q1), Position(|xs|, q2));
  }

  /** On a sorted sample, interpolation is monotone in the position. */
  lemma InterpolateMonotone(s: seq<real>, h1: real, h2: real)
    requires 0.0 <= h1 <= h2 <= (|s| - 1) as real
    requires forall i, j :: 0 <= i < j < |s| ==> s[i] <= s[j]
    ensures Interpolate(s, h1) <= Interpolate(s, h2)
  {
    FloorIndex(h1, |s|);
    FloorIndex(h2, |s|);
    var i1, i2 := h1.Floor, h2.Floor;
    var j1 := if i1 + 1 < |s| then i1 + 1 else |s| - 1;
    var j2 := if i2 + 1 < |s| then i2 + 1 else |s| - 1;
    assert Interpolate(s, h1) == Lerp(s[i1], s[j1], h1 - i1 as real);
    assert Interpolate(s, h2) == Lerp(s[i2], s[j2], h2 - i2 as real);
    if i1 == i2 {
      LerpMonotone(s[i1], s[j1], h1 - i1 as real, h2 - i1 as real);
    } else {
      Interpolated(s[i1], s[j1], h1 - i1 as real);
      Interpolated(s[i2], s[j2], h2 - i2 as real);
      assert s[j1] <= s[i2];
    }
  }

  lemma LerpMonotone(lo: real, hi: real, t1: real, t2: real)
    requires lo <= hi && t1 <= t2
    ensures Lerp(lo, hi, t1) <= Lerp(lo, hi, t2)
  {
    ProductNonNegative(t2 - t1, hi - lo);
    assert t2 * (hi - lo) - t1 * (hi - lo) == (t2 - t1) * (hi - lo);
  }

  /** The quantile of a constant sample is that constant, for every level q. */
  lemma QuantileOfConstant(xs: seq<real>, q: real, c: real)
    requires |xs| > 0 && 0.0 <= q <= 1.0
    requires forall k :: 0 <= k < |xs| ==> xs[k] == c
    ensures Quantile(xs, q) == c
  {
    var s := Sorted(xs);
    SortedSpec(xs);
    forall k | 0 <= k < |s| ensures s[k] == c {
      assert s[k] in multiset(xs);
      assert s[k] in xs;
    }
    InterpolateOfConstant(s, Position(|xs|, q), c);
  }

  lemma InterpolateOfConstant(s: seq<real>, h: real, c: real)
    requires 0.0 <= h <= (|s| - 1) as real
    requires forall k :: 0 <= k < |s| ==> s[k] == c
    ensures Interpolate(s, h) == c
  {
    FloorIndex(h, |s|);
    var i := h.Floor;
    var j := if i + 1 < |s| then i + 1 else |s| - 1;
    assert Interpolate(s, h) == Lerp(s[i], s[j], h - i as real);
    assert s[j] - s[i] == 0.0;
  }

  // ----- one-sided tails -----

  /** The elements of `s` at or below `t`, in their original order. */
  function AtMost(s: seq<real>, t: real): seq<real> {
    if s == [] then []
    else if s[0] <= t then [s[0]] + AtMost(s[1..], t)
    else AtMost(s[1..], t)
  }

  /** The elements of `s` at or above `t`, in their original order. */
  function AtLeast(s: seq<real>, t: real): seq<real> {
    if s == [] then []
    else if t <= s[0] then [s[0]] + AtLeast(s[1..], t)
    else AtLeast(s[1..], t)
  }

  /** AtMost keeps every element at or below t, with its multiplicity, and nothing else. */
  lemma {:induction false} AtMostCounts(s: seq<real>, t: real)
    ensures forall x :: multiset(AtMost(s, t))[x] == if x <= t then multiset(s)[x] else 0
  {
    if s != [] {
      AtMostCounts(s[1..], t);
      assert s == [s[0]] + s[1..];
    }
  }

  /** AtLeast keeps every element at or above t, with its multiplicity, and nothing else. */
  lemma {:induction false} AtLeastCounts(s: seq<real>, t: real)
    ensures forall x :: multiset(AtLeast(s, t))[x] == if t <= x then multiset(s)[x] else 0
  {
    if s != [] {
      AtLeastCounts(s[1..], t);
      assert s == [s[0]] + s[1..];
    }
  }

  /** The lower tail at a threshold is non-empty when some element reaches
      the threshold, and its mean does not exceed the threshold. */
  lemma AtMostMean(s: seq<real>, t: real)
    requires exists j :: 0 <= j < |s| && s[j] <= t
    ensures |AtMost(s, t)| > 0
    ensures Mean(AtMost(s, t)) <= t
  {
    var j :| 0 <= j < |s| && s[j] <= t;
    var r := AtMost(s, t);
    AtMostCounts(s, t);
    assert s[j] in multiset(s);
    assert s[j] in multiset(r);
    forall k | 0 <= k < |r| ensures r[k] <= t {
      assert r[k] in multiset(r);
    }
    MeanAtMost(r, t);
  }

  /** The lower tail of a constant sample at or above its value is the
      whole sample, so its mean is that constant. */
  lemma AtMostOfConstant(s: seq<real>, t: real, c: real)
    requires |s| > 0 && c <= t
    requires forall k :: 0 <= k < |s| ==> s[k] == c
    ensures |AtMost(s, t)| > 0
    ensures Mean(AtMost(s, t)) == c
  {
    var r := AtMost(s, t);
    AtMostCounts(s, t);
    assert s[0] in multiset(s);
    assert s[0] in multiset(r);
    forall k | 0 <= k < |r| ensures r[k] == c {
      assert r[k] in multiset(r);
      assert multiset(r)[r[k]] == if r[k] <= t then multiset(s)[r[k]] else 0;
      assert r[k] in multiset(s);
    }
    MeanOfConstant(r, c);
  }

  /** The upper tail at a threshold is non-empty when some element reaches
      the threshold, and its mean is not below the threshold. */
  lemma AtLeastMean(s: seq<real>, t: real)
    requires exists j :: 0 <= j < |s| && t <= s[j]
    ensures |AtLeast(s, t)| > 0
    ensures t <= Mean(AtLeast(s, t))
  {
    var j :| 0 <= j < |s| && t <= s[j];
    var r := AtLeast(s, t);
    AtLeastCounts(s, t);
    assert s[j] in multiset(s);
    assert s[j] in multiset(r);
    forall k | 0 <= k < |r| ensures t <= r[k] {
      assert r[k] in multiset(r);
    }
    MeanAtLeast(r, t);
  }
}
