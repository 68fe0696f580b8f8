/** The backtests run on the rolling estimates: Kupiec's unconditional
    coverage test (`kupiec_uc_test`), the VaR backtest built on it
    (`backtest_var`) and the simple ES comparison (`backtest_es_simple`). */
module Backtest {
  import opened Numbers
  import opened Transcendental
  import opened Stats

  // ----- Kupiec unconditional coverage -----

  /** The clipping bound that keeps every logarithm argument positive. */
  const Eps: real := 1e-12

  /** The number of true flags. */
  function Count(flags: seq<bool>): (x: nat)
    ensures x <= |flags|
  {
    if flags == [] then 0 else (if flags[0] then 1 else 0) + Count(flags[1..])
  }

  /** The count is the multiplicity of `true` among the flags. */
  lemma {:induction false} CountIsTrueMultiplicity(flags: seq<bool>)
    ensures Count(flags) == multiset(flags)[true]
  {
    if flags != [] {
      CountIsTrueMultiplicity(flags[1..]);
      assert flags == [flags[0]] + flags[1..];
    }
  }

  /** Python's `min(max(v, eps), 1 - eps)` on a number. */
  function Clip(v: real): (c: real)
    ensures Eps <= c <= 1.0 - Eps
    ensures Eps <= v <= 1.0 - Eps ==> c == v
    ensures v < Eps ==> c == Eps
    ensures 1.0 - Eps < v ==> c == 1.0 - Eps
  {
    var m := if Eps > v then Eps else v;
    if 1.0 - Eps < m then 1.0 - Eps else m
  }

  /** The same clipping on a value that may be NaN: every comparison with
      NaN is false, so Python's max and min both hand NaN back. */
  function ClipFloat(f: Float): (c: Float)
    ensures c.NaN? <==> f.NaN?
    ensures f.Num? ==> c.value == Clip(f.value)
  {
    match f
    case NaN => NaN
    case Num(v) => Num(Clip(v))
  }

  /** Binomial log-likelihood of x exceptions in n days at rate p, up to
      the binomial coefficient: (n - x) log(1 - p) + x log p. */
  function LogLikelihood(n: nat, x: nat, p: real, log: real -> real): real
    requires x <= n
  {
    (n - x) as real * log(1.0 - p) + x as real * log(p)
  }

  /** Kupiec's statistic: -2 times the log-likelihood at the nominal rate
      a minus the log-likelihood at the observed rate p. */
  function LikelihoodRatio(n: nat, x: nat, a: real, p: real, log: real -> real): real
    requires x <= n
  {
    -2.0 * (LogLikelihood(n, x, a, log) - LogLikelihood(n, x, p, log))
  }

  /** The dictionary `kupiec_uc_test` returns, keys in order. */
  datatype KupiecResult = KupiecResult(
    n: nat,
    exceptions: nat,
    exceptionRate: Float,
    lrUc: Float,
    pValue: Float)

  /** `kupiec_uc_test`: count the exceptions, take the observed rate
      (NaN for an empty sample), clip both rates into [Eps, 1 - Eps],
      form the likelihood ratio and its chi-square(1) p-value. The natural
      logarithm and the chi-square(1) distribution function are the
      parameters `log` and `chi2Cdf`. */
  function KupiecUC(exceed: seq<bool>, alpha: real, log: real -> real, chi2Cdf: real -> real): (res: KupiecResult)
    ensures res.n == |exceed| && res.exceptions == Count(exceed)
  {
    var x := Count(exceed);
    var n := |exceed|;
    var phat := if n != 0 then Num(x as real / n as real) else NaN;
    var a := Clip(alpha);
    match ClipFloat(phat)
    case NaN => KupiecResult(n, x, phat, NaN, NaN)
    case Num(p) =>
      var lr := LikelihoodRatio(n, x, a, p, log);
      KupiecResult(n, x, phat, Num(lr), Num(1.0 - chi2Cdf(lr)))
  }

  /** The exception rate is x / n, a number in [0, 1], when there are
      observations; with none, the rate, the statistic and the p-value
      are all NaN. */
  lemma KupiecRate(exceed: seq<bool>, alpha: real, log: real -> real, chi2Cdf: real -> real)
    ensures var res := KupiecUC(exceed, alpha, log, chi2Cdf);
      res.exceptions <= res.n &&
      (res.n > 0 ==> res.exceptionRate == Num(res.exceptions as real / res.n as real) &&
                     0.0 <= res.exceptionRate.value <= 1.0 &&
                     res.lrUc.Num? && res.pValue.Num?) &&
      (res.n == 0 ==> res.exceptionRate.NaN? && res.lrUc.NaN? && res.pValue.NaN?)
  {
    var res := KupiecUC(exceed, alpha, log, chi2Cdf);
    if res.n > 0 {
      RatioInUnit(res.exceptions, res.n);
    }
  }

  lemma RatioInUnit(x: nat, n: nat)
    requires 0 < n && x <= n
    ensures 0.0 <= x as real / n as real <= 1.0
  {
  }

  /** The p-value lies in [0, 1] whenever the distribution function does. */
  lemma KupiecPValueInUnit(exceed: seq<bool>, alpha: real, log: real -> real, chi2Cdf: real -> real)
    requires CdfLaws(chi2Cdf)
    ensures var res := KupiecUC(exceed, alpha, log, chi2Cdf);
      res.pValue.Num? ==> 0.0 <= res.pValue.value <= 1.0
  {
  }

  /** With at least one observation the statistic is a number and is never
      negative, whatever alpha is: the clipped observed rate maximises the
      likelihood among the rates on its side of the clipped nominal rate. */
  lemma KupiecLRNonNegative(exceed: seq<bool>, alpha: real, log: real -> real, chi2Cdf: real -> real)
    requires LogLaws(log) && |exceed| > 0
    ensures KupiecUC(exceed, alpha, log, chi2Cdf).lrUc.Num?
    ensures KupiecUC(exceed, alpha, log, chi2Cdf).lrUc.value >= 0.0
  {
    var n := |exceed|;
    var x := Count(exceed);
    var p := Clip(x as real / n as real);
    var a := Clip(alpha);
    ClipSign(n, x, alpha);
    LikelihoodRatioNonNegative(n, x, a, p, log);
  }

  /** The clipped observed rate p and the clipped nominal rate a satisfy
      (p - a)(p n - x) <= 0: p exceeds x / n only when clipped up to Eps,
      which a cannot undercut, and falls below it only when clipped down
      to 1 - Eps, which a cannot exceed. */
  lemma ClipSign(n: nat, x: nat, alpha: real)
    requires 0 < n && x <= n
    ensures var p := Clip(x as real / n as real);
      (p - Clip(alpha)) * (p * n as real - x as real) <= 0.0
  {
    var r := x as real / n as real;
    var p := Clip(r);
    var a := Clip(alpha);
    var nr := n as real;
    assert r * nr == x as real;
    if r < Eps {
      assert p == Eps && p - a <= 0.0;
      assert p * nr - x as real == (p - r) * nr;
      ProductNonNegative(p - r, nr);
      ProductNonNegative(a - p, p * nr - x as real);
    } else if 1.0 - Eps < r {
      assert p == 1.0 - Eps && 0.0 <= p - a;
      assert x as real - p * nr == (r - p) * nr;
      ProductNonNegative(r - p, nr);
      ProductNonNegative(p - a, x as real - p * nr);
    } else {
      assert p == r;
    }
  }

  /** The statistic is non-negative for any rates a, p in (0, 1) with
      (p - a)(p n - x) <= 0, from log u - log v <= u / v - 1. */
  lemma LikelihoodRatioNonNegative(n: nat, x: nat, a: real, p: real, log: real -> real)
    requires LogLaws(log) && 0 < n && x <= n
    requires 0.0 < a < 1.0 && 0.0 < p < 1.0
    requires (p - a) * (p * n as real - x as real) <= 0.0
    ensures LikelihoodRatio(n, x, a, p, log) >= 0.0
  {
    LogDifference(log, 1.0 - a, 1.0 - p);
    LogDifference(log, a, p);
    RatioBound(n, x, a, p, log);
  }

  /** The same conclusion from the two bounds on the log differences alone. */
  lemma RatioBound(n: nat, x: nat, a: real, p: real, log: real -> real)
    requires 0 < n && x <= n
    requires 0.0 < a < 1.0 && 0.0 < p < 1.0
    requires (p - a) * (p * n as real - x as real) <= 0.0
    requires log(1.0 - a) - log(1.0 - p) <= (1.0 - a) / (1.0 - p) - 1.0
    requires log(a) - log(p) <= a / p - 1.0
    ensures LikelihoodRatio(n, x, a, p, log) >= 0.0
  {
    LogLikelihoodGap(n, x, a, p, log);
    GapAtMostZero(n, x, a, p, log(1.0 - a) - log(1.0 - p), log(a) - log(p));
  }

  /** The gap between the two log-likelihoods, term by term. */
  lemma LogLikelihoodGap(n: nat, x: nat, a: real, p: real, log: real -> real)
    requires x <= n
    ensures LogLikelihood(n, x, a, log) - LogLikelihood(n, x, p, log) ==
      (n - x) as real * (log(1.0 - a) - log(1.0 - p)) + x as real * (log(a) - log(p))
  {
    Regroup((n - x) as real, x as real, log(1.0 - a), log(a), log(1.0 - p), log(p));
  }

  /** With du <= (1 - a)/(1 - p) - 1 and dv <= a/p - 1 standing for the
      two log differences, the weighted gap (n - x) du + x dv is at most zero. */
  lemma GapAtMostZero(n: nat, x: nat, a: real, p: real, du: real, dv: real)
    requires 0 < n && x <= n
    requires 0.0 < p < 1.0
    requires (p - a) * (p * n as real - x as real) <= 0.0
    requires du <= (1.0 - a) / (1.0 - p) - 1.0 && dv <= a / p - 1.0
    ensures (n - x) as real * du + x as real * dv <= 0.0
  {
    RatioMinusOne(1.0 - a, 1.0 - p);
    RatioMinusOne(a, p);
    assert (1.0 - a) - (1.0 - p) == p - a;
    BoundAtMostZero(n, x, a, p);
    CombinedBound((n - x) as real, x as real, du, dv, (p - a) / (1.0 - p), (a - p) / p);
  }

  /** m du + x dv <= m bu + x bv <= 0 for non-negative weights. */
  lemma CombinedBound(m: real, x: real, du: real, dv: real, bu: real, bv: real)
    requires 0.0 <= m && 0.0 <= x && du <= bu && dv <= bv
    requires m * bu + x * bv <= 0.0
    ensures m * du + x * dv <= 0.0
  {
    ScaleAtMost(m, du, bu);
    ScaleAtMost(x, dv, bv);
  }

  /** (n - x)(p - a)/(1 - p) + x (a - p)/p equals
      (p - a)(p n - x) / (p (1 - p)), which is at most zero. */
  lemma BoundAtMostZero(n: nat, x: nat, a: real, p: real)
    requires 0 < n && x <= n
    requires 0.0 < p < 1.0
    requires (p - a) * (p * n as real - x as real) <= 0.0
    ensures (n - x) as real * ((p - a) / (1.0 - p)) + x as real * ((a - p) / p) <= 0.0
  {
    var m := (n - x) as real;
    var xr := x as real;
    var d := p * (1.0 - p);
    var t := m * ((p - a) / (1.0 - p)) + xr * ((a - p) / p);
    ProductPositive(p, 1.0 - p);
    assert m * ((p - a) / (1.0 - p)) * d == m * (p - a) * p;
    assert xr * ((a - p) / p) * d == xr * (a - p) * (1.0 - p);
    assert t * d == (p - a) * (p * n as real - xr);
    if 0.0 < t {
      ProductPositive(t, d);
    }
  }

  /** The example of the test suite: flags T, F, T, F, F give five
      observations, two exceptions and a rate of 0.4. */
  lemma KupiecExample(alpha: real, log: real -> real, chi2Cdf: real -> real)
    ensures var res := KupiecUC([true, false, true, false, false], alpha, log, chi2Cdf);
      res.n == 5 && res.exceptions == 2 && res.exceptionRate == Num(0.4)
  {
    var flags := [true, false, true, false, false];
    assert Count(flags[4..]) == 0;
    assert Count(flags[3..]) == 0;
    assert Count(flags[2..]) == 1;
    assert Count(flags[1..]) == 1;
  }

  // ----- VaR backtest -----

  /** A results table as seen by the backtests: numeric columns by name. */
  type Frame = map<string, seq<real>>

  /** Every column of a data frame has the same length. */
  predicate Rectangular(frame: Frame) {
    forall c, d :: c in frame && d in frame ==> |frame[c]| == |frame[d]|
  }

  const LossColumn: string := "loss_real"

  datatype BacktestError =
      /** KeyError: the named column is not in the frame. */
      MissingColumn(name: string)
      /** numpy's ValueError for a quantile level outside [0, 1]. */
    | LevelOutOfRange(q: real)
      /** numpy's IndexError for the quantile of an empty sample. */
    | EmptySample

  /** The row `backtest_var` returns: the method name, then Kupiec's
      fields in the order n, exceptions, exception_rate, LR_uc, p_value. */
  datatype VarBacktest = VarBacktest(
    methodName: string,
    n: nat,
    exceptions: nat,
    exceptionRate: Float,
    lrUc: Float,
    pValue: Float)

  /** Day k is an exception when the realised loss strictly exceeds the VaR. */
  function Exceedances(loss: seq<real>, varLoss: seq<real>): (e: seq<bool>)
    requires |loss| == |varLoss|
    ensures |e| == |loss|
  {
    seq(|loss|, k requires 0 <= k < |loss| => loss[k] > varLoss[k])
  }

  /** Exceptions are exactly the days whose loss is strictly above the VaR:
      a loss equal to the VaR is not one. */
  lemma ExceedanceIsStrict(loss: seq<real>, varLoss: seq<real>, k: nat)
    requires |loss| == |varLoss| && k < |loss|
    ensures Exceedances(loss, varLoss)[k] <==> loss[k] > varLoss[k]
    ensures loss[k] == varLoss[k] ==> !Exceedances(loss, varLoss)[k]
  {
  }

  /** `backtest_var`: compare the realised loss with the VaR column named
      varCol and run Kupiec's test on the exceptions. */
  function BacktestVar(frame: Frame, varCol: string, alpha: real,
                       log: real -> real, chi2Cdf: real -> real): (res: Result<VarBacktest, BacktestError>)
    requires Rectangular(frame)
    ensures LossColumn !in frame ==> res == Err(MissingColumn(LossColumn))
    ensures LossColumn in frame && varCol !in frame ==> res == Err(MissingColumn(varCol))
    ensures res.Ok? <==> LossColumn in frame && varCol in frame
    ensures res.Ok? ==>
      res.value.methodName == varCol &&
      res.value.n == |frame[LossColumn]| &&
      res.value.exceptions == multiset(Exceedances(frame[LossColumn], frame[varCol]))[true]
    ensures res.Ok? ==>
      var k := KupiecUC(Exceedances(frame[LossColumn], frame[varCol]), alpha, log, chi2Cdf);
      res.value.exceptionRate == k.exceptionRate && res.value.lrUc == k.lrUc && res.value.pValue == k.pValue
  {
    if LossColumn !in frame then Err(MissingColumn(LossColumn))
    else if varCol !in frame then Err(MissingColumn(varCol))
    else
      var exceed := Exceedances(frame[LossColumn], frame[varCol]);
      var k := KupiecUC(exceed, alpha, log, chi2Cdf);
      CountIsTrueMultiplicity(exceed);
      Ok(VarBacktest(varCol, k.n, k.exceptions, k.exceptionRate, k.lrUc, k.pValue))
  }

  /** The fields after the method name are those of Kupiec's test on the
      exceptions, so the statistic is non-negative and the p-value lies in
      [0, 1] whenever the frame has a row. */
  lemma BacktestVarIsKupiec(frame: Frame, varCol: string, alpha: real,
                            log: real -> real, chi2Cdf: real -> real)
    requires Rectangular(frame) && LossColumn in frame && varCol in frame
    requires LogLaws(log) && CdfLaws(chi2Cdf) && |frame[LossColumn]| > 0
    ensures var res := BacktestVar(frame, varCol, alpha, log, chi2Cdf);
      res.Ok? && res.value.lrUc.Num? && res.value.lrUc.value >= 0.0 &&
      res.value.pValue.Num? && 0.0 <= res.value.pValue.value <= 1.0
  {
    var exceed := Exceedances(frame[LossColumn], frame[varCol]);
    KupiecLRNonNegative(exceed, alpha, log, chi2Cdf);
    KupiecPValueInUnit(exceed, alpha, log, chi2Cdf);
  }

  /** The test suite's VaR example: losses 0.10, 0.05, 0.20, 0.02 against a
      constant VaR of 0.08 give four days, two exceptions, rate 0.5. */
  lemma BacktestVarExample(alpha: real, log: real -> real, chi2Cdf: real -> real)
    ensures var frame := map[LossColumn := [0.10, 0.05, 0.20, 0.02], "VaR_model" := [0.08, 0.08, 0.08, 0.08]];
      var res := BacktestVar(frame, "VaR_model", alpha, log, chi2Cdf);
      res.Ok? && res.value.methodName == "VaR_model" && res.value.n == 4 &&
      res.value.exceptions == 2 && res.value.exceptionRate == Num(0.5)
  {
    var frame := map[LossColumn := [0.10, 0.05, 0.20, 0.02], "VaR_model" := [0.08, 0.08, 0.08, 0.08]];
    var exceed := Exceedances(frame[LossColumn], frame["VaR_model"]);
    assert exceed == [true, false, true, false];
    assert Count(exceed[3..]) == 0;
    assert Count(exceed[2..]) == 1;
    assert Count(exceed[1..]) == 1;
  }

  // ----- simple ES backtest -----

  const EsNote: string := "Backtest ES simple (à détailler dans le rapport)."

  /** The row `backtest_es_simple` returns. */
  datatype EsBacktest = EsBacktest(
    methodName: string,
    meanLoss: real,
    meanLossWorst: Float,
    meanES: real,
    note: string)

  /** `backtest_es_simple`: the threshold is the (1 - alphaEs)-quantile of
      the realised losses, the worst losses are those at or above it, and
      the row reports the mean loss, the mean worst loss (NaN if there were
      none) and the mean of the ES column named esCol. */
  function BacktestEsSimple(frame: Frame, esCol: string, alphaEs: real): (res: Result<EsBacktest, BacktestError>)
    requires Rectangular(frame)
    ensures LossColumn !in frame ==> res == Err(MissingColumn(LossColumn))
    ensures LossColumn in frame && esCol !in frame ==> res == Err(MissingColumn(esCol))
    ensures LossColumn in frame && esCol in frame && !InUnit(1.0 - alphaEs) ==>
      res == Err(LevelOutOfRange(1.0 - alphaEs))
    ensures LossColumn in frame && esCol in frame && InUnit(1.0 - alphaEs) && |frame[LossColumn]| == 0 ==>
      res == Err(EmptySample)
    ensures res.Ok? <==>
      LossColumn in frame && esCol in frame && InUnit(1.0 - alphaEs) && |frame[LossColumn]| > 0
    ensures res.Ok? ==>
      res.value.methodName == esCol && res.value.note == EsNote &&
      res.value.meanLoss == Mean(frame[LossColumn]) && res.value.meanES == Mean(frame[esCol])
    ensures res.Ok? ==>
      |AtLeast(frame[LossColumn], Quantile(frame[LossColumn], 1.0 - alphaEs))| > 0 &&
      res.value.meanLossWorst == Num(Mean(AtLeast(frame[LossColumn], Quantile(frame[LossColumn], 1.0 - alphaEs))))
  {
    if LossColumn !in frame then Err(MissingColumn(LossColumn))
    else if esCol !in frame then Err(MissingColumn(esCol))
    else if !InUnit(1.0 - alphaEs) then Err(LevelOutOfRange(1.0 - alphaEs))
    else if |frame[LossColumn]| == 0 then Err(EmptySample)
    else
      var loss := frame[LossColumn];
      var thr := Quantile(loss, 1.0 - alphaEs);
      var worst := AtLeast(loss, thr);
      WorstTailNonEmpty(loss, 1.0 - alphaEs);
      var meanWorst := if |worst| > 0 then Num(Mean(worst)) else NaN;
      Ok(EsBacktest(esCol, Mean(loss), meanWorst, Mean(frame[esCol]), EsNote))
  }

  /** The worst tail is inclusive: a loss belongs to it exactly when it is
      at or above the threshold, so a loss equal to the threshold is one of
      the worst losses (where a loss equal to the VaR is no exception). */
  lemma WorstTailIsInclusive(loss: seq<real>, thr: real, k: nat)
    requires k < |loss|
    ensures loss[k] in AtLeast(loss, thr) <==> loss[k] >= thr
    ensures loss[k] == thr ==> loss[k] in AtLeast(loss, thr)
  {
    AtLeastCounts(loss, thr);
    assert loss[k] in multiset(loss);
  }

  /** The losses at or above a quantile of a non-empty sample are never
      none, and their mean is at least that quantile. */
  lemma WorstTailNonEmpty(loss: seq<real>, q: real)
    requires |loss| > 0 && InUnit(q)
    ensures |AtLeast(loss, Quantile(loss, q))| > 0
    ensures Quantile(loss, q) <= Mean(AtLeast(loss, Quantile(loss, q)))
  {
    QuantileInRange(loss, q);
    AtLeastMean(loss, Quantile(loss, q));
  }

  /** The worst-loss tail is never empty, so its mean is a number, and
      that mean is at least the threshold. */
  lemma EsWorstTail(frame: Frame, esCol: string, alphaEs: real)
    requires Rectangular(frame)
    ensures var res := BacktestEsSimple(frame, esCol, alphaEs);
      res.Ok? ==>
        res.value.meanLossWorst.Num? &&
        res.value.meanLossWorst.value >= Quantile(frame[LossColumn], 1.0 - alphaEs)
  {
    var res := BacktestEsSimple(frame, esCol, alphaEs);
    if res.Ok? {
      WorstTailNonEmpty(frame[LossColumn], 1.0 - alphaEs);
    }
  }

  /** The test suite's ES example: losses 0.01, 0.03, 0.10, 0.20 with
      alphaEs 0.25 give the threshold 0.125 and the single worst loss 0.20;
      the ES column is constant at 0.15. */
  lemma EsExample()
    ensures var frame := map[LossColumn := [0.01, 0.03, 0.10, 0.20], "ES_model" := [0.15, 0.15, 0.15, 0.15]];
      var res := BacktestEsSimple(frame, "ES_model", 0.25);
      res.Ok? && res.value.methodName == "ES_model" &&
      Quantile(frame[LossColumn], 0.75) == 0.125 &&
      res.value.meanLoss == 0.085 &&
      res.value.meanLossWorst == Num(0.20) && res.value.meanES == 0.15
  {
    var loss := [0.01, 0.03, 0.10, 0.20];
    var frame := map[LossColumn := loss, "ES_model" := [0.15, 0.15, 0.15, 0.15]];
    SortedOfSorted(loss);
    assert Position(4, 0.75) == 2.25;
    assert Interpolate(loss, 2.25) == 0.125;
    assert AtLeast(loss, 0.125) == [0.20];
    MeanOfConstant([0.15, 0.15, 0.15, 0.15], 0.15);
    MeanOfConstant([0.20], 0.20);
  }
}
