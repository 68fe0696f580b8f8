/** The rolling risk estimator (`compute_rolling_metrics`): for every day
    after a warm-up window, estimate normal VaR, historical VaR and
    historical ES from the `windowDays` returns strictly before that day,
    and report the last `testDays` days. */
module RiskMetrics {
  import opened Numbers
  import opened Transcendental
  import opened Stats
  import opened ReturnSeries

  /** One reported day: the realised return and loss and three loss
      estimates (each the negated return estimate). */
  datatype RiskRow = RiskRow(
    date: int,
    rReal: real,
    lossReal: real,
    varNormLoss: real,
    varHistLoss: real,
    esHistLoss: real)

  datatype RiskError =
      /** ValueError "Pas assez de données": the row count and the two sizes it must exceed together. */
      InsufficientData(rows: nat, windowDays: nat, testDays: nat)
      /** numpy's ValueError for a quantile level outside [0, 1]. */
    | QuantileOutOfRange(q: real)

  function ReturnDateKey(row: ReturnRow): real {
    row.date as real
  }

  /** The input sorted by date. */
  function ByDate(dfRet: seq<ReturnRow>): (df: seq<ReturnRow>)
    ensures |df| == |dfRet|
  {
    SortBy(dfRet, ReturnDateKey)
  }

  /** The date-sorted table is a permutation of the input with ascending dates. */
  lemma ByDateSpec(dfRet: seq<ReturnRow>)
    ensures multiset(ByDate(dfRet)) == multiset(dfRet)
    ensures forall i, j :: 0 <= i < j < |dfRet| ==> ByDate(dfRet)[i].date <= ByDate(dfRet)[j].date
  {
    SortByPermutes(dfRet, ReturnDateKey);
    SortBySorted(dfRet, ReturnDateKey);
  }

  /** The return column of a table. */
  function Returns(df: seq<ReturnRow>): (r: seq<real>)
    ensures |r| == |df|
  {
    if df == [] then [] else [df[0].r] + Returns(df[1..])
  }

  lemma {:induction false} ReturnsAt(df: seq<ReturnRow>, k: nat)
    requires k < |df|
    ensures Returns(df)[k] == df[k].r
  {
    if k > 0 {
      ReturnsAt(df[1..], k - 1);
    }
  }

  /** The estimation window for day i: the windowDays returns strictly before i. */
  function Window(r: seq<real>, i: nat, windowDays: nat): (w: seq<real>)
    requires windowDays <= i <= |r|
    ensures |w| == windowDays
  {
    r[i - windowDays .. i]
  }

  /** Return-space normal VaR: mean plus standard deviation times the
      standard normal quantile `ppf(alphaVar)`. */
  function NormalVaR(w: seq<real>, alphaVar: real, sqrt: real -> real, ppf: real -> real): real
    requires |w| >= 2 && SqrtLaws(sqrt)
  {
    Mean(w) + StdDev(w, sqrt) * ppf(alphaVar)
  }

  /** Return-space historical ES: the mean of the window's returns at or
      below its alphaEs-quantile. */
  function HistoricalES(w: seq<real>, alphaEs: real): real
    requires |w| > 0 && InUnit(alphaEs)
  {
    QuantileInRange(w, alphaEs);
    AtMostMean(w, Quantile(w, alphaEs));
    Mean(AtMost(w, Quantile(w, alphaEs)))
  }

  /** The window for day i holds exactly windowDays returns, those of days
      i - windowDays to i - 1: all strictly before day i. */
  lemma WindowBeforeDay(df: seq<ReturnRow>, i: nat, windowDays: nat)
    requires windowDays <= i < |df|
    ensures |Window(Returns(df), i, windowDays)| == windowDays
    ensures forall m :: 0 <= m < windowDays ==>
      Window(Returns(df), i, windowDays)[m] == df[i - windowDays + m].r
  {
    forall m | 0 <= m < windowDays
      ensures Window(Returns(df), i, windowDays)[m] == df[i - windowDays + m].r
    {
      ReturnsAt(df, i - windowDays + m);
    }
  }

  /** With a non-positive normal quantile (alphaVar at most one half), the
      normal VaR return does not exceed the window mean. */
  lemma NormalVaRBelowMean(w: seq<real>, alphaVar: real, sqrt: real -> real, ppf: real -> real)
    requires |w| >= 2 && SqrtLaws(sqrt)
    requires ppf(alphaVar) <= 0.0
    ensures NormalVaR(w, alphaVar, sqrt, ppf) <= Mean(w)
  {
    var sd := StdDev(w, sqrt);
    assert 0.0 <= sd;
    assert sd * ppf(alphaVar) <= 0.0;
  }

  /** The historical ES never exceeds the quantile it is taken below. */
  lemma HistoricalESBelowQuantile(w: seq<real>, alphaEs: real)
    requires |w| > 0 && InUnit(alphaEs)
    ensures |AtMost(w, Quantile(w, alphaEs))| > 0
    ensures HistoricalES(w, alphaEs) <= Quantile(w, alphaEs)
  {
    QuantileInRange(w, alphaEs);
    AtMostMean(w, Quantile(w, alphaEs));
  }

  /** The row reported for day i of the date-sorted table. */
  function DayRow(df: seq<ReturnRow>, i: nat, windowDays: nat, alphaVar: real, alphaEs: real,
                  sqrt: real -> real, ppf: real -> real): RiskRow
    requires 2 <= windowDays <= i < |df|
    requires InUnit(alphaVar) && InUnit(alphaEs) && SqrtLaws(sqrt)
  {
    var r := Returns(df);
    var w := Window(r, i, windowDays);
    RiskRow(df[i].date, r[i], -r[i],
            -NormalVaR(w, alphaVar, sqrt, ppf),
            -Quantile(w, alphaVar),
            -HistoricalES(w, alphaEs))
  }

  /** Day i's row carries day i's date and realised return, and the
      realised loss is the negated return. */
  lemma DayRowRealised(df: seq<ReturnRow>, i: nat, windowDays: nat, alphaVar: real, alphaEs: real,
                       sqrt: real -> real, ppf: real -> real)
    requires 2 <= windowDays <= i < |df|
    requires InUnit(alphaVar) && InUnit(alphaEs) && SqrtLaws(sqrt)
    ensures DayRow(df, i, windowDays, alphaVar, alphaEs, sqrt, ppf).date == df[i].date
    ensures DayRow(df, i, windowDays, alphaVar, alphaEs, sqrt, ppf).rReal == df[i].r
    ensures DayRow(df, i, windowDays, alphaVar, alphaEs, sqrt, ppf).lossReal == -df[i].r
  {
    ReturnsAt(df, i);
  }

  /** The historical VaR loss is the negation of a return lying between
      two returns of the window, that is of days before i. */
  lemma HistoricalVaRInWindow(df: seq<ReturnRow>, i: nat, windowDays: nat, alphaVar: real, alphaEs: real,
                              sqrt: real -> real, ppf: real -> real)
    requires 2 <= windowDays <= i < |df|
    requires InUnit(alphaVar) && InUnit(alphaEs) && SqrtLaws(sqrt)
    ensures exists d :: i - windowDays <= d < i &&
                        df[d].r <= -DayRow(df, i, windowDays, alphaVar, alphaEs, sqrt, ppf).varHistLoss
    ensures exists d :: i - windowDays <= d < i &&
                        -DayRow(df, i, windowDays, alphaVar, alphaEs, sqrt, ppf).varHistLoss <= df[d].r
  {
    var w := Window(Returns(df), i, windowDays);
    var v := -DayRow(df, i, windowDays, alphaVar, alphaEs, sqrt, ppf).varHistLoss;
    assert v == Quantile(w, alphaVar);
    WindowBeforeDay(df, i, windowDays);
    QuantileInRange(w, alphaVar);
    var lo :| 0 <= lo < |w| && w[lo] <= v;
    var hi :| 0 <= hi < |w| && v <= w[hi];
    assert df[i - windowDays + lo].r <= v;
    assert v <= df[i - windowDays + hi].r;
  }

  /** The ES tail of day i's window is non-empty and the ES loss is at
      least the loss at the alphaEs quantile. */
  lemma ESLossAtLeastTailQuantile(df: seq<ReturnRow>, i: nat, windowDays: nat, alphaVar: real, alphaEs: real,
                                  sqrt: real -> real, ppf: real -> real)
    requires 2 <= windowDays <= i < |df|
    requires InUnit(alphaVar) && InUnit(alphaEs) && SqrtLaws(sqrt)
    ensures |AtMost(Window(Returns(df), i, windowDays), Quantile(Window(Returns(df), i, windowDays), alphaEs))| > 0
    ensures DayRow(df, i, windowDays, alphaVar, alphaEs, sqrt, ppf).esHistLoss >=
      -Quantile(Window(Returns(df), i, windowDays), alphaEs)
  {
    HistoricalESBelowQuantile(Window(Returns(df), i, windowDays), alphaEs);
  }

  /** At a level no higher than the VaR level (in particular the same
      level), the historical ES loss is at least the historical VaR loss.
      The default levels (alpha_var 0.01, alpha_es 0.025) do not meet this
      requirement, so the lemma says nothing about the default report: there
      the ES loss is only bounded below by -q_es (ESLossAtLeastTailQuantile). */
  lemma ESLossAtLeastVaRLoss(df: seq<ReturnRow>, i: nat, windowDays: nat, alphaVar: real, alphaEs: real,
                             sqrt: real -> real, ppf: real -> real)
    requires 2 <= windowDays <= i < |df|
    requires InUnit(alphaVar) && InUnit(alphaEs) && SqrtLaws(sqrt)
    requires alphaEs <= alphaVar
    ensures DayRow(df, i, windowDays, alphaVar, alphaEs, sqrt, ppf).esHistLoss >=
      DayRow(df, i, windowDays, alphaVar, alphaEs, sqrt, ppf).varHistLoss
  {
    var w := Window(Returns(df), i, windowDays);
    HistoricalESBelowQuantile(w, alphaEs);
    QuantileMonotone(w, alphaEs, alphaVar);
  }

  /** When the window and day i all carry the same return c, every loss
      column of the row is -c, whatever real value the normal quantile
      takes. This matches the source for 0 < alphaVar < 1 only: at levels
      0 and 1 the normal quantile is infinite and, the standard deviation
      being 0, the source's normal VaR loss is NaN. */
  lemma DayRowOfConstant(df: seq<ReturnRow>, i: nat, windowDays: nat, alphaVar: real, alphaEs: real,
                         sqrt: real -> real, ppf: real -> real, c: real)
    requires 2 <= windowDays <= i < |df|
    requires InUnit(alphaVar) && InUnit(alphaEs) && SqrtLaws(sqrt)
    requires forall d :: i - windowDays <= d <= i ==> df[d].r == c
    ensures DayRow(df, i, windowDays, alphaVar, alphaEs, sqrt, ppf).lossReal == -c
    ensures DayRow(df, i, windowDays, alphaVar, alphaEs, sqrt, ppf).varNormLoss == -c
    ensures DayRow(df, i, windowDays, alphaVar, alphaEs, sqrt, ppf).varHistLoss == -c
    ensures DayRow(df, i, windowDays, alphaVar, alphaEs, sqrt, ppf).esHistLoss == -c
  {
    var w := Window(Returns(df), i, windowDays);
    WindowBeforeDay(df, i, windowDays);
    assert forall m :: 0 <= m < |w| ==> w[m] == c;
    ReturnsAt(df, i);
    MeanOfConstant(w, c);
    StdDevOfConstant(w, c, sqrt);
    QuantileOfConstant(w, alphaVar, c);
    QuantileOfConstant(w, alphaEs, c);
    AtMostOfConstant(w, c, c);
  }

  /** Day i's row as a function of i, for the days the loop visits. */
  function DayRows(df: seq<ReturnRow>, windowDays: nat, alphaVar: real, alphaEs: real,
                   sqrt: real -> real, ppf: real -> real): (row: nat --> RiskRow)
    requires 2 <= windowDays && InUnit(alphaVar) && InUnit(alphaEs) && SqrtLaws(sqrt)
    ensures forall i :: windowDays <= i < |df| ==> row.requires(i)
  {
    i requires windowDays <= i < |df| => DayRow(df, i, windowDays, alphaVar, alphaEs, sqrt, ppf)
  }

  /** The rows a loop has accumulated after appending row(d) for every day
      d from lo up to hi - 1: entry j is the row of day lo + j. */
  function Tabulate(row: nat --> RiskRow, lo: nat, hi: nat): (rows: seq<RiskRow>)
    requires lo <= hi
    requires forall d :: lo <= d < hi ==> row.requires(d)
    ensures |rows| == hi - lo
  {
    seq(hi - lo, j requires 0 <= j < hi - lo => row(lo + j))
  }

  /** The loop of `compute_rolling_metrics`: for every day i from lo up to
      hi - 1, append that day's row. */
  method DailyRows(row: nat --> RiskRow, lo: nat, hi: nat) returns (rows: seq<RiskRow>)
    requires lo <= hi
    requires forall d :: lo <= d < hi ==> row.requires(d)
    ensures rows == Tabulate(row, lo, hi)
  {
    rows := [];
    var i := lo;
    while i < hi
      invariant lo <= i <= hi
      invariant rows == Tabulate(row, lo, i)
    {
      rows := rows + [row(i)];
      i := i + 1;
    }
  }

  /** The rows `compute_rolling_metrics` reports: those of the last testDays
      days of the date-sorted table. */
  function ReportedRows(dfRet: seq<ReturnRow>, windowDays: nat, testDays: nat,
                        alphaVar: real, alphaEs: real,
                        sqrt: real -> real, ppf: real -> real): seq<RiskRow>
    requires windowDays >= 2 && windowDays + testDays < |dfRet|
    requires InUnit(alphaVar) && InUnit(alphaEs) && SqrtLaws(sqrt)
  {
    Tabulate(DayRows(ByDate(dfRet), windowDays, alphaVar, alphaEs, sqrt, ppf), |dfRet| - testDays, |dfRet|)
  }

  /** The report has testDays rows, and its row k is the row of day
      i = |dfRet| - testDays + k of the date-sorted table: it carries that
      day's date and return, and the realised loss is the negated return. */
  lemma ReportedRowAt(dfRet: seq<ReturnRow>, windowDays: nat, testDays: nat,
                      alphaVar: real, alphaEs: real,
                      sqrt: real -> real, ppf: real -> real, k: nat)
    requires windowDays >= 2 && windowDays + testDays < |dfRet|
    requires InUnit(alphaVar) && InUnit(alphaEs) && SqrtLaws(sqrt)
    requires k < testDays
    ensures var rows := ReportedRows(dfRet, windowDays, testDays, alphaVar, alphaEs, sqrt, ppf);
      var i := |dfRet| - testDays + k;
      |rows| == testDays &&
      rows[k] == DayRow(ByDate(dfRet), i, windowDays, alphaVar, alphaEs, sqrt, ppf) &&
      rows[k].date == ByDate(dfRet)[i].date &&
      rows[k].rReal == ByDate(dfRet)[i].r &&
      rows[k].lossReal == -rows[k].rReal
  {
    DayRowRealised(ByDate(dfRet), |dfRet| - testDays + k, windowDays, alphaVar, alphaEs, sqrt, ppf);
  }

  /** The reported dates ascend. */
  lemma ReportedDatesAscend(dfRet: seq<ReturnRow>, windowDays: nat, testDays: nat,
                            alphaVar: real, alphaEs: real,
                            sqrt: real -> real, ppf: real -> real)
    requires windowDays >= 2 && windowDays + testDays < |dfRet|
    requires InUnit(alphaVar) && InUnit(alphaEs) && SqrtLaws(sqrt)
    ensures var rows := ReportedRows(dfRet, windowDays, testDays, alphaVar, alphaEs, sqrt, ppf);
      forall k, l :: 0 <= k < l < |rows| ==> rows[k].date <= rows[l].date
  {
    var rows := ReportedRows(dfRet, windowDays, testDays, alphaVar, alphaEs, sqrt, ppf);
    ByDateSpec(dfRet);
    forall k, l | 0 <= k < l < |rows| ensures rows[k].date <= rows[l].date {
      ReportedRowAt(dfRet, windowDays, testDays, alphaVar, alphaEs, sqrt, ppf, k);
      ReportedRowAt(dfRet, windowDays, testDays, alphaVar, alphaEs, sqrt, ppf, l);
    }
  }

  /** Row k of the report of a table whose returns all equal c. */
  lemma ReportedRowOfConstant(dfRet: seq<ReturnRow>, windowDays: nat, testDays: nat,
                              alphaVar: real, alphaEs: real,
                              sqrt: real -> real, ppf: real -> real, c: real, k: nat)
    requires windowDays >= 2 && windowDays + testDays < |dfRet|
    requires InUnit(alphaVar) && InUnit(alphaEs) && SqrtLaws(sqrt)
    requires forall d :: 0 <= d < |dfRet| ==> ByDate(dfRet)[d].r == c
    requires k < testDays
    ensures var row := ReportedRows(dfRet, windowDays, testDays, alphaVar, alphaEs, sqrt, ppf)[k];
      row.lossReal == -c && row.varNormLoss == -c && row.varHistLoss == -c && row.esHistLoss == -c
  {
    ReportedRowAt(dfRet, windowDays, testDays, alphaVar, alphaEs, sqrt, ppf, k);
    DayRowOfConstant(ByDate(dfRet), |dfRet| - testDays + k, windowDays, alphaVar, alphaEs, sqrt, ppf, c);
  }

  /** When every return equals c, the report has testDays rows, and in each
      the realised loss and the three estimated losses are all -c. */
  lemma ReportedRowsOfConstant(dfRet: seq<ReturnRow>, windowDays: nat, testDays: nat,
                               alphaVar: real, alphaEs: real,
                               sqrt: real -> real, ppf: real -> real, c: real)
    requires windowDays >= 2 && windowDays + testDays < |dfRet|
    requires InUnit(alphaVar) && InUnit(alphaEs) && SqrtLaws(sqrt)
    requires forall d :: 0 <= d < |dfRet| ==> dfRet[d].r == c
    ensures var rows := ReportedRows(dfRet, windowDays, testDays, alphaVar, alphaEs, sqrt, ppf);
      |rows| == testDays &&
      forall k :: 0 <= k < testDays ==>
        rows[k].lossReal == -c && rows[k].varNormLoss == -c &&
        rows[k].varHistLoss == -c && rows[k].esHistLoss == -c
  {
    var rows := ReportedRows(dfRet, windowDays, testDays, alphaVar, alphaEs, sqrt, ppf);
    var df := ByDate(dfRet);
    ByDateSpec(dfRet);
    forall d | 0 <= d < |df| ensures df[d].r == c {
      assert df[d] in multiset(dfRet);
    }
    forall k | 0 <= k < testDays
      ensures rows[k].lossReal == -c && rows[k].varNormLoss == -c &&
        rows[k].varHistLoss == -c && rows[k].esHistLoss == -c
    {
      ReportedRowOfConstant(dfRet, windowDays, testDays, alphaVar, alphaEs, sqrt, ppf, c, k);
    }
  }

  /** `compute_rolling_metrics`. Sorts by date, fails unless there are more
      rows than windowDays + testDays (or when numpy rejects a quantile
      level), and otherwise reports the last testDays of the daily rows. */
  method ComputeRollingMetrics(dfRet: seq<ReturnRow>, windowDays: nat, testDays: nat,
                               alphaVar: real, alphaEs: real,
                               sqrt: real -> real, ppf: real -> real)
    returns (res: Result<seq<RiskRow>, RiskError>)
    requires windowDays >= 2 && SqrtLaws(sqrt)
    ensures |dfRet| <= windowDays + testDays ==>
      res == Err(InsufficientData(|dfRet|, windowDays, testDays))
    ensures |dfRet| > windowDays + testDays && !InUnit(alphaVar) ==>
      res == Err(QuantileOutOfRange(alphaVar))
    ensures |dfRet| > windowDays + testDays && InUnit(alphaVar) && !InUnit(alphaEs) ==>
      res == Err(QuantileOutOfRange(alphaEs))
    ensures res.Ok? <==> |dfRet| > windowDays + testDays && InUnit(alphaVar) && InUnit(alphaEs)
    ensures res.Ok? ==> res.value == ReportedRows(dfRet, windowDays, testDays, alphaVar, alphaEs, sqrt, ppf)
  {
    var df := ByDate(dfRet);
    if |df| <= windowDays + testDays {
      return Err(InsufficientData(|df|, windowDays, testDays));
    }
    if !InUnit(alphaVar) {
      return Err(QuantileOutOfRange(alphaVar));
    }
    if !InUnit(alphaEs) {
      return Err(QuantileOutOfRange(alphaEs));
    }
    var row := DayRows(df, windowDays, alphaVar, alphaEs, sqrt, ppf);
    var rows := DailyRows(row, windowDays, |df|);
    res := Ok(rows[|df| - testDays - windowDays ..]);
  }
}
