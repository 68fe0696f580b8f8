# Rolling VaR/ES estimation and backtesting, modelled in Dafny

This project models the numerical core of a small market-risk toolkit that works on one daily price series. The toolkit:

- turns dated closing prices into log returns and losses (`compute_log_returns`);
- estimates three one-day risk figures for every day of a test period from a trailing window of returns (`compute_rolling_metrics`): parametric normal VaR, historical VaR and historical ES;
- backtests the figures. VaR is checked with Kupiec's unconditional-coverage likelihood-ratio test (`kupiec_uc_test`, `backtest_var`). ES is checked by a simple comparison of tail means (`backtest_es_simple`).

Arithmetic is exact (`real`). numpy's NaN is the `NaN` case of `Numbers.Float`. Every raised exception is the `Err` case of `Numbers.Result`, with one error constructor per distinct error.

The model uses four library functions whose numerical internals it does not see: the natural logarithm, the square root inside `std(ddof=1)`, the normal quantile `norm.ppf` and the chi-square distribution function `chi2.cdf`. Each is a function-valued parameter. The facts the model relies on are predicates in `Transcendental`, required only by the members that need them:

- `LogLaws`: log y ≤ y − 1, and log(u/v) = log u − log v;
- `SqrtLaws`: sqrt(0) = 0, and sqrt is non-negative;
- `CdfLaws`: values lie in [0, 1].

Modules, leaf first:

- `Numbers`: the NaN-or-number type, the result type, numpy's quantile-level check, and small real-arithmetic facts.
- `Transcendental`: the law predicates, plus the consequence log u − log v ≤ u/v − 1.
- `Stats`: sum, mean, and variance with divisor n − 1. It also holds sorting by a key (an insertion sort proved to be an ascending permutation) and numpy's default "linear" quantile (definition 7 of Hyndman and Fan, 1996). The quantile sorts, sets h = (n − 1)q and interpolates between positions ⌊h⌋ and min(⌊h⌋ + 1, n − 1). Last come the one-sided tails `AtMost` (`w <= t`) and `AtLeast` (`loss >= t`).
- `ReturnSeries` (`src/data_save.py`, `compute_log_returns`):
  - check the required columns;
  - sort by date;
  - drop rows whose close does not coerce to a number;
  - form r = log(close[k+1]/close[k]) and loss = −r.
- `RiskMetrics` (`src/risk_metrics.py`): the imperative loop. The method `DailyRows` appends one row per day to a sequence, with a loop invariant over the rows accumulated so far. `ComputeRollingMetrics` sorts the input, checks its size, runs the loop and keeps the last `testDays` rows. The per-window estimates are pure functions.
- `Backtest` (`src/back_test.py`):
  - Kupiec's test, with rates clipped to [1e-12, 1 − 1e-12];
  - the VaR backtest, with strict exceedance;
  - the simple ES backtest, with an inclusive worst tail.

  The data frame of per-day results is a map from column names to equally long columns.

Main results:

- The rolling estimator fails with "Pas assez de données" exactly when there are too few rows, and with numpy's quantile error when alpha_var or alpha_es lies outside [0, 1]. Otherwise it reports exactly `testDays` rows, and row k is day |df| − testDays + k of the date-sorted input:
  - its window is the `windowDays` returns strictly before that day;
  - it carries that day's date and return, with loss −r;
  - the dates ascend.
- The historical VaR lies between two window returns. The ES tail is non-empty and its mean is at most the tail quantile. A constant window gives −c in all four loss columns, whatever real value the normal quantile takes, and so a series of constant returns c gives −c in all four loss columns of every reported row. This describes the source for 0 < alpha_var < 1, where `norm.ppf` is finite; at alpha_var 0 or 1 the source's normal VaR loss of a constant window is NaN (0·∞).
- Kupiec's count is the number of true flags, and x ≤ n. The rate is x/n, or NaN when n = 0. LR_uc ≥ 0 for every n > 0 and every alpha, proved from the two logarithm laws. The p-value lies in [0, 1].
- The VaR exceedance is strict.
- The ES worst tail is inclusive: a loss equal to the threshold belongs to it. It is never empty, so the NaN branch is unreachable, and its mean is at least the threshold.
- Cleaning the price table keeps each row with a numeric close exactly as often as it occurs, so the series has one return fewer than it has numeric rows (none below two).
- The examples of tests/test_data_save.py and tests/test_back_test.py are lemmas, and so is the constant-returns case of tests/test_risk_metrics.py.

## Model

| member | source | states |
|---|---|---|
| Stats.MeanAtMost | src/risk_metrics.py:32 | a sample bounded above by c has mean at most c |
| Stats.MeanAtLeast | src/risk_metrics.py:32 | a sample bounded below by c has mean at least c |
| Stats.MeanOfConstant | src/risk_metrics.py:32 | the mean of a constant sample is that constant |
| Stats.Variance | src/risk_metrics.py:33 | the ddof=1 sample variance is never negative |
| Stats.StdDev | src/risk_metrics.py:33 | the sample standard deviation is never negative, given only sqrt ≥ 0 |
| Stats.StdDevOfConstant | src/risk_metrics.py:32-33 | a constant sample has variance 0 and standard deviation 0 |
| Stats.SortByPermutes | src/risk_metrics.py:20 | sorting by a key returns a permutation of its input (same multiset) |
| Stats.SortBySorted | src/risk_metrics.py:20 | sorting by a key returns keys in ascending order |
| Stats.SortByKeepsSorted | src/data_save.py:49 | sorting an already sorted table leaves it unchanged |
| Stats.SortedSpec | src/risk_metrics.py:37 | the order statistics the quantile reads are an ascending permutation of the sample |
| Stats.Position | src/risk_metrics.py:37 | numpy's fractional index (n − 1)q stays within the sample's index range for q in [0, 1] |
| Stats.InterpolateBetween | src/risk_metrics.py:37 | on sorted data the interpolated value lies between the first and last order statistic |
| Stats.QuantileBetween | src/risk_metrics.py:37 | the linear quantile lies between the sample minimum and maximum |
| Stats.QuantileInRange | src/risk_metrics.py:37 | the linear quantile lies between two elements of the sample |
| Stats.QuantileMonotone | src/risk_metrics.py:37-40 | a lower level never gives a higher quantile |
| Stats.InterpolateMonotone | src/risk_metrics.py:37-40 | on sorted data, interpolation is monotone in the fractional position |
| Stats.QuantileOfConstant | src/risk_metrics.py:37-40 | the quantile of a constant sample is that constant at every level |
| Stats.AtMostCounts | src/risk_metrics.py:41 | the tail `w <= t` keeps every element at or below t with its multiplicity, and nothing else |
| Stats.AtLeastCounts | src/back_test.py:55 | the tail `loss >= t` keeps every element at or above t with its multiplicity, and nothing else |
| Stats.AtMostMean | src/risk_metrics.py:40-41 | when some element is at or below t, the lower tail is non-empty and its mean is at most t |
| Stats.AtLeastMean | src/back_test.py:55-64 | when some element is at or above t, the upper tail is non-empty and its mean is at least t |
| Stats.AtMostOfConstant | src/risk_metrics.py:40-41 | the lower tail of a constant sample c at a threshold ≥ c is non-empty with mean c |
| Transcendental.LogDifference | src/back_test.py:20-24 | from the two logarithm laws: log u − log v ≤ u/v − 1 |
| ReturnSeries.MissingFrom | src/data_save.py:42-43 | the missing set is exactly the required columns {date, close} absent from the table |
| ReturnSeries.NumericPricesFromRows | src/data_save.py:51-52 | every kept price comes from a row with a numeric close, and every such row is kept |
| ReturnSeries.NumericPricesCounts | src/data_save.py:51-52 | each price is kept exactly as many times as the table holds the row with that date and that numeric close |
| ReturnSeries.NumericPricesKeepOrder | src/data_save.py:49-52 | dropping non-numeric rows keeps dates ascending |
| ReturnSeries.LogReturns | src/data_save.py:55-58 | one row fewer than prices, and none for fewer than two: the first price has no predecessor and its row is dropped |
| ReturnSeries.LogReturnsAt | src/data_save.py:55-60 | row k has the later price's date and close, r = log(close[k+1]/close[k]) and loss = −r |
| ReturnSeries.CleanPrices | src/data_save.py:49-52 | the cleaned closes are positive and their dates ascend |
| ReturnSeries.CleanPricesKeepNumeric | src/data_save.py:51-52 | the cleaned series holds exactly the rows with a numeric close, each as often as it occurs in the table, so it has as many prices as the table has numeric rows |
| ReturnSeries.ComputeLogReturns | src/data_save.py:34-61 | ValueError exactly when date or close is missing, carrying the missing columns and the present ones; otherwise the log returns of the cleaned (sorted, numeric-only) price series |
| ReturnSeries.ReturnsAscend | src/data_save.py:49 | the returned rows are in ascending date order |
| ReturnSeries.CleanPricesOfCleanTable | src/data_save.py:49-52 | sorting and dropping leave a table already in date order with only numeric closes as it is |
| ReturnSeries.ReturnsOfCleanTable | src/data_save.py:34-61 | for a table already sorted and all numeric, output row k pairs input rows k and k+1 |
| ReturnSeries.ComputeLogReturnsOfThree | tests/test_data_save.py:6-29 | three prices give two rows with r = log(c2/c1), log(c3/c2), the later dates and closes, and loss = −r |
| RiskMetrics.ByDate | src/risk_metrics.py:20 | sorting by date keeps the row count |
| RiskMetrics.ByDateSpec | src/risk_metrics.py:20 | the date-sorted table is a permutation of the input with ascending dates |
| RiskMetrics.ReturnsAt | src/risk_metrics.py:21 | the return column holds each row's return at the same index |
| RiskMetrics.Window | src/risk_metrics.py:31 | the window of day i holds exactly windowDays values |
| RiskMetrics.WindowBeforeDay | src/risk_metrics.py:30-31 | the window of day i is the returns of days i − windowDays to i − 1, all strictly before i |
| RiskMetrics.NormalVaRBelowMean | src/risk_metrics.py:32-36 | with a non-positive normal quantile, the normal VaR return is at most the window mean |
| RiskMetrics.HistoricalESBelowQuantile | src/risk_metrics.py:40-41 | the ES tail `w <= q_es` is non-empty and its mean is at most q_es |
| RiskMetrics.DayRowRealised | src/risk_metrics.py:43-46 | day i's row has day i's date, r_real = r[i] and loss_real = −r[i] |
| RiskMetrics.HistoricalVaRInWindow | src/risk_metrics.py:37-48 | the historical VaR loss is minus a value lying between two returns of days strictly before i |
| RiskMetrics.ESLossAtLeastTailQuantile | src/risk_metrics.py:40-49 | the ES tail is non-empty and the ES loss is at least −q_es |
| RiskMetrics.ESLossAtLeastVaRLoss | src/risk_metrics.py:37-49 | when alpha_es ≤ alpha_var, the ES loss is at least the historical VaR loss |
| RiskMetrics.DayRowOfConstant | src/risk_metrics.py:32-49 | a window and day of constant return c give −c in all four loss columns, whatever ppf returns |
| RiskMetrics.DayRows | src/risk_metrics.py:30 | the per-day row is defined on every day the loop visits |
| RiskMetrics.Tabulate | src/risk_metrics.py:29-30 | the rows for days lo to hi − 1 number hi − lo |
| RiskMetrics.DailyRows | src/risk_metrics.py:29-50 | the loop appends day i's row for every i from lo to hi − 1, in order (loop invariant over the accumulated rows) |
| RiskMetrics.ReportedRowAt | src/risk_metrics.py:29-52 | the report has test_days rows; row k is day len − test_days + k's row, with that day's date and return and loss_real = −r_real |
| RiskMetrics.ReportedDatesAscend | src/risk_metrics.py:20-52 | the reported dates ascend |
| RiskMetrics.ReportedRowOfConstant | src/risk_metrics.py:29-52 | when the sorted returns all equal c, report row k has −c as loss_real and as all three estimated losses |
| RiskMetrics.ReportedRowsOfConstant | tests/test_risk_metrics.py:49-74 | constant returns c give test_days rows, each with −c in loss_real, VaR99_norm_loss, VaR99_hist_loss and ES97_5_hist_loss |
| RiskMetrics.ComputeRollingMetrics | src/risk_metrics.py:6-53 | "Pas assez de données" exactly when len ≤ window + test; numpy's quantile error for a level outside [0, 1], alpha_var checked before alpha_es; otherwise the last test_days daily rows of the date-sorted input |
| Backtest.Count | src/back_test.py:12-13 | the exception count is at most the number of flags |
| Backtest.CountIsTrueMultiplicity | src/back_test.py:11-12 | the exception count is the number of true flags |
| Backtest.Clip | src/back_test.py:16-18 | the clipped value lies in [1e-12, 1 − 1e-12]; it is unchanged inside that range and pinned to the nearer bound outside it |
| Backtest.ClipFloat | src/back_test.py:18 | clipping keeps NaN as NaN and clips a number as above |
| Backtest.KupiecUC | src/back_test.py:6-32 | n is the number of flags and exceptions is the count of true flags |
| Backtest.KupiecRate | src/back_test.py:12-25 | x ≤ n. For n > 0 the rate is x/n in [0, 1] and LR and p-value are numbers. For n = 0 rate, LR and p-value are all NaN |
| Backtest.KupiecPValueInUnit | src/back_test.py:25 | the p-value lies in [0, 1] given a distribution function with values in [0, 1] |
| Backtest.KupiecLRNonNegative | src/back_test.py:16-24 | for n > 0 and every alpha, LR_uc is a number and LR_uc ≥ 0, from log y ≤ y − 1 and log(u/v) = log u − log v |
| Backtest.ClipSign | src/back_test.py:16-18 | the clipped rates satisfy (p − a)(p·n − x) ≤ 0: clipping never carries p across x/n away from a |
| Backtest.LikelihoodRatioNonNegative | src/back_test.py:20-24 | the statistic is ≥ 0 for any rates a, p in (0, 1) with (p − a)(p·n − x) ≤ 0 |
| Backtest.RatioBound | src/back_test.py:20-24 | the same conclusion from the two bounds on the log differences |
| Backtest.GapAtMostZero | src/back_test.py:20-24 | the weighted log-likelihood gap (n − x)·du + x·dv is ≤ 0 under those bounds |
| Backtest.BoundAtMostZero | src/back_test.py:20-24 | (n − x)(p − a)/(1 − p) + x(a − p)/p ≤ 0 under the sign condition |
| Backtest.KupiecExample | tests/test_back_test.py:6-16 | flags T, F, T, F, F give n = 5, 2 exceptions and rate 0.4 |
| Backtest.Exceedances | src/back_test.py:38 | one flag per day |
| Backtest.ExceedanceIsStrict | src/back_test.py:38 | a day is an exception iff loss > VaR, so a loss equal to the VaR is not one |
| Backtest.BacktestVar | src/back_test.py:35-40 | KeyError on loss_real first, then on var_col. The record exists iff both columns exist. It carries method = var_col, n = number of days and exceptions = number of strict exceedances; exception_rate, LR_uc and p_value are those of Kupiec's test on the exceedance flags (so the rate is x/n, and all three are NaN on an empty frame, by KupiecRate) |
| Backtest.BacktestVarIsKupiec | src/back_test.py:39-40 | on a non-empty frame, the record's LR_uc is ≥ 0 and its p-value lies in [0, 1] |
| Backtest.BacktestVarExample | tests/test_back_test.py:22-47 | losses 0.10, 0.05, 0.20, 0.02 against VaR 0.08 give method VaR_model, n = 4, 2 exceptions and rate 0.5 |
| Backtest.BacktestEsSimple | src/back_test.py:43-69 | KeyError on loss_real, then on es_col; numpy's level error when 1 − alpha_es is outside [0, 1]; the empty-sample error. Otherwise a record with method = es_col, mean_loss the mean of all losses, mean_ES the mean of the ES column, the fixed note, and mean_loss_worst the mean of the non-empty tail of losses ≥ thr, thr being the (1 − alpha_es)-quantile of the losses |
| Backtest.WorstTailIsInclusive | src/back_test.py:55 | a loss is in the worst tail iff it is ≥ thr, so a loss equal to thr is one of the worst |
| Backtest.WorstTailNonEmpty | src/back_test.py:54-55 | the losses at or above a quantile of a non-empty sample are never none, and their mean is at least the quantile |
| Backtest.EsWorstTail | src/back_test.py:54-64 | the worst tail `loss >= thr` is never empty, so mean_loss_worst is a number, and it is ≥ thr |
| Backtest.EsExample | tests/test_back_test.py:50-69 | losses 0.01, 0.03, 0.10, 0.20 with alpha_es 0.25 give thr 0.125, mean_loss 0.085, worst tail [0.20] and mean_ES 0.15 |

## Left out

- `load_prices` (src/data_save.py:6-31) is a network download with frame reshaping; it is not part of this model. The same holds for the Streamlit front end (app.py) and the spreadsheet export (src/export_excel.py).
- The numerical internals of `np.log`, the square root, `norm.ppf` and `chi2.cdf` are not modelled. They are function-valued parameters constrained only by the laws in `Transcendental`.
- Floating-point rounding is not modelled; arithmetic is exact. Infinities are not modelled either. `norm.ppf` is infinite at levels 0 and 1. There the source produces an infinite normal VaR loss when the window's standard deviation is positive, and NaN (0·∞) when it is zero; the model's `ppf` returns a real there.
- NaN is modelled only where the code produces it on purpose: the empty Kupiec sample and the empty worst tail. Inputs are never NaN.
- `compute_log_returns` returns an empty table for fewer than two valid prices; it does not raise (src/data_save.py:55-58). `LogReturns` states this case.
- Column checks outside `compute_log_returns` are only partly modelled:
  - the rolling estimator takes typed rows, so a missing `date` or `r` column (a KeyError in the source) cannot occur;
  - the backtests take a map from column names to numeric columns, so a non-numeric column named as `var_col` is not represented.
- The model's insertion sort is stable. pandas' default sort is not. For rows with equal dates the order may therefore differ; with unique dates it is the same.
- A date is an integer day ordinal.
- A close cell is either a number or a value numeric coercion turns into NaN. Text that parses as a number counts as a number.
- ComputeLogReturns: requires positive numeric closes. With a zero or negative close, the source would produce infinite or NaN returns: a zero close gives −inf on its own day and +inf on the next, a negative one gives NaN, and the NaN rows are dropped.
- ComputeRollingMetrics: requires windowDays ≥ 2, because `std(ddof=1)` is undefined for a single value. Sizes are natural numbers, so negative window or test lengths are not represented.
- RiskMetrics.DailyRows: it is stated for any per-day row function. `ComputeRollingMetrics` instantiates it with the day-row function of the date-sorted input.
- NormalVaRBelowMean: requires the normal quantile at alpha_var to be non-positive, as it is for alpha_var ≤ 0.5. The model knows nothing else about `ppf`.
- KupiecPValueInUnit: holds only under `CdfLaws`, the assumption that the distribution function takes values in [0, 1].
- The per-day figures are exact reals, so the test suite's "all finite" check on the three loss columns (tests/test_risk_metrics.py:45-46) holds trivially and is not stated.
- The results table a caller assembles from `ComputeRollingMetrics` before calling the backtests is not modelled as a conversion. The backtests take their frame directly.
