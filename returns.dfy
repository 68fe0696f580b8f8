/** Building the log-return series from a table of dated closing prices
    (`compute_log_returns`). */
module ReturnSeries {
  import opened Numbers
  import opened Stats

  /** A closing-price cell as found in the input table: a number, or
      something numeric coercion turns into a missing value (text that is
      not a number, an empty cell, NaN). */
  datatype Cell = Number(x: real) | NotNumber

  /** One input row; dates are day ordinals. */
  datatype PriceRow = PriceRow(date: int, close: Cell)

  /** The input table: its column names, in order, and its rows. */
  datatype PriceTable = PriceTable(columns: seq<string>, rows: seq<PriceRow>)

  /** A cleaned price: the close is a number. */
  datatype Price = Price(date: int, close: real)

  /** One output row, with the columns date, close, r, loss in that order. */
  datatype ReturnRow = ReturnRow(date: int, close: real, r: real, loss: real)

  /** ValueError raised when required columns are absent: the missing ones
      and the columns that are present. */
  datatype DataError = MissingColumns(missing: set<string>, columns: seq<string>)

  const RequiredColumns: set<string> := {"date", "close"}

  /** The required columns absent from the table. */
  function MissingFrom(columns: seq<string>): (missing: set<string>)
    ensures forall c :: c in missing <==> c in RequiredColumns && c !in columns
  {
    set c | c in RequiredColumns && c !in columns
  }

  /** Closes are positive wherever they are numeric. */
  predicate PositiveCloses(table: PriceTable) {
    forall row :: row in table.rows && row.close.Number? ==> 0.0 < row.close.x
  }

  function DateKey(row: PriceRow): real {
    row.date as real
  }

  /** Rows with a numeric close, in their original order. */
  function NumericPrices(rows: seq<PriceRow>): (ps: seq<Price>)
    ensures |ps| <= |rows|
  {
    if rows == [] then []
    else
      var rest := NumericPrices(rows[1..]);
      match rows[0].close
      case Number(x) => [Price(rows[0].date, x)] + rest
      case NotNumber => rest
  }

  /** The kept prices are exactly the rows with a numeric close. */
  lemma {:induction false} NumericPricesFromRows(rows: seq<PriceRow>)
    ensures forall k :: 0 <= k < |NumericPrices(rows)| ==>
      PriceRow(NumericPrices(rows)[k].date, Number(NumericPrices(rows)[k].close)) in rows
    ensures forall row :: row in rows && row.close.Number? ==> Price(row.date, row.close.x) in NumericPrices(rows)
  {
    if rows != [] {
      NumericPricesFromRows(rows[1..]);
      var ps := NumericPrices(rows);
      var rest := NumericPrices(rows[1..]);
      var skip := if rows[0].close.Number? then 1 else 0;
      assert ps[skip..] == rest;
      forall k | 0 <= k < |ps| ensures PriceRow(ps[k].date, Number(ps[k].close)) in rows {
        if k < skip {
          assert ps[k] == Price(rows[0].date, rows[0].close.x);
        } else {
          var j := k - skip;
          assert ps[k] == rest[j];
          assert PriceRow(rest[j].date, Number(rest[j].close)) in rows[1..];
        }
      }
      forall row | row in rows && row.close.Number? ensures Price(row.date, row.close.x) in ps {
        if row == rows[0] {
          assert ps[0] == Price(row.date, row.close.x);
        } else {
          assert row in rows[1..];
          assert Price(row.date, row.close.x) in ps[skip..];
        }
      }
    }
  }

  /** Each price is kept exactly as often as the table has the row with
      that date and that numeric close. */
  lemma {:induction false} NumericPricesCounts(rows: seq<PriceRow>)
    ensures forall p :: multiset(NumericPrices(rows))[p] == multiset(rows)[PriceRow(p.date, Number(p.close))]
  {
    if rows != [] {
      NumericPricesCounts(rows[1..]);
      assert rows == [rows[0]] + rows[1..];
    }
  }

  /** Dropping rows keeps the dates in ascending order. */
  lemma {:induction false} NumericPricesKeepOrder(rows: seq<PriceRow>)
    requires SortedBy(rows, DateKey)
    ensures forall i, j :: 0 <= i < j < |NumericPrices(rows)| ==>
      NumericPrices(rows)[i].date <= NumericPrices(rows)[j].date
  {
    if rows != [] {
      NumericPricesKeepOrder(rows[1..]);
      NumericPricesFromRows(rows[1..]);
      var ps := NumericPrices(rows);
      var rest := NumericPrices(rows[1..]);
      forall k | 0 <= k < |rest| ensures rows[0].date <= rest[k].date {
        var row := PriceRow(rest[k].date, Number(rest[k].close));
        assert row in rows[1..];
        var m :| 0 <= m < |rows[1..]| && rows[1..][m] == row;
        assert DateKey(rows[0]) <= DateKey(rows[m + 1]);
      }
    }
  }

  /** Consecutive log returns: one row per pair of neighbouring prices, so
      a series of fewer than two prices has no returns. What each row holds
      is stated by LogReturnsAt. */
  function LogReturns(ps: seq<Price>, log: real -> real): (out: seq<ReturnRow>)
    requires forall k :: 0 <= k < |ps| ==> 0.0 < ps[k].close
    ensures |out| == if |ps| < 2 then 0 else |ps| - 1
  {
    if |ps| < 2 then []
    else
      var r := log(ps[1].close / ps[0].close);
      [ReturnRow(ps[1].date, ps[1].close, r, -r)] + LogReturns(ps[1..], log)
  }

  /** Row k is the later price of the pair (k, k+1), with
      r = log(close[k+1] / close[k]) and loss = -r. */
  lemma {:induction false} LogReturnsAt(ps: seq<Price>, log: real -> real)
    requires forall k :: 0 <= k < |ps| ==> 0.0 < ps[k].close
    ensures forall k :: 0 <= k < |LogReturns(ps, log)| ==>
      LogReturns(ps, log)[k].date == ps[k + 1].date &&
      LogReturns(ps, log)[k].close == ps[k + 1].close &&
      LogReturns(ps, log)[k].r == log(ps[k + 1].close / ps[k].close) &&
      LogReturns(ps, log)[k].loss == -LogReturns(ps, log)[k].r
  {
    if |ps| >= 2 {
      LogReturnsAt(ps[1..], log);
      var out := LogReturns(ps, log);
      var rest := LogReturns(ps[1..], log);
      forall k | 1 <= k < |out|
        ensures out[k].date == ps[k + 1].date && out[k].close == ps[k + 1].close &&
          out[k].r == log(ps[k + 1].close / ps[k].close) && out[k].loss == -out[k].r
      {
        assert out[k] == rest[k - 1];
        assert ps[1..][k - 1] == ps[k] && ps[1..][k] == ps[k + 1];
      }
    }
  }

  /** The cleaned price series: rows sorted by date, non-numeric closes dropped. */
  function CleanPrices(table: PriceTable): (ps: seq<Price>)
    requires PositiveCloses(table)
    ensures forall k :: 0 <= k < |ps| ==> 0.0 < ps[k].close
    ensures forall i, j :: 0 <= i < j < |ps| ==> ps[i].date <= ps[j].date
  {
    var sorted := SortBy(table.rows, DateKey);
    SortBySorted(table.rows, DateKey);
    SortByPermutes(table.rows, DateKey);
    NumericPricesKeepOrder(sorted);
    NumericPricesFromRows(sorted);
    assert forall row :: row in sorted ==> row in table.rows by {
      assert forall row :: row in sorted ==> row in multiset(table.rows);
    }
    NumericPrices(sorted)
  }

  /** The cleaned prices are exactly the rows with a numeric close: each
      comes from such a row, each such row is kept, and each is kept as
      often as it occurs, so there are as many prices as numeric rows. */
  lemma CleanPricesKeepNumeric(table: PriceTable)
    requires PositiveCloses(table)
    ensures var ps := CleanPrices(table);
      (forall k :: 0 <= k < |ps| ==> PriceRow(ps[k].date, Number(ps[k].close)) in table.rows) &&
      (forall row :: row in table.rows && row.close.Number? ==> Price(row.date, row.close.x) in ps)
    ensures multiset(CleanPrices(table)) == multiset(NumericPrices(table.rows))
    ensures |CleanPrices(table)| == |NumericPrices(table.rows)|
  {
    var sorted := SortBy(table.rows, DateKey);
    SortByPermutes(table.rows, DateKey);
    NumericPricesFromRows(sorted);
    NumericPricesCounts(sorted);
    NumericPricesCounts(table.rows);
    assert multiset(CleanPrices(table)) == multiset(NumericPrices(table.rows));
    assert |multiset(CleanPrices(table))| == |multiset(NumericPrices(table.rows))|;
    assert forall row :: row in table.rows <==> row in sorted by {
      assert forall row :: row in table.rows <==> row in multiset(sorted);
    }
  }

  /** `compute_log_returns`: check the required columns, sort by date, drop
      non-numeric closes and difference consecutive log prices.
      The natural logarithm is the parameter `log`. */
  function ComputeLogReturns(table: PriceTable, log: real -> real): (res: Result<seq<ReturnRow>, DataError>)
    requires PositiveCloses(table)
    ensures res.Err? <==> ("date" !in table.columns || "close" !in table.columns)
    ensures res.Err? ==> res.error == MissingColumns(MissingFrom(table.columns), table.columns)
    ensures res.Ok? ==> res.value == LogReturns(CleanPrices(table), log)
  {
    var missing := MissingFrom(table.columns);
    if missing != {} then Err(MissingColumns(missing, table.columns))
    else Ok(LogReturns(CleanPrices(table), log))
  }

  /** The returned series is in ascending date order. */
  lemma ReturnsAscend(table: PriceTable, log: real -> real)
    requires PositiveCloses(table)
    ensures ComputeLogReturns(table, log).Ok? ==>
      var out := ComputeLogReturns(table, log).value;
      forall i, j :: 0 <= i < j < |out| ==> out[i].date <= out[j].date
  {
    var res := ComputeLogReturns(table, log);
    if res.Ok? {
      var ps := CleanPrices(table);
      var out := res.value;
      LogReturnsAt(ps, log);
      forall i, j | 0 <= i < j < |out| ensures out[i].date <= out[j].date {
        assert out[i].date == ps[i + 1].date && out[j].date == ps[j + 1].date;
      }
    }
  }

  /** A table already in date order with only numeric closes is cleaned
      to its own rows, so its returns pair each row with the next. */
  lemma ReturnsOfCleanTable(table: PriceTable, log: real -> real)
    requires "date" in table.columns && "close" in table.columns
    requires PositiveCloses(table) && SortedBy(table.rows, DateKey)
    requires forall k :: 0 <= k < |table.rows| ==> table.rows[k].close.Number?
    ensures ComputeLogReturns(table, log).Ok?
    ensures |ComputeLogReturns(table, log).value| == if |table.rows| < 2 then 0 else |table.rows| - 1
    ensures forall k :: 0 <= k < |ComputeLogReturns(table, log).value| ==>
      ComputeLogReturns(table, log).value[k] ==
        ReturnRow(table.rows[k + 1].date, table.rows[k + 1].close.x,
                  log(table.rows[k + 1].close.x / table.rows[k].close.x),
                  -log(table.rows[k + 1].close.x / table.rows[k].close.x))
  {
    var rows := table.rows;
    CleanPricesOfCleanTable(table);
    var ps := AsPrices(rows);
    LogReturnsAt(ps, log);
    var res := ComputeLogReturns(table, log);
    assert res == Ok(LogReturns(ps, log));
    forall k | 0 <= k < |res.value|
      ensures res.value[k] == ReturnRow(rows[k + 1].date, rows[k + 1].close.x,
                                        log(rows[k + 1].close.x / rows[k].close.x),
                                        -log(rows[k + 1].close.x / rows[k].close.x))
    {
      assert res.value[k].r == log(ps[k + 1].close / ps[k].close);
    }
  }

  /** Cleaning a sorted, all-numeric table only converts its rows. */
  lemma CleanPricesOfCleanTable(table: PriceTable)
    requires PositiveCloses(table) && SortedBy(table.rows, DateKey)
    requires forall k :: 0 <= k < |table.rows| ==> table.rows[k].close.Number?
    ensures CleanPrices(table) == AsPrices(table.rows)
  {
    SortByKeepsSorted(table.rows, DateKey);
    NumericPricesOfNumeric(table.rows);
  }

  function AsPrices(rows: seq<PriceRow>): (ps: seq<Price>)
    requires forall k :: 0 <= k < |rows| ==> rows[k].close.Number?
    ensures |ps| == |rows|
  {
    seq(|rows|, k requires 0 <= k < |rows| => Price(rows[k].date, rows[k].close.x))
  }

  lemma {:induction false} NumericPricesOfNumeric(rows: seq<PriceRow>)
    requires forall k :: 0 <= k < |rows| ==> rows[k].close.Number?
    ensures NumericPrices(rows) == AsPrices(rows)
  {
    if rows != [] {
      NumericPricesOfNumeric(rows[1..]);
      assert AsPrices(rows) == [Price(rows[0].date, rows[0].close.x)] + AsPrices(rows[1..]);
    }
  }

  /** Three numeric closes on increasing dates, as in the test with closes
      100, 101, 102, give two rows: the returns log(c2/c1) and log(c3/c2)
      on the second and third dates, and losses their negations. */
  lemma ComputeLogReturnsOfThree(columns: seq<string>, d1: int, d2: int, d3: int,
                                 c1: real, c2: real, c3: real, log: real -> real)
    requires "date" in columns && "close" in columns
    requires d1 < d2 < d3 && 0.0 < c1 && 0.0 < c2 && 0.0 < c3
    ensures var table := PriceTable(columns, [PriceRow(d1, Number(c1)), PriceRow(d2, Number(c2)), PriceRow(d3, Number(c3))]);
      var res := ComputeLogReturns(table, log);
      res.Ok? && |res.value| == 2 &&
      res.value[0].date == d2 && res.value[0].close == c2 &&
      res.value[0].r == log(c2 / c1) && res.value[0].loss == -log(c2 / c1) &&
      res.value[1].date == d3 && res.value[1].close == c3 &&
      res.value[1].r == log(c3 / c2) && res.value[1].loss == -log(c3 / c2)
  {
    var rows := [PriceRow(d1, Number(c1)), PriceRow(d2, Number(c2)), PriceRow(d3, Number(c3))];
    var table := PriceTable(columns, rows);
    ReturnsOfCleanTable(table, log);
    assert rows[0].close.x == c1 && rows[1].close.x == c2 && rows[2].close.x == c3;
    var out := ComputeLogReturns(table, log).value;
    assert out[0] == ReturnRow(d2, c2, log(c2 / c1), -log(c2 / c1));
    assert out[1] == ReturnRow(d3, c3, log(c3 / c2), -log(c3 / c2));
  }
}
