/** The residual analysis of backend/residuals.py: the rows of one store
    and department, sorted by date; the naive forecast "last week's sales";
    the residuals against it; an 80/20 train/validation split; exponential
    smoothing of the training residuals; and a smoothed forecast of the
    validation residuals seeded with the last smoothed training value.
    Sales are exact reals and never missing; dates are day numbers. */
module Residuals {
  import opened JsValues

  /** One row of the sales frame. */
  datatype SalesRow = SalesRow(store: int, dept: int, date: int, weeklySales: real)

  /** One `{"date": ..., "value": ...}` entry of the report. */
  datatype Point = Point(date: int, value: real)

  /** The dictionary `get_residuals` returns. */
  datatype ResidualReport = ResidualReport(
    trainResiduals: seq<Point>,
    validResiduals: seq<Point>,
    smoothedTrain: seq<Point>,
    smoothedForecast: seq<Point>)

  /** `series.iloc[0]` of an empty series raises IndexError. */
  datatype SmoothingError = EmptySeries

  /** The default smoothing factor. */
  const DefaultAlpha: real := 0.2

  /** One smoothing step: `alpha * x + (1 - alpha) * prev`. */
  function Mix(alpha: real, x: real, prev: real): real {
    alpha * x + (1.0 - alpha) * prev
  }

  /** The smoothed series: the first value as it is, then each value mixed
      with the previous smoothed one. */
  function Smoothed(s: seq<real>, alpha: real): (r: seq<real>)
    requires |s| > 0
    ensures |r| == |s|
  {
    if |s| == 1 then [s[0]]
    else
      var prev := Smoothed(s[..|s| - 1], alpha);
      prev + [Mix(alpha, s[|s| - 1], prev[|prev| - 1])]
  }

  /** The recurrence the loop of `exponential_smoothing` runs. */
  predicate IsSmoothing(s: seq<real>, alpha: real, r: seq<real>) {
    && |r| == |s| && |s| > 0
    && r[0] == s[0]
    && forall n :: 1 <= n < |s| ==> r[n] == Mix(alpha, s[n], r[n - 1])
  }

  /** The smoothed series satisfies the recurrence ... */
  lemma {:induction false} SmoothedIsSmoothing(s: seq<real>, alpha: real)
    requires |s| > 0
    ensures IsSmoothing(s, alpha, Smoothed(s, alpha))
  {
    if |s| > 1 {
      var init := s[..|s| - 1];
      SmoothedIsSmoothing(init, alpha);
      var r := Smoothed(s, alpha);
      var prev := Smoothed(init, alpha);
      forall n | 1 <= n < |s| ensures r[n] == Mix(alpha, s[n], r[n - 1]) {
        if n < |s| - 1 {
          assert r[n] == prev[n] && r[n - 1] == prev[n - 1] && s[n] == init[n];
        }
      }
    }
  }

  /** ... and is the only series that does. */
  lemma SmoothingUnique(s: seq<real>, alpha: real, r: seq<real>)
    requires IsSmoothing(s, alpha, r)
    ensures r == Smoothed(s, alpha)
  {
    SmoothedIsSmoothing(s, alpha);
    var t := Smoothed(s, alpha);
    var n := 0;
    while n < |s|
      invariant 0 <= n <= |s|
      invariant forall k :: 0 <= k < n ==> r[k] == t[k]
    {
      if n > 0 {
        assert r[n] == Mix(alpha, s[n], r[n - 1]);
        assert t[n] == Mix(alpha, s[n], t[n - 1]);
      }
      n := n + 1;
    }
  }

  /** `exponential_smoothing(series, alpha)`: the loop appending one
      smoothed value per input value; an empty series is an error. */
  method ExponentialSmoothing(series: seq<real>, alpha: real) returns (result: Result<seq<real>, SmoothingError>)
    ensures result.Failure? <==> series == []
    ensures result.Success? ==> IsSmoothing(series, alpha, result.value)
  {
    if |series| == 0 {
      return Failure(EmptySeries);
    }
    var r := [series[0]];
    var n := 1;
    while n < |series|
      invariant 1 <= n <= |series|
      invariant |r| == n && r[0] == series[0]
      invariant forall k :: 1 <= k < n ==> r[k] == Mix(alpha, series[k], r[k - 1])
    {
      r := r + [Mix(alpha, series[n], r[n - 1])];
      n := n + 1;
    }
    result := Success(r);
  }

  /** A constant series is its own smoothing, for every alpha. */
  lemma SmoothedConstant(s: seq<real>, alpha: real, c: real)
    requires |s| > 0
    requires forall n :: 0 <= n < |s| ==> s[n] == c
    ensures forall n :: 0 <= n < |s| ==> Smoothed(s, alpha)[n] == c
  {
    SmoothedIsSmoothing(s, alpha);
    var r := Smoothed(s, alpha);
    var n := 0;
    while n < |s|
      invariant 0 <= n <= |s|
      invariant forall k :: 0 <= k < n ==> r[k] == c
    {
      if n > 0 {
        assert r[n] == Mix(alpha, s[n], r[n - 1]);
        MixSame(alpha, c);
      }
      n := n + 1;
    }
  }

  /** With 0 <= alpha <= 1 every smoothed value is a convex mix of inputs,
      so it stays within any bounds the inputs keep. */
  lemma SmoothedWithin(s: seq<real>, alpha: real, lo: real, hi: real)
    requires |s| > 0 && 0.0 <= alpha <= 1.0
    requires forall n :: 0 <= n < |s| ==> lo <= s[n] <= hi
    ensures forall n :: 0 <= n < |s| ==> lo <= Smoothed(s, alpha)[n] <= hi
  {
    SmoothedIsSmoothing(s, alpha);
    var r := Smoothed(s, alpha);
    var n := 0;
    while n < |s|
      invariant 0 <= n <= |s|
      invariant forall k :: 0 <= k < n ==> lo <= r[k] <= hi
    {
      if n > 0 {
        MixWithin(alpha, s[n], r[n - 1], lo, hi);
      }
      n := n + 1;
    }
  }

  /** With the default factor 0.2 of both `exponential_smoothing` and
      `get_residuals`, smoothing stays within the bounds of its input. */
  lemma DefaultSmoothingWithin(s: seq<real>, lo: real, hi: real)
    requires |s| > 0
    requires forall n :: 0 <= n < |s| ==> lo <= s[n] <= hi
    ensures forall n :: 0 <= n < |s| ==> lo <= Smoothed(s, DefaultAlpha)[n] <= hi
  {
    SmoothedWithin(s, DefaultAlpha, lo, hi);
  }

  lemma MixSame(alpha: real, c: real)
    ensures Mix(alpha, c, c) == c
  {
  }

  lemma MixWithin(alpha: real, x: real, y: real, lo: real, hi: real)
    requires 0.0 <= alpha <= 1.0 && lo <= x <= hi && lo <= y <= hi
    ensures lo <= Mix(alpha, x, y) <= hi
  {
    MulNonNegative(alpha, x - lo);
    MulNonNegative(1.0 - alpha, y - lo);
    MulNonNegative(alpha, hi - x);
    MulNonNegative(1.0 - alpha, hi - y);
    assert alpha * x + (1.0 - alpha) * y - lo == alpha * (x - lo) + (1.0 - alpha) * (y - lo);
    assert hi - (alpha * x + (1.0 - alpha) * y) == alpha * (hi - x) + (1.0 - alpha) * (hi - y);
  }

  lemma MulNonNegative(a: real, b: real)
    requires a >= 0.0 && b >= 0.0
    ensures a * b >= 0.0
  {
  }

  /** Appending one value appends one smoothed value. */
  lemma SmoothedSnoc(s: seq<real>, x: real, alpha: real)
    requires |s| > 0
    ensures var prev := Smoothed(s, alpha);
            Smoothed(s + [x], alpha) == prev + [Mix(alpha, x, prev[|prev| - 1])]
  {
    assert (s + [x])[..|s|] == s;
  }

  /** Smoothing a continuation seeded with the last smoothed value carries
      the smoothing of the whole series on. */
  lemma {:induction false} SmoothedContinues(a: seq<real>, b: seq<real>, alpha: real)
    requires |a| > 0
    ensures var head := Smoothed(a, alpha);
            Smoothed(a + b, alpha) == head + Smoothed([head[|head| - 1]] + b, alpha)[1..]
  {
    var head := Smoothed(a, alpha);
    var h := [head[|head| - 1]];
    if b == [] {
      assert a + b == a;
      assert h + b == h;
    } else {
      var init := b[..|b| - 1];
      SmoothedContinues(a, init, alpha);
      SmoothedContinuesStep(a, init, b[|b| - 1], alpha);
      assert init + [b[|b| - 1]] == b;
    }
  }

  /** One more value appended to the continuation keeps the two
      smoothings in step. */
  lemma SmoothedContinuesStep(a: seq<real>, init: seq<real>, x: real, alpha: real)
    requires |a| > 0
    requires var head := Smoothed(a, alpha);
             Smoothed(a + init, alpha) == head + Smoothed([head[|head| - 1]] + init, alpha)[1..]
    ensures var head := Smoothed(a, alpha);
            Smoothed(a + (init + [x]), alpha) == head + Smoothed([head[|head| - 1]] + (init + [x]), alpha)[1..]
  {
    var head := Smoothed(a, alpha);
    var h := [head[|head| - 1]];
    var prev := Smoothed(a + init, alpha);
    var tail := Smoothed(h + init, alpha);
    SmoothedIsSmoothing(h + init, alpha);
    LastOfShifted(head, tail, prev);
    var y := Mix(alpha, x, prev[|prev| - 1]);
    assert Smoothed(a + (init + [x]), alpha) == prev + [y] by {
      assert a + (init + [x]) == (a + init) + [x];
      SmoothedSnoc(a + init, x, alpha);
    }
    assert Smoothed(h + (init + [x]), alpha) == tail + [y] by {
      assert h + (init + [x]) == (h + init) + [x];
      SmoothedSnoc(h + init, x, alpha);
    }
    ShiftedSnoc(head, tail, prev, y);
  }

  /** Appending to both `prev` and `tail` keeps `prev` as `head` followed
      by `tail` without its first value. */
  lemma ShiftedSnoc(head: seq<real>, tail: seq<real>, prev: seq<real>, y: real)
    requires |tail| > 0 && prev == head + tail[1..]
    ensures prev + [y] == head + (tail + [y])[1..]
  {
    assert (tail + [y])[1..] == tail[1..] + [y];
  }

  /** When `prev` is `head` followed by all of `tail` but its first value,
      and that first value is `head`'s last, the two end alike. */
  lemma LastOfShifted(head: seq<real>, tail: seq<real>, prev: seq<real>)
    requires |head| > 0 && |tail| > 0 && tail[0] == head[|head| - 1]
    requires prev == head + tail[1..]
    ensures prev[|prev| - 1] == tail[|tail| - 1]
  {
    if |tail| > 1 {
      assert prev[|prev| - 1] == tail[1..][|tail| - 2];
    }
  }

  /** `df[(df["Store"] == store) & (df["Dept"] == dept)]`: the rows of the
      store and department, every one of them as often as in the frame. */
  function Filtered(df: seq<SalesRow>, store: int, dept: int): (r: seq<SalesRow>)
    ensures forall k :: 0 <= k < |r| ==> r[k].store == store && r[k].dept == dept
    ensures multiset(r) <= multiset(df)
    ensures forall x: SalesRow :: x.store == store && x.dept == dept ==> multiset(r)[x] == multiset(df)[x]
  {
    if df == [] then []
    else
      var init := Filtered(df[..|df| - 1], store, dept);
      var last := df[|df| - 1];
      assert df == df[..|df| - 1] + [last];
      if last.store == store && last.dept == dept then init + [last] else init
  }

  /** Inserts a row after every row of the same or an earlier date. */
  function Insert(x: SalesRow, sorted: seq<SalesRow>): (r: seq<SalesRow>)
    ensures multiset(r) == multiset(sorted) + multiset{x}
    ensures |r| == |sorted| + 1
  {
    if sorted == [] || x.date < sorted[0].date then [x] + sorted
    else
      assert sorted == [sorted[0]] + sorted[1..];
      [sorted[0]] + Insert(x, sorted[1..])
  }

  predicate SortedByDate(rows: seq<SalesRow>) {
    forall i, j :: 0 <= i < j < |rows| ==> rows[i].date <= rows[j].date
  }

  lemma {:induction false} InsertSorted(x: SalesRow, sorted: seq<SalesRow>)
    requires SortedByDate(sorted)
    ensures SortedByDate(Insert(x, sorted))
  {
    if sorted != [] && x.date >= sorted[0].date {
      var rest := sorted[1..];
      assert SortedByDate(rest) by {
        forall i, j | 0 <= i < j < |rest| ensures rest[i].date <= rest[j].date {
          assert rest[i] == sorted[i + 1] && rest[j] == sorted[j + 1];
        }
      }
      InsertSorted(x, rest);
      forall k | 0 <= k < |rest| ensures rest[k].date >= sorted[0].date {
        assert rest[k] == sorted[k + 1];
      }
      InsertAbove(x, rest, sorted[0].date);
      var t := Insert(x, rest);
      assert Insert(x, sorted) == [sorted[0]] + t;
    }
  }

  /** Rows no earlier than `lo`, with one more such row inserted, are
      still no earlier than `lo`. */
  lemma {:induction false} InsertAbove(x: SalesRow, sorted: seq<SalesRow>, lo: int)
    requires x.date >= lo
    requires forall k :: 0 <= k < |sorted| ==> sorted[k].date >= lo
    ensures forall k :: 0 <= k < |Insert(x, sorted)| ==> Insert(x, sorted)[k].date >= lo
  {
    if sorted != [] && x.date >= sorted[0].date {
      InsertAbove(x, sorted[1..], lo);
      var t := Insert(x, sorted[1..]);
      assert Insert(x, sorted) == [sorted[0]] + t;
      forall k | 0 <= k < |Insert(x, sorted)| ensures Insert(x, sorted)[k].date >= lo {
        if k > 0 { assert Insert(x, sorted)[k] == t[k - 1]; }
      }
    } else {
      forall k | 0 <= k < |Insert(x, sorted)| ensures Insert(x, sorted)[k].date >= lo {
        if k > 0 { assert Insert(x, sorted)[k] == sorted[k - 1]; }
      }
    }
  }

  /** `df.sort_values("Date")`, as a stable insertion sort. */
  function SortByDate(rows: seq<SalesRow>): (r: seq<SalesRow>)
    ensures multiset(r) == multiset(rows)
    ensures |r| == |rows|
  {
    if rows == [] then []
    else
      assert rows == rows[..|rows| - 1] + [rows[|rows| - 1]];
      Insert(rows[|rows| - 1], SortByDate(rows[..|rows| - 1]))
  }

  lemma {:induction false} SortByDateSorted(rows: seq<SalesRow>)
    ensures SortedByDate(SortByDate(rows))
  {
    if rows != [] {
      SortByDateSorted(rows[..|rows| - 1]);
      InsertSorted(rows[|rows| - 1], SortByDate(rows[..|rows| - 1]));
    }
  }

  /** `groupby(...).shift(1).ffill().fillna(0)` on one group with no missing
      sales: 0 for the first week, the previous week's sales after that. */
  function Lagged(sales: seq<real>): (predicted: seq<real>)
    ensures |predicted| == |sales|
    ensures |sales| > 0 ==> predicted[0] == 0.0
    ensures forall i :: 1 <= i < |sales| ==> predicted[i] == sales[i - 1]
  {
    if sales == [] then [] else [0.0] + sales[..|sales| - 1]
  }

  /** `df["Weekly_Sales"] - df["Predicted"]` */
  function ResidualValues(sales: seq<real>): (r: seq<real>)
    ensures |r| == |sales|
  {
    var predicted := Lagged(sales);
    seq(|sales|, i requires 0 <= i < |sales| => sales[i] - predicted[i])
  }

  function SalesOf(rows: seq<SalesRow>): (r: seq<real>)
    ensures |r| == |rows|
  {
    seq(|rows|, i requires 0 <= i < |rows| => rows[i].weeklySales)
  }

  /** `int(len(df) * 0.8)`: 0.8 as a double lies just above 4/5, so the
      product never falls below an integer it should reach. */
  function SplitIndex(n: nat): (split: nat)
    ensures split <= n
    ensures n > 0 ==> split < n
    ensures split == 0 <==> n < 2
  {
    (4 * n) / 5
  }

  /** `zip(dates, values)`: stops at the shorter input. */
  function Points(rows: seq<SalesRow>, values: seq<real>): (r: seq<Point>)
    ensures |r| == if |rows| <= |values| then |rows| else |values|
  {
    var n := if |rows| <= |values| then |rows| else |values|;
    seq(n, i requires 0 <= i < n => Point(rows[i].date, values[i]))
  }

  function Sum(s: seq<real>): real {
    if s == [] then 0.0 else Sum(s[..|s| - 1]) + s[|s| - 1]
  }

  /** `get_residuals(df, store, dept, alpha)`: fewer than two rows leave the
      training part empty, and smoothing it fails; two or more always give
      a report. */
  function GetResiduals(df: seq<SalesRow>, store: int, dept: int, alpha: real): (r: Result<ResidualReport, SmoothingError>)
    ensures r.Failure? <==> |Filtered(df, store, dept)| < 2
    ensures r.Failure? ==> r.error == EmptySeries
  {
    var rows := Frame(df, store, dept);
    if SplitIndex(|rows|) == 0 then Failure(EmptySeries) else Success(Report(rows, alpha))
  }

  /** The frame the report is built from. */
  function Frame(df: seq<SalesRow>, store: int, dept: int): (rows: seq<SalesRow>)
    ensures |rows| == |Filtered(df, store, dept)|
  {
    SortByDate(Filtered(df, store, dept))
  }

  /** The report over a sorted frame whose training part is not empty: the
      training series cover the first floor(4n/5) rows, the validation
      series the rest. */
  function Report(rows: seq<SalesRow>, alpha: real): (report: ResidualReport)
    requires SplitIndex(|rows|) > 0
    ensures |report.trainResiduals| == |report.smoothedTrain| == SplitIndex(|rows|)
    ensures |report.validResiduals| == |report.smoothedForecast| == |rows| - SplitIndex(|rows|)
  {
    var residual := ResidualValues(SalesOf(rows));
    var split := SplitIndex(|rows|);
    var smoothedTrain := Smoothed(residual[..split], alpha);
    var lastSmoothed := smoothedTrain[split - 1];
    var smoothedForecast := Smoothed([lastSmoothed] + residual[split..], alpha)[1..];
    ResidualReport(
      Points(rows[..split], residual[..split]),
      Points(rows[split..], residual[split..]),
      Points(rows[..split], smoothedTrain),
      Points(rows[split..], smoothedForecast))
  }

  /** The report's rows are the store's and department's rows, each once,
      in date order. */
  lemma FrameSorted(df: seq<SalesRow>, store: int, dept: int)
    ensures var rows := Frame(df, store, dept);
            && SortedByDate(rows)
            && multiset(rows) == multiset(Filtered(df, store, dept))
            && (forall k :: 0 <= k < |rows| ==> rows[k].store == store && rows[k].dept == dept)
            && forall x: SalesRow :: x.store == store && x.dept == dept ==> multiset(rows)[x] == multiset(df)[x]
  {
    var rows := Frame(df, store, dept);
    var f := Filtered(df, store, dept);
    SortByDateSorted(f);
    forall k | 0 <= k < |rows| ensures rows[k].store == store && rows[k].dept == dept {
      assert rows[k] in multiset(f);
    }
  }

  /** Splitting the rows and values at the same place splits the points. */
  lemma PointsSplit(rows: seq<SalesRow>, values: seq<real>, k: nat)
    requires |rows| == |values| && k <= |rows|
    ensures Points(rows[..k], values[..k]) + Points(rows[k..], values[k..]) == Points(rows, values)
  {
    var left := Points(rows[..k], values[..k]);
    var right := Points(rows[k..], values[k..]);
    var all := Points(rows, values);
    forall i | 0 <= i < |all| ensures (left + right)[i] == all[i] {
      if i >= k {
        assert right[i - k] == Point(rows[i].date, values[i]);
      }
    }
  }

  /** The split: the first floor(4n/5) rows train, the rest validate, both
      non-empty, and together they are the whole frame in order; the
      smoothed series are as long as the parts they smooth. */
  lemma ReportShape(rows: seq<SalesRow>, alpha: real)
    requires |rows| >= 2
    ensures var split := SplitIndex(|rows|);
            var report := Report(rows, alpha);
            && 1 <= split < |rows|
            && |report.trainResiduals| == split
            && |report.validResiduals| == |rows| - split
            && |report.smoothedTrain| == split
            && |report.smoothedForecast| == |rows| - split
            && report.trainResiduals + report.validResiduals
               == Points(rows, ResidualValues(SalesOf(rows)))
  {
    var residual := ResidualValues(SalesOf(rows));
    var split := SplitIndex(|rows|);
    ReportValues(rows, alpha);
    PointsSplit(rows, residual, split);
  }

  function Values(points: seq<Point>): (r: seq<real>)
    ensures |r| == |points|
  {
    seq(|points|, i requires 0 <= i < |points| => points[i].value)
  }

  /** The values the report's four series carry. */
  lemma ReportValues(rows: seq<SalesRow>, alpha: real)
    requires |rows| >= 2
    ensures var residual := ResidualValues(SalesOf(rows));
            var split := SplitIndex(|rows|);
            var report := Report(rows, alpha);
            var head := Smoothed(residual[..split], alpha);
            && report.trainResiduals == Points(rows[..split], residual[..split])
            && report.validResiduals == Points(rows[split..], residual[split..])
            && Values(report.trainResiduals) == residual[..split]
            && Values(report.validResiduals) == residual[split..]
            && Values(report.smoothedTrain) == head
            && Values(report.smoothedForecast) == Smoothed([head[split - 1]] + residual[split..], alpha)[1..]
  {
  }

  /** The smoothed forecast continues the smoothed training series: the two
      together are the smoothing of all residuals ... */
  lemma ForecastContinuesTraining(rows: seq<SalesRow>, alpha: real)
    requires |rows| >= 2
    ensures var report := Report(rows, alpha);
            Values(report.smoothedTrain) + Values(report.smoothedForecast)
            == Smoothed(ResidualValues(SalesOf(rows)), alpha)
  {
    var residual := ResidualValues(SalesOf(rows));
    var split := SplitIndex(|rows|);
    ReportValues(rows, alpha);
    SplitContinues(residual, split, alpha);
  }

  /** Smoothing a prefix, then the rest re-seeded with the prefix's last
      smoothed value, smooths the whole series. */
  lemma SplitContinues(s: seq<real>, split: nat, alpha: real)
    requires 0 < split <= |s|
    ensures var head := Smoothed(s[..split], alpha);
            head + Smoothed([head[split - 1]] + s[split..], alpha)[1..] == Smoothed(s, alpha)
  {
    SmoothedContinues(s[..split], s[split..], alpha);
    assert s[..split] + s[split..] == s;
  }

  /** ... so the first forecast value mixes the first validation residual
      with the last smoothed training value. */
  lemma FirstForecast(rows: seq<SalesRow>, alpha: real)
    requires |rows| >= 2
    ensures var report := Report(rows, alpha);
            var train := Values(report.smoothedTrain);
            var forecast := Values(report.smoothedForecast);
            && |train| > 0 && |forecast| > 0
            && forecast[0] == Mix(alpha, Values(report.validResiduals)[0], train[|train| - 1])
  {
    var residual := ResidualValues(SalesOf(rows));
    var split := SplitIndex(|rows|);
    var head := Smoothed(residual[..split], alpha);
    var seeded := [head[split - 1]] + residual[split..];
    ReportValues(rows, alpha);
    SmoothedIsSmoothing(seeded, alpha);
    var tail := Smoothed(seeded, alpha);
    assert tail[1] == Mix(alpha, seeded[1], tail[0]);
    var report := Report(rows, alpha);
    var train := Values(report.smoothedTrain);
    var forecast := Values(report.smoothedForecast);
    assert forecast[0] == tail[1];
    assert train[|train| - 1] == tail[0];
    assert Values(report.validResiduals)[0] == seeded[1];
  }

  /** With the naive forecast, the first residual is the first week's
      sales and every later one the change from the week before. */
  lemma ResidualIsWeekChange(sales: seq<real>)
    requires |sales| > 0
    ensures ResidualValues(sales)[0] == sales[0]
    ensures forall i :: 1 <= i < |sales| ==> ResidualValues(sales)[i] == sales[i] - sales[i - 1]
  {
  }

  /** The residuals telescope: they add up to the last week's sales. */
  lemma {:induction false} ResidualsTelescope(sales: seq<real>)
    requires |sales| > 0
    ensures Sum(ResidualValues(sales)) == sales[|sales| - 1]
  {
    var r := ResidualValues(sales);
    if |sales| > 1 {
      var init := sales[..|sales| - 1];
      ResidualsTelescope(init);
      assert r[..|r| - 1] == ResidualValues(init);
      assert r[|r| - 1] == sales[|sales| - 1] - sales[|sales| - 2];
    }
  }
}
