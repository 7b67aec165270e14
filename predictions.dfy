/** The client-side mock forecaster of src/utils/predictions.ts: weekly
    totals of the uploaded records, sorted by date and cut to 52 weeks,
    each labelled `W1`, `W2`, ... with its rounded actual value; and the
    mean absolute error of `calculateMetrics`. The random, seasonal and
    trend terms of the predicted value are one arbitrary perturbation per
    week, given as a parameter. */
module Predictions {
  import opened JsValues
  import opened JsStrings
  import opened FileUpload

  /** One object of the array `generatePredictions` returns. */
  datatype WeekPrediction = WeekPrediction(week: string, date: string, actual: int, predicted: int, error: int)

  /** The number of weeks kept: `.slice(0, 52)`. */
  const MaxWeeks: nat := 52

  /** `record.Date || ''` */
  function DateOf(r: Record): string {
    if "Date" in r && r["Date"].Some? then r["Date"].value else ""
  }

  /** `parseFloat(record.Weekly_Sales || '0')`; the parser of non-empty text
      is a parameter, and the literal '0' reads as zero. */
  function SalesOf(r: Record, parseFloat: string -> JsNumber): JsNumber {
    if "Weekly_Sales" in r && r["Weekly_Sales"].Some? && r["Weekly_Sales"].value != "" then
      parseFloat(r["Weekly_Sales"].value)
    else Num(0.0)
  }

  /** `if (date && sales)`: a non-empty date and a number that is neither
      0 nor NaN. */
  predicate Counts(r: Record, parseFloat: string -> JsNumber) {
    DateOf(r) != "" && SalesOf(r, parseFloat).Num? && SalesOf(r, parseFloat).v != 0.0
  }

  /** The dates of the records that count. */
  function ContributingDates(data: seq<Record>, parseFloat: string -> JsNumber): set<string> {
    set k | 0 <= k < |data| && Counts(data[k], parseFloat) :: DateOf(data[k])
  }

  /** The sales of the records that count and carry the given date; no
      record counts without a date, so the empty date totals 0. */
  function SalesOn(data: seq<Record>, date: string, parseFloat: string -> JsNumber): (total: real)
    ensures date == "" ==> total == 0.0
  {
    if data == [] then 0.0
    else
      var r := data[|data| - 1];
      SalesOn(data[..|data| - 1], date, parseFloat)
        + (if Counts(r, parseFloat) && DateOf(r) == date then SalesOf(r, parseFloat).v else 0.0)
  }

  /** `weeklyData` after the records of `data`: one key per contributing
      date, holding that date's total. */
  predicate Aggregates(data: seq<Record>, weeklyData: map<string, real>, parseFloat: string -> JsNumber) {
    && weeklyData.Keys == ContributingDates(data, parseFloat)
    && forall date :: date in weeklyData ==> weeklyData[date] == SalesOn(data, date, parseFloat)
  }

  /** One turn of the `forEach`: a record that counts adds its sales to its
      date's entry, starting from 0 for a new date; any other record
      changes nothing. */
  lemma AggregateStep(before: seq<Record>, r: Record, weeklyData: map<string, real>, next: map<string, real>,
                      parseFloat: string -> JsNumber)
    requires Aggregates(before, weeklyData, parseFloat)
    requires Counts(r, parseFloat) ==>
               next == weeklyData[DateOf(r) := (if DateOf(r) in weeklyData then weeklyData[DateOf(r)] else 0.0)
                                               + SalesOf(r, parseFloat).v]
    requires !Counts(r, parseFloat) ==> next == weeklyData
    ensures Aggregates(before + [r], next, parseFloat)
  {
    var after := before + [r];
    assert after[..|after| - 1] == before && after[|after| - 1] == r;
    ContributingDatesSnoc(before, r, parseFloat);
    if Counts(r, parseFloat) && DateOf(r) !in weeklyData {
      SalesOnAbsent(before, DateOf(r), parseFloat);
    }
    forall date | date in next ensures next[date] == SalesOn(after, date, parseFloat) {
      assert SalesOn(after, date, parseFloat) == SalesOn(before, date, parseFloat)
        + (if Counts(r, parseFloat) && DateOf(r) == date then SalesOf(r, parseFloat).v else 0.0);
    }
  }

  /** The `forEach` loop that fills the `weeklyData` map: one key per
      contributing date, holding that date's total. */
  method AggregateWeekly(data: seq<Record>, parseFloat: string -> JsNumber) returns (weeklyData: map<string, real>)
    ensures weeklyData.Keys == ContributingDates(data, parseFloat)
    ensures forall date :: date in weeklyData ==> weeklyData[date] == SalesOn(data, date, parseFloat)
  {
    weeklyData := map[];
    var i := 0;
    while i < |data|
      invariant 0 <= i <= |data|
      invariant Aggregates(data[..i], weeklyData, parseFloat)
    {
      var record := data[i];
      var date := DateOf(record);
      var sales := SalesOf(record, parseFloat);
      ghost var previous := weeklyData;
      if date != "" && sales.Num? && sales.v != 0.0 {
        var existing := if date in weeklyData then weeklyData[date] else 0.0;
        weeklyData := weeklyData[date := existing + sales.v];
      }
      AggregateStep(data[..i], record, previous, weeklyData, parseFloat);
      assert data[..i + 1] == data[..i] + [record];
      i := i + 1;
    }
    assert data[..|data|] == data;
  }

  lemma ContributingDatesSnoc(data: seq<Record>, r: Record, parseFloat: string -> JsNumber)
    ensures ContributingDates(data + [r], parseFloat)
            == ContributingDates(data, parseFloat) + (if Counts(r, parseFloat) then {DateOf(r)} else {})
  {
    var s := data + [r];
    assert forall k :: 0 <= k < |data| ==> s[k] == data[k];
    assert s[|data|] == r;
  }

  /** A date with no contributing record has total 0. */
  lemma {:induction false} SalesOnAbsent(data: seq<Record>, date: string, parseFloat: string -> JsNumber)
    requires date !in ContributingDates(data, parseFloat)
    ensures SalesOn(data, date, parseFloat) == 0.0
  {
    if data != [] {
      var init := data[..|data| - 1];
      assert data == init + [data[|data| - 1]];
      ContributingDatesSnoc(init, data[|data| - 1], parseFloat);
      SalesOnAbsent(init, date, parseFloat);
    }
  }

  /** m is the least element of s in code-point order. */
  predicate IsLeast(m: string, s: set<string>) {
    m in s && forall x :: x in s && x != m ==> LexLess(m, x)
  }

  lemma {:induction false} LeastExists(s: set<string>)
    requires s != {}
    ensures exists m :: IsLeast(m, s)
    decreases |s|
  {
    var x :| x in s;
    if s != {x} {
      LeastExists(s - {x});
      var m :| IsLeast(m, s - {x});
      LexLessTotal(x, m);
      if LexLess(x, m) {
        forall y | y in s && y != x ensures LexLess(x, y) {
          if y != m { LexLessTransitive(x, m, y); }
        }
        assert IsLeast(x, s);
      } else {
        assert IsLeast(m, s);
      }
    }
  }

  lemma LeastUnique(s: set<string>)
    ensures forall a, b :: IsLeast(a, s) && IsLeast(b, s) ==> a == b
  {
    forall a, b | IsLeast(a, s) && IsLeast(b, s) ensures a == b {
      if a != b { LexLessAsymmetric(a, b); }
    }
  }

  /** The least date of a non-empty set in code-point order. */
  function Least(s: set<string>): (m: string)
    requires s != {}
    ensures IsLeast(m, s)
  {
    LeastExists(s);
    LeastUnique(s);
    var m :| IsLeast(m, s);
    m
  }

  /** The dates sorted by `a.date.localeCompare(b.date)`, modelled as
      code-point order: every date once, strictly ascending. */
  function SortedDates(s: set<string>): (r: seq<string>)
    ensures |r| == |s|
    ensures forall i :: 0 <= i < |r| ==> r[i] in s
    ensures forall d :: d in s ==> d in r
    ensures forall i, j :: 0 <= i < j < |r| ==> LexLess(r[i], r[j])
    decreases |s|
  {
    if s == {} then []
    else
      var m := Least(s);
      [m] + SortedDates(s - {m})
  }

  /** The sorted dates, `.slice(0, 52)`: at most 52 of them. */
  function FirstWeeks(dates: set<string>): (weeks: seq<string>)
    ensures |weeks| <= MaxWeeks
  {
    var sorted := SortedDates(dates);
    if |sorted| <= MaxWeeks then sorted else sorted[..MaxWeeks]
  }

  /** The first weeks are the (at most 52) smallest dates, in ascending order. */
  lemma FirstWeeksSmallest(dates: set<string>)
    ensures var w := FirstWeeks(dates);
            && |w| == (if |dates| <= MaxWeeks then |dates| else MaxWeeks)
            && (forall i, j :: 0 <= i < j < |w| ==> LexLess(w[i], w[j]))
            && (forall i :: 0 <= i < |w| ==> w[i] in dates)
            && (forall d :: d in dates && d !in w ==> forall i :: 0 <= i < |w| ==> LexLess(w[i], d))
  {
    var w := FirstWeeks(dates);
    var sorted := SortedDates(dates);
    forall d | d in dates && d !in w
      ensures forall i :: 0 <= i < |w| ==> LexLess(w[i], d)
    {
      var j :| 0 <= j < |sorted| && sorted[j] == d;
      assert j >= |w|;
      forall i | 0 <= i < |w| ensures LexLess(w[i], d) {
        assert w[i] == sorted[i];
      }
    }
  }

  /** The dates that get an entry. */
  function Weeks(data: seq<Record>, parseFloat: string -> JsNumber): seq<string> {
    FirstWeeks(ContributingDates(data, parseFloat))
  }

  /** `` `W${index + 1}` ``: a `W` followed by a number from 1 on, written
      without a leading zero. */
  function WeekLabel(index: nat): (w: string)
    ensures |w| >= 2 && w[0] == 'W' && w[1] != '0'
    ensures forall k :: 1 <= k < |w| ==> '0' <= w[k] <= '9'
  {
    "W" + NatToString(index + 1)
  }

  /** The entry for the week at `index`: the predicted value before
      rounding is the week's sales plus the perturbation, so the error is
      the rounded size of the perturbation, never negative. */
  function Entry(index: nat, date: string, sales: real, perturbation: real): (e: WeekPrediction)
    ensures e.date == date && e.actual == Round(sales)
    ensures e.error == Round(Abs(perturbation)) && e.error >= 0
  {
    var predicted := sales + perturbation;
    assert sales - predicted == -perturbation;
    RoundMonotone(0.0, Abs(perturbation));
    WeekPrediction(WeekLabel(index), date, Round(sales), Round(predicted), Round(Abs(sales - predicted)))
  }

  /** `generatePredictions(data)`, with `perturbation(i)` standing for
      the noise, seasonal and trend terms of week i: at most 52 entries. */
  function GeneratedPredictions(data: seq<Record>, parseFloat: string -> JsNumber, perturbation: nat -> real)
    : (p: seq<WeekPrediction>)
    ensures |p| <= MaxWeeks
  {
    var weeks := Weeks(data, parseFloat);
    seq(|weeks|, i requires 0 <= i < |weeks| => Entry(i, weeks[i], SalesOn(data, weeks[i], parseFloat), perturbation(i)))
  }

  /** `generatePredictions`: the aggregation loop, then sort, slice and map. */
  method GeneratePredictions(data: seq<Record>, parseFloat: string -> JsNumber, perturbation: nat -> real)
    returns (predictions: seq<WeekPrediction>)
    ensures predictions == GeneratedPredictions(data, parseFloat, perturbation)
  {
    var weeklyData := AggregateWeekly(data, parseFloat);
    var sortedData := SortedDates(weeklyData.Keys);
    if |sortedData| > MaxWeeks {
      sortedData := sortedData[..MaxWeeks];
    }
    assert sortedData == Weeks(data, parseFloat);
    EntriesOfAggregate(data, weeklyData, parseFloat, perturbation);
    predictions := seq(|sortedData|, i requires 0 <= i < |sortedData| =>
      Entry(i, sortedData[i], weeklyData[sortedData[i]], perturbation(i)));
  }

  /** Reading each week's sales from the aggregated map gives the entries
      of `GeneratedPredictions`. */
  lemma EntriesOfAggregate(data: seq<Record>, weeklyData: map<string, real>, parseFloat: string -> JsNumber,
                           perturbation: nat -> real)
    requires Aggregates(data, weeklyData, parseFloat)
    ensures var w := Weeks(data, parseFloat);
            && (forall i :: 0 <= i < |w| ==> w[i] in weeklyData)
            && seq(|w|, i requires 0 <= i < |w| => Entry(i, w[i], weeklyData[w[i]], perturbation(i)))
               == GeneratedPredictions(data, parseFloat, perturbation)
  {
    var w := Weeks(data, parseFloat);
    var sorted := SortedDates(ContributingDates(data, parseFloat));
    forall i | 0 <= i < |w| ensures w[i] in weeklyData && weeklyData[w[i]] == SalesOn(data, w[i], parseFloat) {
      assert w[i] == sorted[i];
    }
  }

  lemma GeneratedAt(data: seq<Record>, parseFloat: string -> JsNumber, perturbation: nat -> real, i: nat)
    requires i < |Weeks(data, parseFloat)|
    ensures var w := Weeks(data, parseFloat);
            && |GeneratedPredictions(data, parseFloat, perturbation)| == |w|
            && GeneratedPredictions(data, parseFloat, perturbation)[i]
               == Entry(i, w[i], SalesOn(data, w[i], parseFloat), perturbation(i))
  {
  }

  lemma GeneratedDatesAreWeeks(data: seq<Record>, parseFloat: string -> JsNumber, perturbation: nat -> real)
    ensures var p := GeneratedPredictions(data, parseFloat, perturbation);
            var w := Weeks(data, parseFloat);
            |p| == |w| && forall i :: 0 <= i < |p| ==> p[i].date == w[i]
  {
    var w := Weeks(data, parseFloat);
    forall i | 0 <= i < |w| ensures GeneratedPredictions(data, parseFloat, perturbation)[i].date == w[i] {
      GeneratedAt(data, parseFloat, perturbation, i);
    }
  }

  /** The output is sorted strictly ascending by date (so no date twice),
      holds at most 52 entries, and holds the smallest contributing dates:
      every contributing date it leaves out comes after all it keeps. */
  lemma GeneratedDates(data: seq<Record>, parseFloat: string -> JsNumber, perturbation: nat -> real)
    ensures var p := GeneratedPredictions(data, parseFloat, perturbation);
            var dates := ContributingDates(data, parseFloat);
            && |p| == (if |dates| <= MaxWeeks then |dates| else MaxWeeks)
            && (forall i, j :: 0 <= i < j < |p| ==> LexLess(p[i].date, p[j].date))
            && (forall i :: 0 <= i < |p| ==> p[i].date in dates)
            && (forall d :: d in dates && (forall i :: 0 <= i < |p| ==> p[i].date != d) ==>
                  forall i :: 0 <= i < |p| ==> LexLess(p[i].date, d))
  {
    var p := GeneratedPredictions(data, parseFloat, perturbation);
    var dates := ContributingDates(data, parseFloat);
    var w := Weeks(data, parseFloat);
    FirstWeeksSmallest(dates);
    GeneratedDatesAreWeeks(data, parseFloat, perturbation);
    DatesOfWeeks(p, w, dates);
  }

  /** Entries dated with the first weeks inherit their order, membership
      and minimality. */
  lemma DatesOfWeeks(p: seq<WeekPrediction>, w: seq<string>, dates: set<string>)
    requires |p| == |w| && forall i :: 0 <= i < |p| ==> p[i].date == w[i]
    requires forall i, j :: 0 <= i < j < |w| ==> LexLess(w[i], w[j])
    requires forall i :: 0 <= i < |w| ==> w[i] in dates
    requires forall d :: d in dates && d !in w ==> forall i :: 0 <= i < |w| ==> LexLess(w[i], d)
    ensures forall i, j :: 0 <= i < j < |p| ==> LexLess(p[i].date, p[j].date)
    ensures forall i :: 0 <= i < |p| ==> p[i].date in dates
    ensures forall d :: d in dates && (forall i :: 0 <= i < |p| ==> p[i].date != d) ==>
              forall i :: 0 <= i < |p| ==> LexLess(p[i].date, d)
  {
    forall d | d in dates && (forall i :: 0 <= i < |p| ==> p[i].date != d)
      ensures forall i :: 0 <= i < |p| ==> LexLess(p[i].date, d)
    {
      assert d !in w by {
        forall i | 0 <= i < |w| ensures w[i] != d {
          assert p[i].date == w[i];
        }
      }
    }
  }

  /** Entry i is labelled `W(i+1)`, carries the i-th date and the rounded
      total of that date; its error is the rounded size of the perturbation,
      never negative. */
  lemma GeneratedEntries(data: seq<Record>, parseFloat: string -> JsNumber, perturbation: nat -> real, i: nat)
    requires i < |GeneratedPredictions(data, parseFloat, perturbation)|
    ensures var e := GeneratedPredictions(data, parseFloat, perturbation)[i];
            && e.week == "W" + NatToString(i + 1)
            && e.date == Weeks(data, parseFloat)[i]
            && e.actual == Round(SalesOn(data, e.date, parseFloat))
            && e.predicted == Round(SalesOn(data, e.date, parseFloat) + perturbation(i))
            && e.error == Round(Abs(perturbation(i)))
            && e.error >= 0
  {
    var w := Weeks(data, parseFloat);
    var sales := SalesOn(data, w[i], parseFloat);
    GeneratedAt(data, parseFloat, perturbation, i);
    var e := Entry(i, w[i], sales, perturbation(i));
    assert e.week == WeekLabel(i) && e.predicted == Round(sales + perturbation(i));
  }

  /** No two entries share a week label. */
  lemma WeekLabelsDistinct(i: nat, j: nat)
    requires WeekLabel(i) == WeekLabel(j)
    ensures i == j
  {
    assert WeekLabel(i)[1..] == NatToString(i + 1);
    assert WeekLabel(j)[1..] == NatToString(j + 1);
    NatToStringInjective(i + 1, j + 1);
  }

  /** Input with no record that counts yields no prediction. */
  lemma GeneratedEmpty(data: seq<Record>, parseFloat: string -> JsNumber, perturbation: nat -> real)
    requires forall k :: 0 <= k < |data| ==> !Counts(data[k], parseFloat)
    ensures GeneratedPredictions(data, parseFloat, perturbation) == []
  {
    assert ContributingDates(data, parseFloat) == {};
  }

  /** `predictions.reduce((sum, p) => sum + p.error, 0)`: never negative
      when no error is. */
  function ErrorSum(p: seq<WeekPrediction>): (sum: int)
    ensures (forall i :: 0 <= i < |p| ==> p[i].error >= 0) ==> sum >= 0
  {
    if p == [] then 0 else ErrorSum(p[..|p| - 1]) + p[|p| - 1].error
  }

  /** `Math.round(mae)` of `calculateMetrics`: NaN (0 / 0) exactly for no
      predictions, otherwise a whole number. */
  function Mae(p: seq<WeekPrediction>): (mae: JsNumber)
    ensures mae.NaN? <==> p == []
    ensures mae.Num? ==> mae.v == mae.v.Floor as real
  {
    if p == [] then NaN else Num(Round(ErrorSum(p) as real / |p| as real) as real)
  }

  lemma {:induction false} ErrorSumBounds(p: seq<WeekPrediction>, lo: int, hi: int)
    requires forall i :: 0 <= i < |p| ==> lo <= p[i].error <= hi
    ensures |p| * lo <= ErrorSum(p) <= |p| * hi
  {
    if p != [] {
      ErrorSumBounds(p[..|p| - 1], lo, hi);
      assert (|p| - 1) * lo + lo == |p| * lo;
      assert (|p| - 1) * hi + hi == |p| * hi;
    }
  }

  /** The rounded mean lies between the least and the greatest error. */
  lemma MaeBetween(p: seq<WeekPrediction>, lo: int, hi: int)
    requires p != []
    requires forall i :: 0 <= i < |p| ==> lo <= p[i].error <= hi
    ensures Mae(p).Num?
    ensures lo as real <= Mae(p).v <= hi as real
  {
    ErrorSumBounds(p, lo, hi);
    MeanAtLeast(ErrorSum(p), |p|, lo);
    MeanAtMost(ErrorSum(p), |p|, hi);
    RoundWithin(ErrorSum(p) as real / |p| as real, lo, hi);
  }

  /** A sum of at least n times lo has a mean of at least lo. */
  lemma MeanAtLeast(s: int, n: nat, lo: int)
    requires n > 0 && n * lo <= s
    ensures lo as real <= s as real / n as real
  {
    var q := s as real / n as real;
    assert q * n as real == s as real;
    assert (n * lo) as real == n as real * lo as real;
    assert (q - lo as real) * n as real == s as real - (n * lo) as real;
  }

  /** A sum of at most n times hi has a mean of at most hi. */
  lemma MeanAtMost(s: int, n: nat, hi: int)
    requires n > 0 && s <= n * hi
    ensures s as real / n as real <= hi as real
  {
    var q := s as real / n as real;
    assert q * n as real == s as real;
    assert (n * hi) as real == n as real * hi as real;
    assert (hi as real - q) * n as real == (n * hi) as real - s as real;
  }

  /** Rounding a value between two integers stays between them. */
  lemma RoundWithin(x: real, lo: int, hi: int)
    requires lo as real <= x <= hi as real
    ensures lo <= Round(x) <= hi
  {
    RoundMonotone(lo as real, x);
    RoundMonotone(x, hi as real);
    RoundOfInt(lo);
    RoundOfInt(hi);
  }

  lemma MaeOfGenerated(data: seq<Record>, parseFloat: string -> JsNumber, perturbation: nat -> real)
    ensures var p := GeneratedPredictions(data, parseFloat, perturbation);
            (p == [] <==> Mae(p) == NaN) && (p != [] ==> Mae(p).v >= 0.0)
  {
    var p := GeneratedPredictions(data, parseFloat, perturbation);
    if p != [] {
      forall i | 0 <= i < |p| ensures p[i].error >= 0 {
        GeneratedEntries(data, parseFloat, perturbation, i);
      }
      MeanAtLeast(ErrorSum(p), |p|, 0);
      RoundMonotone(0.0, ErrorSum(p) as real / |p| as real);
      RoundOfInt(0);
    }
  }
}
