/** The figures frontend/src/components/Dashboard.tsx computes before it
    draws anything: the total actual and predicted sales, the first five
    stores and six departments in order of first appearance, each one's
    rounded sales total, and the departments ranked by that total. */
module Dashboard {
  import opened JsValues
  import opened FileUpload
  import opened ForecastTypes
  import Predictions

  /** `.slice(0, 5)` of the stores. */
  const MaxStores: nat := 5

  /** `.slice(0, 6)` of the departments. */
  const MaxDepartments: nat := 6

  /** `xs.reduce((sum, x) => sum + x, 0)` over numbers: a sum of numbers
      only is a number. */
  function SumNumbers(xs: seq<JsNumber>): (sum: JsNumber)
    ensures (forall k :: 0 <= k < |xs| ==> xs[k].Num?) ==> sum.Num?
  {
    if xs == [] then Num(0.0) else Add(SumNumbers(xs[..|xs| - 1]), xs[|xs| - 1])
  }

  /** A sum is NaN exactly when one of its terms is. */
  lemma {:induction false} SumNumbersNaN(xs: seq<JsNumber>)
    ensures SumNumbers(xs).NaN? <==> exists k :: 0 <= k < |xs| && xs[k].NaN?
  {
    if xs != [] {
      var init := xs[..|xs| - 1];
      SumNumbersNaN(init);
      if exists k :: 0 <= k < |init| && init[k].NaN? {
        var k :| 0 <= k < |init| && init[k].NaN?;
        assert xs[k].NaN?;
      }
    }
  }

  /** Summing a concatenation adds the two sums. */
  lemma {:induction false} SumNumbersAppend(a: seq<JsNumber>, b: seq<JsNumber>)
    ensures SumNumbers(a + b) == Add(SumNumbers(a), SumNumbers(b))
  {
    if b == [] {
      assert a + b == a;
    } else {
      var init := b[..|b| - 1];
      SumNumbersAppend(a, init);
      assert (a + b)[..|a + b| - 1] == a + init;
    }
  }

  /** Adding s to one term adds s to the sum. */
  lemma {:induction false} SumNumbersAddAt(xs: seq<JsNumber>, m: nat, s: JsNumber)
    requires m < |xs|
    ensures SumNumbers(xs[m := Add(xs[m], s)]) == Add(SumNumbers(xs), s)
  {
    var ys := xs[m := Add(xs[m], s)];
    var init := xs[..|xs| - 1];
    if m < |xs| - 1 {
      SumNumbersAddAt(init, m, s);
      assert ys[..|ys| - 1] == init[m := Add(init[m], s)];
    } else {
      assert ys[..|ys| - 1] == init;
    }
  }

  /** `sum + item.actual`: null adds 0, a missing field makes NaN. */
  function ActualNumber(a: Actual): (r: JsNumber)
    ensures r.NaN? <==> a.Absent?
  {
    match a
    case Absent => NaN
    case Null => Num(0.0)
    case Known(v) => Num(v)
  }

  function Actuals(p: seq<Prediction>): seq<JsNumber> {
    seq(|p|, i requires 0 <= i < |p| => ActualNumber(p[i].actual))
  }

  function Predicted(p: seq<Prediction>): seq<JsNumber> {
    seq(|p|, i requires 0 <= i < |p| => Num(p[i].predicted))
  }

  /** `totalSales`: a number when every prediction has an `actual` field. */
  function TotalSales(p: seq<Prediction>): (total: JsNumber)
    ensures (forall k :: 0 <= k < |p| ==> !p[k].actual.Absent?) ==> total.Num?
  {
    SumNumbers(Actuals(p))
  }

  /** `totalPredicted`: always a number. */
  function TotalPredicted(p: seq<Prediction>): (total: JsNumber)
    ensures total.Num?
  {
    SumNumbers(Predicted(p))
  }

  /** The total of the actual values is NaN exactly when some prediction
      has no `actual` field; the predicted total is always a number. */
  lemma TotalsNaN(p: seq<Prediction>)
    ensures TotalSales(p).NaN? <==> exists k :: 0 <= k < |p| && p[k].actual.Absent?
    ensures TotalPredicted(p).Num?
  {
    SumNumbersNaN(Actuals(p));
    SumNumbersNaN(Predicted(p));
    if exists k :: 0 <= k < |p| && p[k].actual.Absent? {
      var k :| 0 <= k < |p| && p[k].actual.Absent?;
      assert Actuals(p)[k].NaN?;
    }
  }

  /** Both totals add up over a split of the predictions. */
  lemma TotalsAppend(a: seq<Prediction>, b: seq<Prediction>)
    ensures TotalSales(a + b) == Add(TotalSales(a), TotalSales(b))
    ensures TotalPredicted(a + b) == Add(TotalPredicted(a), TotalPredicted(b))
  {
    assert Actuals(a + b) == Actuals(a) + Actuals(b);
    assert Predicted(a + b) == Predicted(a) + Predicted(b);
    SumNumbersAppend(Actuals(a), Actuals(b));
    SumNumbersAppend(Predicted(a), Predicted(b));
  }

  /** The values of `new Set(xs)` in insertion order: each value once, where
      it first occurs. */
  function Distinct<T(==,!new)>(xs: seq<T>): (r: seq<T>)
    ensures forall x :: x in r <==> x in xs
    ensures |r| <= |xs|
  {
    if xs == [] then []
    else
      var d := Distinct(xs[..|xs| - 1]);
      var x := xs[|xs| - 1];
      if x in d then d else d + [x]
  }

  /** The position where a value first occurs. */
  function FirstIndex<T(==,!new)>(xs: seq<T>, x: T): (r: nat)
    requires x in xs
    ensures r < |xs| && xs[r] == x
    ensures forall k :: 0 <= k < r ==> xs[k] != x
  {
    if xs[0] == x then 0 else 1 + FirstIndex(xs[1..], x)
  }

  /** `Distinct` holds each value once, ordered by first occurrence. */
  lemma {:induction false} DistinctOrder<T(!new)>(xs: seq<T>)
    ensures forall i, j :: 0 <= i < j < |Distinct(xs)| ==>
              Distinct(xs)[i] != Distinct(xs)[j] && FirstIndex(xs, Distinct(xs)[i]) < FirstIndex(xs, Distinct(xs)[j])
  {
    if xs != [] {
      var init := xs[..|xs| - 1];
      var x := xs[|xs| - 1];
      DistinctOrder(init);
      var d := Distinct(init);
      var r := Distinct(xs);
      assert xs == init + [x];
      forall i, j | 0 <= i < j < |r| ensures r[i] != r[j] && FirstIndex(xs, r[i]) < FirstIndex(xs, r[j]) {
        assert r[i] == d[i] && d[i] in init;
        FirstIndexPrefix(init, x, d[i]);
        if j < |d| {
          assert r[j] == d[j] && d[j] in init;
          FirstIndexPrefix(init, x, d[j]);
        } else {
          assert r[j] == x && x !in init;
          FirstIndexLast(init, x);
        }
      }
    }
  }

  /** Appending a value leaves the first positions of earlier values. */
  lemma FirstIndexPrefix<T(!new)>(init: seq<T>, x: T, e: T)
    requires e in init
    ensures FirstIndex(init + [x], e) == FirstIndex(init, e)
  {
    assert (init + [x])[FirstIndex(init, e)] == e;
  }

  /** A value new at the end first occurs there. */
  lemma FirstIndexLast<T(!new)>(init: seq<T>, x: T)
    requires x !in init
    ensures FirstIndex(init + [x], x) == |init|
  {
    assert forall k :: 0 <= k < |init| ==> (init + [x])[k] == init[k];
  }

  /** `.slice(0, n)` */
  function Take<T>(s: seq<T>, n: nat): (r: seq<T>)
    ensures |r| == if |s| <= n then |s| else n
    ensures r == s[..|r|]
  {
    if |s| <= n then s else s[..n]
  }

  /** `d[key]`: undefined when the record lacks the column or the row was
      short. */
  function Get(r: Record, key: string): Option<string> {
    if key in r then r[key] else None
  }

  /** `data.map(d => d[key])` */
  function Column(data: seq<Record>, key: string): (c: seq<Option<string>>)
    ensures |c| == |data|
  {
    seq(|data|, i requires 0 <= i < |data| => Get(data[i], key))
  }

  /** `[...new Set(data.map(d => d[key]))].slice(0, cap)` */
  function Keys(data: seq<Record>, key: string, cap: nat): seq<Option<string>> {
    Take(Distinct(Column(data, key)), cap)
  }

  /** `stores`: at most five store values of the records, each once. */
  function Stores(data: seq<Record>): (stores: seq<Option<string>>)
    ensures |stores| <= MaxStores
    ensures forall i :: 0 <= i < |stores| ==> stores[i] in Column(data, "Store")
    ensures forall i, j :: 0 <= i < j < |stores| ==> stores[i] != stores[j]
  {
    TakeDistinctKept(Column(data, "Store"), MaxStores);
    Keys(data, "Store", MaxStores)
  }

  /** `departments`: at most six department values of the records, each once. */
  function Departments(data: seq<Record>): (departments: seq<Option<string>>)
    ensures |departments| <= MaxDepartments
    ensures forall i :: 0 <= i < |departments| ==> departments[i] in Column(data, "Dept")
    ensures forall i, j :: 0 <= i < j < |departments| ==> departments[i] != departments[j]
  {
    TakeDistinctKept(Column(data, "Dept"), MaxDepartments);
    Keys(data, "Dept", MaxDepartments)
  }

  /** The kept values are distinct values of the column, at most `cap` of
      them, in order of first occurrence; a value is left out only when
      `cap` values occurring earlier were kept. */
  lemma KeysFirstOccurrences(data: seq<Record>, key: string, cap: nat)
    ensures var c := Column(data, key);
            var ks := Keys(data, key, cap);
            && |ks| <= cap
            && (forall i :: 0 <= i < |ks| ==> ks[i] in c)
            && (forall i, j :: 0 <= i < j < |ks| ==> ks[i] != ks[j])
            && (forall i, j :: 0 <= i < j < |ks| ==> FirstIndex(c, ks[i]) < FirstIndex(c, ks[j]))
            && (forall v :: v in c && v !in ks ==>
                  |ks| == cap && forall i :: 0 <= i < |ks| ==> FirstIndex(c, ks[i]) < FirstIndex(c, v))
  {
    TakeDistinctKept(Column(data, key), cap);
    TakeDistinctLeftOut(Column(data, key), cap);
  }

  /** The first `cap` distinct values are values of `c`, each once, in
      order of first occurrence. */
  lemma TakeDistinctKept<T(!new)>(c: seq<T>, cap: nat)
    ensures var ks := Take(Distinct(c), cap);
            && |ks| <= cap
            && (forall i :: 0 <= i < |ks| ==> ks[i] in c)
            && (forall i, j :: 0 <= i < j < |ks| ==> ks[i] != ks[j] && FirstIndex(c, ks[i]) < FirstIndex(c, ks[j]))
  {
    var d := Distinct(c);
    var ks := Take(d, cap);
    DistinctOrder(c);
    forall i, j | 0 <= i < j < |ks| ensures ks[i] != ks[j] && FirstIndex(c, ks[i]) < FirstIndex(c, ks[j]) {
      assert ks[i] == d[i] && ks[j] == d[j];
    }
    forall i | 0 <= i < |ks| ensures ks[i] in c {
      assert ks[i] == d[i];
    }
  }

  /** A value of `c` missing from the first `cap` distinct values comes
      after all `cap` of them. */
  lemma TakeDistinctLeftOut<T(!new)>(c: seq<T>, cap: nat)
    ensures var ks := Take(Distinct(c), cap);
            forall v :: v in c && v !in ks ==>
              |ks| == cap && forall i :: 0 <= i < |ks| ==> FirstIndex(c, ks[i]) < FirstIndex(c, v)
  {
    var d := Distinct(c);
    var ks := Take(d, cap);
    forall v | v in c && v !in ks
      ensures |ks| == cap && forall i :: 0 <= i < |ks| ==> FirstIndex(c, ks[i]) < FirstIndex(c, v)
    {
      var m :| 0 <= m < |d| && d[m] == v;
      assert m >= |ks|;
      DistinctOrder(c);
      forall i | 0 <= i < |ks| ensures FirstIndex(c, ks[i]) < FirstIndex(c, v) {
        assert ks[i] == d[i];
      }
    }
  }

  /** `data.filter(d => d[key] === value)` */
  function Matching(data: seq<Record>, key: string, value: Option<string>): (r: seq<Record>)
    ensures forall k :: 0 <= k < |r| ==> Get(r[k], key) == value
  {
    if data == [] then []
    else
      var init := Matching(data[..|data| - 1], key, value);
      var last := data[|data| - 1];
      if Get(last, key) == value then init + [last] else init
  }

  /** `parseFloat(d.Weekly_Sales || 0)` for each record. */
  function SalesColumn(data: seq<Record>, parseFloat: string -> JsNumber): (c: seq<JsNumber>)
    ensures |c| == |data|
  {
    seq(|data|, i requires 0 <= i < |data| => Predictions.SalesOf(data[i], parseFloat))
  }

  /** The sales of the records whose `key` column is `value`; 0 when no
      record has that value. */
  function KeySum(data: seq<Record>, key: string, value: Option<string>, parseFloat: string -> JsNumber): (sum: JsNumber)
    ensures (forall k :: 0 <= k < |data| ==> Get(data[k], key) != value) ==> sum == Num(0.0)
  {
    MatchingMembers(data, key, value);
    SumNumbers(SalesColumn(Matching(data, key, value), parseFloat))
  }

  /** The sales of a record do not parse. */
  predicate Unparsed(r: Record, parseFloat: string -> JsNumber) {
    Predictions.SalesOf(r, parseFloat).NaN?
  }

  /** A key's sum is NaN exactly when one of its records' sales is NaN. */
  lemma KeySumNaN(data: seq<Record>, key: string, value: Option<string>, parseFloat: string -> JsNumber)
    ensures KeySum(data, key, value, parseFloat).NaN? <==>
            exists k :: 0 <= k < |data| && Get(data[k], key) == value && Unparsed(data[k], parseFloat)
  {
    if exists k :: 0 <= k < |data| && Get(data[k], key) == value && Unparsed(data[k], parseFloat) {
      var k :| 0 <= k < |data| && Get(data[k], key) == value && Unparsed(data[k], parseFloat);
      UnparsedMakesNaN(data, key, value, parseFloat, k);
    }
    if KeySum(data, key, value, parseFloat).NaN? {
      NaNHasUnparsed(data, key, value, parseFloat);
    }
  }

  /** A matching record whose sales do not parse makes the key's sum NaN. */
  lemma UnparsedMakesNaN(data: seq<Record>, key: string, value: Option<string>, parseFloat: string -> JsNumber, k: nat)
    requires k < |data| && Get(data[k], key) == value && Unparsed(data[k], parseFloat)
    ensures KeySum(data, key, value, parseFloat).NaN?
  {
    var m := Matching(data, key, value);
    var c := SalesColumn(m, parseFloat);
    SumNumbersNaN(c);
    MatchingMembers(data, key, value);
    assert data[k] in m;
    var j :| 0 <= j < |m| && m[j] == data[k];
    assert c[j].NaN?;
  }

  /** A NaN sum comes from a matching record whose sales do not parse. */
  lemma NaNHasUnparsed(data: seq<Record>, key: string, value: Option<string>, parseFloat: string -> JsNumber)
    requires KeySum(data, key, value, parseFloat).NaN?
    ensures exists k :: 0 <= k < |data| && Get(data[k], key) == value && Unparsed(data[k], parseFloat)
  {
    var m := Matching(data, key, value);
    var c := SalesColumn(m, parseFloat);
    SumNumbersNaN(c);
    MatchingMembers(data, key, value);
    var j :| 0 <= j < |c| && c[j].NaN?;
    assert Unparsed(m[j], parseFloat);
    assert m[j] in data;
    var k :| 0 <= k < |data| && data[k] == m[j];
    assert Get(data[k], key) == value;
  }

  /** The records `Matching` keeps are exactly those with the value. */
  lemma {:induction false} MatchingMembers(data: seq<Record>, key: string, value: Option<string>)
    ensures forall r :: r in Matching(data, key, value) <==> r in data && Get(r, key) == value
  {
    if data != [] {
      MatchingMembers(data[..|data| - 1], key, value);
      assert data == data[..|data| - 1] + [data[|data| - 1]];
    }
  }

  /** One more record adds its sales to its own key's sum only. */
  lemma KeySumSnoc(data: seq<Record>, r: Record, key: string, value: Option<string>, parseFloat: string -> JsNumber)
    ensures KeySum(data + [r], key, value, parseFloat) ==
            if Get(r, key) == value then Add(KeySum(data, key, value, parseFloat), Predictions.SalesOf(r, parseFloat))
            else KeySum(data, key, value, parseFloat)
  {
    assert (data + [r])[..|data|] == data;
    var m := Matching(data, key, value);
    if Get(r, key) == value {
      assert SalesColumn(m + [r], parseFloat) == SalesColumn(m, parseFloat) + [Predictions.SalesOf(r, parseFloat)];
    }
  }

  /** A value the column does not hold has sum 0. */
  lemma {:induction false} KeySumAbsent(data: seq<Record>, key: string, value: Option<string>, parseFloat: string -> JsNumber)
    requires value !in Column(data, key)
    ensures KeySum(data, key, value, parseFloat) == Num(0.0)
  {
    if data != [] {
      var init := data[..|data| - 1];
      assert forall k :: 0 <= k < |init| ==> Column(init, key)[k] == Column(data, key)[k];
      KeySumAbsent(init, key, value, parseFloat);
      assert Column(data, key)[|data| - 1] == Get(data[|data| - 1], key);
    }
  }

  /** The sums of the given keys, in order. */
  function PerKey(data: seq<Record>, key: string, values: seq<Option<string>>, parseFloat: string -> JsNumber): (r: seq<JsNumber>)
    ensures |r| == |values|
  {
    seq(|values|, i requires 0 <= i < |values| => KeySum(data, key, values[i], parseFloat))
  }

  /** One more record changes only its own key's entry of the sums. */
  lemma PerKeySnoc(init: seq<Record>, r: Record, key: string, values: seq<Option<string>>, parseFloat: string -> JsNumber)
    ensures forall i :: 0 <= i < |values| ==>
              PerKey(init + [r], key, values, parseFloat)[i] ==
              if values[i] == Get(r, key) then Add(PerKey(init, key, values, parseFloat)[i], Predictions.SalesOf(r, parseFloat))
              else PerKey(init, key, values, parseFloat)[i]
  {
    forall i | 0 <= i < |values| {
      KeySumSnoc(init, r, key, values[i], parseFloat);
    }
  }

  /** Two sums that differ in one term by s differ by s. */
  lemma SumNumbersChangeOne(before: seq<JsNumber>, after: seq<JsNumber>, m: nat, s: JsNumber)
    requires |after| == |before| && m < |before|
    requires after[m] == Add(before[m], s)
    requires forall i :: 0 <= i < |before| && i != m ==> after[i] == before[i]
    ensures SumNumbers(after) == Add(SumNumbers(before), s)
  {
    assert after == before[m := Add(before[m], s)];
    SumNumbersAddAt(before, m, s);
  }

  /** The partition step for a record whose key was seen before. */
  lemma PartitionSeenKey(init: seq<Record>, r: Record, key: string, d: seq<Option<string>>, parseFloat: string -> JsNumber)
    requires Get(r, key) in d
    requires forall i, j :: 0 <= i < j < |d| ==> d[i] != d[j]
    ensures SumNumbers(PerKey(init + [r], key, d, parseFloat))
            == Add(SumNumbers(PerKey(init, key, d, parseFloat)), Predictions.SalesOf(r, parseFloat))
  {
    var before := PerKey(init, key, d, parseFloat);
    var after := PerKey(init + [r], key, d, parseFloat);
    var m :| 0 <= m < |d| && d[m] == Get(r, key);
    forall i | 0 <= i < |d| && i != m ensures after[i] == before[i] {
      if i < m {
        assert d[i] != d[m];
      } else {
        assert d[m] != d[i];
      }
      KeySumSnoc(init, r, key, d[i], parseFloat);
    }
    KeySumSnoc(init, r, key, d[m], parseFloat);
    SumNumbersChangeOne(before, after, m, Predictions.SalesOf(r, parseFloat));
  }

  /** The partition step for a record with a new key. */
  lemma PartitionNewKey(init: seq<Record>, r: Record, key: string, d: seq<Option<string>>, parseFloat: string -> JsNumber)
    requires Get(r, key) !in d && Get(r, key) !in Column(init, key)
    ensures SumNumbers(PerKey(init + [r], key, d + [Get(r, key)], parseFloat))
            == Add(SumNumbers(PerKey(init, key, d, parseFloat)), Predictions.SalesOf(r, parseFloat))
  {
    var v0 := Get(r, key);
    var before := PerKey(init, key, d, parseFloat);
    var s := Predictions.SalesOf(r, parseFloat);
    PerKeySnoc(init, r, key, d, parseFloat);
    KeySumAbsent(init, key, v0, parseFloat);
    KeySumSnoc(init, r, key, v0, parseFloat);
    var after := PerKey(init + [r], key, d + [v0], parseFloat);
    assert after == before + [s];
    assert (before + [s])[..|before|] == before;
  }

  /** The per-key sums over every distinct value of the column add up to
      the sales of all records: each record is counted under exactly one
      key. */
  lemma {:induction false} KeySumsPartition(data: seq<Record>, key: string, parseFloat: string -> JsNumber)
    ensures SumNumbers(PerKey(data, key, Distinct(Column(data, key)), parseFloat))
            == SumNumbers(SalesColumn(data, parseFloat))
  {
    if data == [] {
      assert Column(data, key) == [];
    } else {
      var init := data[..|data| - 1];
      var r := data[|data| - 1];
      var v0 := Get(r, key);
      assert data == init + [r];
      var c := Column(init, key);
      assert Column(data, key) == c + [v0];
      assert Column(data, key)[..|data| - 1] == c;
      KeySumsPartition(init, key, parseFloat);
      var d := Distinct(c);
      assert SalesColumn(data, parseFloat) == SalesColumn(init, parseFloat) + [Predictions.SalesOf(r, parseFloat)];
      assert SalesColumn(data, parseFloat)[..|data| - 1] == SalesColumn(init, parseFloat);
      if v0 in d {
        DistinctOrder(c);
        PartitionSeenKey(init, r, key, d, parseFloat);
      } else {
        PartitionNewKey(init, r, key, d, parseFloat);
      }
    }
  }

  /** `${value}` in a template string: undefined prints as "undefined". */
  function Display(value: Option<string>): string {
    match value
    case Some(s) => s
    case None => "undefined"
  }

  /** `storeData` */
  function StoreTotals(data: seq<Record>, parseFloat: string -> JsNumber): (r: seq<StoreData>)
    ensures |r| == |Stores(data)|
  {
    var stores := Stores(data);
    seq(|stores|, i requires 0 <= i < |stores| =>
      StoreData("Store " + Display(stores[i]), RoundNumber(KeySum(data, "Store", stores[i], parseFloat))))
  }

  /** `deptData`, before it is sorted. */
  function DeptTotals(data: seq<Record>, parseFloat: string -> JsNumber): (r: seq<DeptData>)
    ensures |r| == |Departments(data)|
  {
    var depts := Departments(data);
    seq(|depts|, i requires 0 <= i < |depts| =>
      DeptData("Dept " + Display(depts[i]), RoundNumber(KeySum(data, "Dept", depts[i], parseFloat))))
  }

  /** Every store's bar is a whole number, or NaN exactly when one of that
      store's records has sales that do not parse. */
  lemma StoreTotalsRounded(data: seq<Record>, parseFloat: string -> JsNumber, i: nat)
    requires i < |Stores(data)|
    ensures var entry := StoreTotals(data, parseFloat)[i];
            var store := Stores(data)[i];
            && entry.name == "Store " + Display(store)
            && (entry.sales.NaN? <==> exists k :: 0 <= k < |data| && Get(data[k], "Store") == store
                                            && Unparsed(data[k], parseFloat))
            && (entry.sales.Num? ==> entry.sales.v == Round(KeySum(data, "Store", store, parseFloat).v) as real)
  {
    KeySumNaN(data, "Store", Stores(data)[i], parseFloat);
  }

  /** The same for every department's slice. */
  lemma DeptTotalsRounded(data: seq<Record>, parseFloat: string -> JsNumber, i: nat)
    requires i < |Departments(data)|
    ensures var entry := DeptTotals(data, parseFloat)[i];
            var dept := Departments(data)[i];
            && entry.name == "Dept " + Display(dept)
            && (entry.value.NaN? <==> exists k :: 0 <= k < |data| && Get(data[k], "Dept") == dept
                                            && Unparsed(data[k], parseFloat))
            && (entry.value.Num? ==> entry.value.v == Round(KeySum(data, "Dept", dept, parseFloat).v) as real)
  {
    KeySumNaN(data, "Dept", Departments(data)[i], parseFloat);
  }

  predicate AllNumbers(s: seq<DeptData>) {
    forall k :: 0 <= k < |s| ==> s[k].value.Num?
  }

  /** The value of an entry that holds a number. */
  function Val(x: DeptData): real {
    if x.value.Num? then x.value.v else 0.0
  }

  /** Non-increasing by value. */
  predicate Descending(s: seq<DeptData>) {
    AllNumbers(s) && forall p, q :: 0 <= p < q < |s| ==> Val(s[p]) >= Val(s[q])
  }

  /** `(a, b) => b.value - a.value` is positive: b ranks before a. A NaN
      difference counts as a tie. */
  predicate RanksBefore(b: DeptData, a: DeptData) {
    a.value.Num? && b.value.Num? && b.value.v - a.value.v > 0.0
  }

  /** Exchanges two entries of the array. */
  method Swap(a: array<DeptData>, i: nat, j: nat)
    requires i < j < a.Length
    modifies a
    ensures a[i] == old(a[j]) && a[j] == old(a[i])
    ensures forall m :: 0 <= m < a.Length && m != i && m != j ==> a[m] == old(a[m])
    ensures multiset(a[..]) == multiset(old(a[..]))
  {
    a[i], a[j] := a[j], a[i];
  }

  /** `deptData.sort((a, b) => b.value - a.value)` in place, as a stable
      insertion sort. With a NaN value the comparator is inconsistent and
      only the permutation is promised. */
  method SortDepartments(a: array<DeptData>)
    modifies a
    ensures multiset(a[..]) == multiset(old(a[..]))
    ensures AllNumbers(old(a[..])) ==> Descending(a[..])
  {
    ghost var numbers := AllNumbers(a[..]);
    var i := 0;
    while i < a.Length
      invariant 0 <= i <= a.Length
      invariant multiset(a[..]) == multiset(old(a[..]))
      invariant numbers ==> AllNumbers(a[..])
      invariant numbers ==> forall p, q :: 0 <= p < q < i ==> Val(a[p]) >= Val(a[q])
    {
      InsertNext(a, i);
      i := i + 1;
    }
  }

  /** Moves `a[i]` back past the entries it ranks before. */
  method InsertNext(a: array<DeptData>, i: nat)
    requires i < a.Length
    modifies a
    ensures multiset(a[..]) == multiset(old(a[..]))
    ensures AllNumbers(old(a[..])) ==> AllNumbers(a[..])
    ensures AllNumbers(old(a[..])) && (forall p, q :: 0 <= p < q < i ==> Val(old(a[p])) >= Val(old(a[q]))) ==>
              forall p, q :: 0 <= p < q <= i ==> Val(a[p]) >= Val(a[q])
  {
    ghost var numbers := AllNumbers(a[..]);
    ghost var sorted := numbers && forall p, q :: 0 <= p < q < i ==> Val(a[p]) >= Val(a[q]);
    var j := i;
    while j > 0 && RanksBefore(a[j], a[j - 1])
      invariant 0 <= j <= i
      invariant multiset(a[..]) == multiset(old(a[..]))
      invariant numbers ==> AllNumbers(a[..])
      invariant sorted ==> Inserting(a[..], i, j)
    {
      ghost var before := a[..];
      Swap(a, j - 1, j);
      if sorted {
        InsertingSwap(before, a[..], i, j);
      }
      j := j - 1;
    }
    if sorted {
      InsertingDone(a[..], i, j);
    }
  }

  /** The state of the inner loop: the entries up to `i` other than the
      moving one at `j` are in order, and the moving one ranks before
      the entry after it. */
  predicate Inserting(s: seq<DeptData>, i: nat, j: nat) {
    && j <= i < |s|
    && (forall p, q :: 0 <= p < q <= i && q != j ==> Val(s[p]) >= Val(s[q]))
    && (0 < j < i ==> Val(s[j - 1]) >= Val(s[j + 1]))
    && (j < i ==> Val(s[j]) > Val(s[j + 1]))
  }

  /** Swapping the moving entry with the one before it that it ranks
      before keeps the loop state, one place further back. */
  lemma InsertingSwap(s: seq<DeptData>, t: seq<DeptData>, i: nat, j: nat)
    requires 0 < j && Inserting(s, i, j) && RanksBefore(s[j], s[j - 1])
    requires |t| == |s| && t[j - 1] == s[j] && t[j] == s[j - 1]
    requires forall m :: 0 <= m < |s| && m != j - 1 && m != j ==> t[m] == s[m]
    ensures Inserting(t, i, j - 1)
  {
    forall p, q | 0 <= p < q <= i && q != j - 1 ensures Val(t[p]) >= Val(t[q]) {
      if q == j {
        if p < j - 1 { assert Val(s[p]) >= Val(s[j - 1]); }
      } else if p == j - 1 {
        assert q > j;
        if j < i { assert Val(s[j]) > Val(s[j + 1]); assert Val(s[j + 1]) >= Val(s[q]) || q == j + 1; }
      } else if p == j {
        assert Val(s[j - 1]) >= Val(s[q]) || q == j + 1;
      }
    }
  }

  /** When the moving entry stops, the entries up to `i` are in order. */
  lemma InsertingDone(s: seq<DeptData>, i: nat, j: nat)
    requires Inserting(s, i, j) && AllNumbers(s)
    requires j == 0 || !RanksBefore(s[j], s[j - 1])
    ensures forall p, q :: 0 <= p < q <= i ==> Val(s[p]) >= Val(s[q])
  {
    forall p, q | 0 <= p < q <= i ensures Val(s[p]) >= Val(s[q]) {
      if q == j {
        assert s[j - 1].value.Num? && s[j].value.Num?;
        if p < j - 1 { assert Val(s[p]) >= Val(s[j - 1]); }
      }
    }
  }

  /** The department ranking the dashboard lists: the department totals,
      each once, highest first when all of them are numbers. */
  method RankDepartments(data: seq<Record>, parseFloat: string -> JsNumber) returns (ranked: seq<DeptData>)
    ensures multiset(ranked) == multiset(DeptTotals(data, parseFloat))
    ensures AllNumbers(DeptTotals(data, parseFloat)) ==> Descending(ranked)
  {
    var totals := DeptTotals(data, parseFloat);
    var a := new DeptData[|totals|](i requires 0 <= i < |totals| => totals[i]);
    assert a[..] == totals;
    SortDepartments(a);
    ranked := a[..];
  }
}
