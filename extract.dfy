/** Metric and sleep extraction: walk every payload's metrics, keep the points of the
    requested metric that carry what is needed, then aggregate same-day duplicates. */
module Extract {
  import opened Common
  import opened Payload
  import opened Aggregate

  // ---------------------------------------------------------------------------
  // The walk over payloads, metrics and points
  // ---------------------------------------------------------------------------

  /** The rows one metric entry contributes: its kept points when its name matches. */
  function MetricRows<R>(m: Metric, name: string, read: DataPoint -> Option<R>): seq<R>
  {
    if m.name == name then FilterMap(m.data, read) else []
  }

  /** The rows a list of metric entries contributes, in order. */
  function MetricsRows<R>(ms: seq<Metric>, name: string, read: DataPoint -> Option<R>): seq<R>
  {
    if ms == [] then []
    else MetricsRows(ms[..|ms| - 1], name, read) + MetricRows(ms[|ms| - 1], name, read)
  }

  /** The rows all payloads contribute, in payload order. */
  function PayloadRows<R>(ps: seq<Payload>, name: string, read: DataPoint -> Option<R>): seq<R>
  {
    if ps == [] then []
    else PayloadRows(ps[..|ps| - 1], name, read) + MetricsRows(RootOf(ps[|ps| - 1]).metrics, name, read)
  }

  lemma {:induction false} MetricsRowsStep<R>(ms: seq<Metric>, j: nat, name: string, read: DataPoint -> Option<R>)
    requires j < |ms|
    ensures MetricsRows(ms[..j + 1], name, read) == MetricsRows(ms[..j], name, read) + MetricRows(ms[j], name, read)
  {
    assert ms[..j + 1][..j] == ms[..j];
  }

  lemma {:induction false} PayloadRowsStep<R>(ps: seq<Payload>, i: nat, name: string, read: DataPoint -> Option<R>)
    requires i < |ps|
    ensures PayloadRows(ps[..i + 1], name, read) == PayloadRows(ps[..i], name, read) + MetricsRows(RootOf(ps[i]).metrics, name, read)
  {
    assert ps[..i + 1][..i] == ps[..i];
  }

  lemma {:induction false} AppendAssoc<R>(a: seq<R>, b: seq<R>, c: seq<R>)
    ensures a + (b + c) == (a + b) + c
  {
  }

  /** The innermost loop: append each point of one metric entry that `read` keeps. */
  method CollectPoints<R>(m: Metric, read: DataPoint -> Option<R>, rows0: seq<R>) returns (rows: seq<R>)
    ensures rows == rows0 + FilterMap(m.data, read)
  {
    rows := rows0;
    var k := 0;
    while k < |m.data|
      invariant 0 <= k <= |m.data|
      invariant rows == rows0 + FilterMap(m.data[..k], read)
    {
      var r := read(m.data[k]);
      if r.Some? {
        rows := rows + [r.value];
      }
      assert m.data[..k + 1][..k] == m.data[..k];
      k := k + 1;
    }
    assert m.data[..k] == m.data;
  }

  /** The middle loop: for each metric entry of the requested name, append its kept points. */
  method CollectMetrics<R>(ms: seq<Metric>, name: string, read: DataPoint -> Option<R>, rows0: seq<R>)
    returns (rows: seq<R>)
    ensures rows == rows0 + MetricsRows(ms, name, read)
  {
    rows := rows0;
    var j := 0;
    while j < |ms|
      invariant 0 <= j <= |ms|
      invariant rows == rows0 + MetricsRows(ms[..j], name, read)
    {
      var m := ms[j];
      ghost var mid := rows;
      if m.name == name {
        rows := CollectPoints(m, read, rows);
      } else {
        assert mid + MetricRows(m, name, read) == mid;
      }
      MetricsRowsStep(ms, j, name, read);
      AppendAssoc(rows0, MetricsRows(ms[..j], name, read), MetricRows(m, name, read));
      j := j + 1;
    }
    assert ms[..j] == ms;
  }

  /** The nested loops that build `rows`: for each payload, each metric entry of the
      requested name, each point that `read` keeps, append the row. */
  method CollectRows<R>(ps: seq<Payload>, name: string, read: DataPoint -> Option<R>)
    returns (rows: seq<R>)
    ensures rows == PayloadRows(ps, name, read)
  {
    rows := [];
    var i := 0;
    while i < |ps|
      invariant 0 <= i <= |ps|
      invariant rows == PayloadRows(ps[..i], name, read)
    {
      rows := CollectMetrics(RootOf(ps[i]).metrics, name, read, rows);
      PayloadRowsStep(ps, i, name, read);
      i := i + 1;
    }
    assert ps[..i] == ps;
  }

  /** Point `k` of metric entry `j` has the requested name and is kept by `read` as `r`. */
  ghost predicate MetricPoint<R>(ms: seq<Metric>, name: string, read: DataPoint -> Option<R>, r: R, j: int, k: int)
  {
    0 <= j < |ms| && ms[j].name == name && 0 <= k < |ms[j].data| && read(ms[j].data[k]) == Some(r)
  }

  /** Point `k` of metric entry `j` of payload `i` has the requested name and is kept
      by `read` as `r`. */
  ghost predicate PayloadPoint<R>(ps: seq<Payload>, name: string, read: DataPoint -> Option<R>, r: R, i: int, j: int, k: int)
  {
    0 <= i < |ps| && MetricPoint(RootOf(ps[i]).metrics, name, read, r, j, k)
  }

  /** A row is collected exactly when some point of a metric entry of that name is
      kept by `read` as that row. */
  lemma {:induction false} MetricsRowsMembership<R>(ms: seq<Metric>, name: string,
                                                    read: DataPoint -> Option<R>, r: R)
    ensures r in MetricsRows(ms, name, read) <==> exists j, k :: MetricPoint(ms, name, read, r, j, k)
  {
    if ms != [] {
      var init := ms[..|ms| - 1];
      var last := ms[|ms| - 1];
      MetricsRowsMembership(init, name, read, r);
      FilterMapMembership(last.data, read, r);
      if r in MetricsRows(ms, name, read) {
        if r in MetricsRows(init, name, read) {
          var j, k :| MetricPoint(init, name, read, r, j, k);
          assert ms[j] == init[j];
          assert MetricPoint(ms, name, read, r, j, k);
        } else {
          assert r in MetricRows(last, name, read);
          var k :| 0 <= k < |last.data| && read(last.data[k]) == Some(r);
          assert MetricPoint(ms, name, read, r, |ms| - 1, k);
        }
      }
      if exists j, k :: MetricPoint(ms, name, read, r, j, k) {
        var j, k :| MetricPoint(ms, name, read, r, j, k);
        if j < |ms| - 1 {
          assert init[j] == ms[j];
          assert MetricPoint(init, name, read, r, j, k);
        } else {
          assert r in FilterMap(last.data, read);
        }
      }
    }
  }

  /** A row is collected exactly when some point of a metric entry of that name, in
      some payload, is kept by `read` as that row. */
  lemma {:induction false} PayloadRowsMembership<R>(ps: seq<Payload>, name: string,
                                                    read: DataPoint -> Option<R>, r: R)
    ensures r in PayloadRows(ps, name, read) <==> exists i, j, k :: PayloadPoint(ps, name, read, r, i, j, k)
  {
    if ps != [] {
      var init := ps[..|ps| - 1];
      var ms := RootOf(ps[|ps| - 1]).metrics;
      PayloadRowsMembership(init, name, read, r);
      MetricsRowsMembership(ms, name, read, r);
      assert PayloadRows(ps, name, read) == PayloadRows(init, name, read) + MetricsRows(ms, name, read);
      assert r in PayloadRows(ps, name, read) ==> exists i, j, k :: PayloadPoint(ps, name, read, r, i, j, k) by {
        if r in PayloadRows(ps, name, read) {
          if r in PayloadRows(init, name, read) {
            var i, j, k :| PayloadPoint(init, name, read, r, i, j, k);
            assert ps[i] == init[i];
            assert PayloadPoint(ps, name, read, r, i, j, k);
          } else {
            var j, k :| MetricPoint(ms, name, read, r, j, k);
            assert PayloadPoint(ps, name, read, r, |ps| - 1, j, k);
          }
        }
      }
      assert (exists i, j, k :: PayloadPoint(ps, name, read, r, i, j, k)) ==> r in PayloadRows(ps, name, read) by {
        if exists i, j, k :: PayloadPoint(ps, name, read, r, i, j, k) {
          var i, j, k :| PayloadPoint(ps, name, read, r, i, j, k);
          if i < |ps| - 1 {
            assert init[i] == ps[i];
            assert PayloadPoint(init, name, read, r, i, j, k);
          } else {
            assert MetricPoint(ms, name, read, r, j, k);
          }
        }
      }
    }
  }

  // ---------------------------------------------------------------------------
  // extract_metric_series
  // ---------------------------------------------------------------------------

  const DefaultValueKey: string := "qty"

  /** Metrics that accumulate over a day; every other metric is a reading to average. */
  const SumMetrics: set<string> := {"mindful_minutes", "alcohol_consumption"}

  function PolicyFor(name: string): (p: Policy)
    ensures p == SumPerDay <==> name == "mindful_minutes" || name == "alcohol_consumption"
  {
    if name in SumMetrics then SumPerDay else MeanPerDay
  }

  /** A point is kept when it has a date and a non-null value under `key`. */
  function QtyReader(key: string): DataPoint -> Option<Row>
  {
    (p: DataPoint) => if p.date.Some? && key in p.fields then Some(Row(ToDay(p.date.value), p.fields[key])) else None
  }

  /** The extracted series: one value per day that has a kept point. */
  function MetricSeries(ps: seq<Payload>, name: string, key: string): map<Day, real>
  {
    ByDay(PayloadRows(ps, name, QtyReader(key)), PolicyFor(name))
  }

  method ExtractMetricSeries(ps: seq<Payload>, name: string, key: string) returns (m: map<Day, real>)
    ensures m == MetricSeries(ps, name, key)
  {
    var rows := CollectRows(ps, name, QtyReader(key));
    m := AggregateByDay(rows, PolicyFor(name));
  }

  /** The series has an entry for day `d` exactly when some payload holds a point of
      that metric with a date on day `d` and a value under `key`. */
  lemma {:induction false} MetricSeriesDays(ps: seq<Payload>, name: string, key: string, d: Day)
    ensures d in MetricSeries(ps, name, key) <==>
      exists i, j, k :: 0 <= i < |ps| && 0 <= j < |RootOf(ps[i]).metrics|
                        && RootOf(ps[i]).metrics[j].name == name
                        && 0 <= k < |RootOf(ps[i]).metrics[j].data|
                        && RootOf(ps[i]).metrics[j].data[k].date.Some?
                        && key in RootOf(ps[i]).metrics[j].data[k].fields
                        && ToDay(RootOf(ps[i]).metrics[j].data[k].date.value) == d
  {
    var rows := PayloadRows(ps, name, QtyReader(key));
    if d in MetricSeries(ps, name, key) {
      var n :| 0 <= n < |rows| && rows[n].day == d;
      PayloadRowsMembership(ps, name, QtyReader(key), rows[n]);
      var i, j, k :| PayloadPoint(ps, name, QtyReader(key), rows[n], i, j, k);
      assert RootOf(ps[i]).metrics[j].data[k].date.Some?;
    }
    if exists i, j, k :: 0 <= i < |ps| && 0 <= j < |RootOf(ps[i]).metrics|
                         && RootOf(ps[i]).metrics[j].name == name
                         && 0 <= k < |RootOf(ps[i]).metrics[j].data|
                         && RootOf(ps[i]).metrics[j].data[k].date.Some?
                         && key in RootOf(ps[i]).metrics[j].data[k].fields
                         && ToDay(RootOf(ps[i]).metrics[j].data[k].date.value) == d {
      var i, j, k :| 0 <= i < |ps| && 0 <= j < |RootOf(ps[i]).metrics|
                     && RootOf(ps[i]).metrics[j].name == name
                     && 0 <= k < |RootOf(ps[i]).metrics[j].data|
                     && RootOf(ps[i]).metrics[j].data[k].date.Some?
                     && key in RootOf(ps[i]).metrics[j].data[k].fields
                     && ToDay(RootOf(ps[i]).metrics[j].data[k].date.value) == d;
      var p := RootOf(ps[i]).metrics[j].data[k];
      var r := Row(d, p.fields[key]);
      assert QtyReader(key)(p) == Some(r);
      assert PayloadPoint(ps, name, QtyReader(key), r, i, j, k);
      PayloadRowsMembership(ps, name, QtyReader(key), r);
      var n :| 0 <= n < |rows| && rows[n] == r;
      assert d in DaysOf(rows);
    }
  }

  /** Two same-day values 5 and 3 give 8 for the additive alcohol metric and the mean
      4 for heart-rate variability. */
  lemma {:induction false} SameDayAggregation(t1: Timestamp, t2: Timestamp)
    requires ToDay(t1) == ToDay(t2)
    ensures var ps := [SameDayPayload("alcohol_consumption", t1, t2)];
            MetricSeries(ps, "alcohol_consumption", DefaultValueKey) == map[ToDay(t1) := 8.0]
    ensures var ps := [SameDayPayload("heart_rate_variability", t1, t2)];
            MetricSeries(ps, "heart_rate_variability", DefaultValueKey) == map[ToDay(t1) := 4.0]
  {
    var d := ToDay(t1);
    var rows := [Row(d, 5.0), Row(d, 3.0)];
    SameDayRows("alcohol_consumption", t1, t2);
    SameDayRows("heart_rate_variability", t1, t2);
    assert PolicyFor("alcohol_consumption") == SumPerDay;
    assert PolicyFor("heart_rate_variability") == MeanPerDay;
    SameDayTotals(d);
    OneDay(rows, d);
  }

  /** The aggregate of rows that all fall on one day. */
  lemma {:induction false} OneDay(rows: seq<Row>, d: Day)
    requires DaysOf(rows) == {d} && SumOn(rows, d) == 8.0 && CountOn(rows, d) == 2
    ensures ByDay(rows, SumPerDay) == map[d := 8.0]
    ensures ByDay(rows, MeanPerDay) == map[d := 4.0]
  {
  }

  /** The rows collected from the two-point payload. */
  lemma {:induction false} SameDayRows(name: string, t1: Timestamp, t2: Timestamp)
    requires ToDay(t1) == ToDay(t2)
    ensures PayloadRows([SameDayPayload(name, t1, t2)], name, QtyReader(DefaultValueKey))
            == [Row(ToDay(t1), 5.0), Row(ToDay(t1), 3.0)]
  {
    var ps := [SameDayPayload(name, t1, t2)];
    var m := RootOf(ps[0]).metrics;
    var pts := m[0].data;
    assert pts[..1] == [pts[0]];
    assert FilterMap(pts, QtyReader(DefaultValueKey)) == [Row(ToDay(t1), 5.0), Row(ToDay(t1), 3.0)];
    assert m[..0] == [];
    assert MetricsRows(m, name, QtyReader(DefaultValueKey)) == [Row(ToDay(t1), 5.0), Row(ToDay(t1), 3.0)];
    assert ps[..0] == [];
  }

  /** The two rows share one day, with sum 8 over 2 rows. */
  lemma {:induction false} SameDayTotals(d: Day)
    ensures var rows := [Row(d, 5.0), Row(d, 3.0)];
            DaysOf(rows) == {d} && SumOn(rows, d) == 8.0 && CountOn(rows, d) == 2
  {
    var rows := [Row(d, 5.0), Row(d, 3.0)];
    assert rows[..1] == [rows[0]];
    assert rows[..1][..0] == [];
    assert SumOn(rows[..1], d) == 5.0;
    assert CountOn(rows[..1], d) == 1;
  }

  /** A flat payload with one metric of the given name holding values 5 and 3. */
  function SameDayPayload(name: string, t1: Timestamp, t2: Timestamp): Payload
  {
    var pts := [DataPoint(Some(t1), map[DefaultValueKey := 5.0]), DataPoint(Some(t2), map[DefaultValueKey := 3.0])];
    Payload(None, Root([Metric(name, pts)], []))
  }

  // ---------------------------------------------------------------------------
  // extract_sleep_analysis
  // ---------------------------------------------------------------------------

  const SleepMetric: string := "sleep_analysis"

  /** One collected sleep row: total sleep and time awake, in hours. */
  datatype SleepRow = SleepRow(day: Day, total: real, awake: real)

  /** A day's mean total sleep and mean time awake. */
  datatype SleepDay = SleepDay(total: real, awake: real)

  /** A point is kept when it has a date and a non-null `totalSleep`; a missing, null
      or zero `awake` counts as 0. */
  function SleepReader(p: DataPoint): Option<SleepRow>
  {
    if p.date.Some? && "totalSleep" in p.fields then
      Some(SleepRow(ToDay(p.date.value), p.fields["totalSleep"],
                    if "awake" in p.fields then p.fields["awake"] else 0.0))
    else None
  }

  function Totals(rows: seq<SleepRow>): (r: seq<Row>)
    ensures |r| == |rows| && forall i :: 0 <= i < |rows| ==> r[i] == Row(rows[i].day, rows[i].total)
  {
    seq(|rows|, i requires 0 <= i < |rows| => Row(rows[i].day, rows[i].total))
  }

  function Awakes(rows: seq<SleepRow>): (r: seq<Row>)
    ensures |r| == |rows| && forall i :: 0 <= i < |rows| ==> r[i] == Row(rows[i].day, rows[i].awake)
  {
    seq(|rows|, i requires 0 <= i < |rows| => Row(rows[i].day, rows[i].awake))
  }

  /** Both columns of the sleep rows fall on the same days. */
  lemma {:induction false} SameSleepDays(rows: seq<SleepRow>)
    ensures DaysOf(Totals(rows)) == DaysOf(Awakes(rows))
  {
    var t, a := Totals(rows), Awakes(rows);
    forall d | d in DaysOf(t) ensures d in DaysOf(a) {
      var i :| 0 <= i < |t| && t[i].day == d;
      assert a[i].day == d;
    }
    forall d | d in DaysOf(a) ensures d in DaysOf(t) {
      var i :| 0 <= i < |a| && a[i].day == d;
      assert t[i].day == d;
    }
  }

  /** The sleep table: per day, the mean of each column over that day's rows. */
  function SleepByDay(rows: seq<SleepRow>): map<Day, SleepDay>
  {
    SameSleepDays(rows);
    var t := ByDay(Totals(rows), MeanPerDay);
    var a := ByDay(Awakes(rows), MeanPerDay);
    map d | d in t :: SleepDay(t[d], a[d])
  }

  function SleepAnalysis(ps: seq<Payload>): map<Day, SleepDay>
  {
    SleepByDay(PayloadRows(ps, SleepMetric, SleepReader))
  }

  method ExtractSleepAnalysis(ps: seq<Payload>) returns (m: map<Day, SleepDay>)
    ensures m == SleepAnalysis(ps)
  {
    var rows := CollectRows(ps, SleepMetric, SleepReader);
    var t := AggregateByDay(Totals(rows), MeanPerDay);
    var a := AggregateByDay(Awakes(rows), MeanPerDay);
    SameSleepDays(rows);
    m := map d | d in t :: SleepDay(t[d], a[d]);
  }

  /** A day's sleep figures are means of its rows, so each stays within any bounds
      that hold for that figure on every row: non-negative inputs give non-negative
      daily figures. */
  lemma {:induction false} SleepDayWithinRows(rows: seq<SleepRow>, tlo: real, thi: real, alo: real, ahi: real)
    requires forall i :: 0 <= i < |rows| ==> tlo <= rows[i].total <= thi && alo <= rows[i].awake <= ahi
    ensures forall d :: d in SleepByDay(rows) ==>
      tlo <= SleepByDay(rows)[d].total <= thi && alo <= SleepByDay(rows)[d].awake <= ahi
  {
    MeanWithinBounds(Totals(rows), tlo, thi);
    MeanWithinBounds(Awakes(rows), alo, ahi);
    SameSleepDays(rows);
  }
}
