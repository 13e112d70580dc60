/** The dashboard's trend columns: a short and a baseline rolling mean of the HRV and
    resting-heart-rate series over the whole history, their difference, and the
    flag rules that turn the latest difference into a flag. Rolling windows count
    positions in the series of present values, not calendar days. */
module Trends {
  import opened Common
  import opened Daily
  import Aggregate
  import opened Targets

  // ---------------------------------------------------------------------------
  // The series of present values
  // ---------------------------------------------------------------------------

  /** One `(date, value)` row of `df[["date", col]].dropna()`. */
  datatype Point = Point(date: Day, value: real)

  /** The rows that have a value in column `c`, in row order. */
  function Present(rows: seq<DailyRow>, c: Column): (pts: seq<Point>)
    ensures |pts| <= |rows|
  {
    if rows == [] then []
    else
      var last := rows[|rows| - 1];
      Present(rows[..|rows| - 1], c) + (if c in last.cells then [Point(last.date, last.cells[c])] else [])
  }

  /** A point is kept exactly when some row of its day holds that value in `c`. */
  lemma {:induction false} PresentMembership(rows: seq<DailyRow>, c: Column, p: Point)
    ensures p in Present(rows, c) <==>
            exists i :: 0 <= i < |rows| && rows[i].date == p.date && c in rows[i].cells && rows[i].cells[c] == p.value
  {
    if rows != [] {
      var init, last := rows[..|rows| - 1], rows[|rows| - 1];
      PresentMembership(init, c, p);
      if exists i :: 0 <= i < |rows| && rows[i].date == p.date && c in rows[i].cells && rows[i].cells[c] == p.value {
        var i :| 0 <= i < |rows| && rows[i].date == p.date && c in rows[i].cells && rows[i].cells[c] == p.value;
        if i < |rows| - 1 {
          assert init[i] == rows[i];
        }
      }
      if p in Present(init, c) {
        var i :| 0 <= i < |init| && init[i].date == p.date && c in init[i].cells && init[i].cells[c] == p.value;
        assert rows[i] == init[i];
      }
    }
  }

  predicate DatesIncreasing(pts: seq<Point>)
  {
    forall i, j :: 0 <= i < j < |pts| ==> pts[i].date < pts[j].date
  }

  /** Dropping rows keeps the days in ascending order. */
  lemma {:induction false} PresentIncreasing(rows: seq<DailyRow>, c: Column)
    requires StrictlyIncreasing(Dates(rows))
    ensures DatesIncreasing(Present(rows, c))
    ensures forall i :: 0 <= i < |Present(rows, c)| ==> Present(rows, c)[i].date in Dates(rows)
  {
    if rows != [] {
      var init, last := rows[..|rows| - 1], rows[|rows| - 1];
      var ds := Dates(rows);
      assert Dates(init) == ds[..|rows| - 1];
      PresentIncreasing(init, c);
      var p := Present(init, c);
      forall i | 0 <= i < |p| ensures p[i].date < last.date {
        assert p[i].date in Dates(init);
        var m :| 0 <= m < |init| && Dates(init)[m] == p[i].date;
        assert ds[m] < ds[|rows| - 1];
      }
      assert last.date == ds[|rows| - 1];
    }
  }

  /** The values of the points, in order. */
  function Values(pts: seq<Point>): (vs: seq<real>)
    ensures |vs| == |pts| && forall i :: 0 <= i < |pts| ==> vs[i] == pts[i].value
  {
    seq(|pts|, i requires 0 <= i < |pts| => pts[i].value)
  }

  // ---------------------------------------------------------------------------
  // Rolling means
  // ---------------------------------------------------------------------------

  function Sum(s: seq<real>): real
  {
    if s == [] then 0.0 else Sum(s[..|s| - 1]) + s[|s| - 1]
  }

  /** A sum is bounded by its length times any bounds of its elements. */
  lemma {:induction false} SumBounds(s: seq<real>, lo: real, hi: real)
    requires forall i :: 0 <= i < |s| ==> lo <= s[i] <= hi
    ensures lo * |s| as real <= Sum(s) <= hi * |s| as real
  {
    if s != [] {
      var init := s[..|s| - 1];
      assert forall i :: 0 <= i < |init| ==> init[i] == s[i];
      SumBounds(init, lo, hi);
      var n := |init| as real;
      assert |s| as real == n + 1.0;
      assert Sum(s) == Sum(init) + s[|s| - 1];
      assert lo * (n + 1.0) == lo * n + lo;
      assert hi * (n + 1.0) == hi * n + hi;
    }
  }

  /** The mean of a non-empty sequence lies between any bounds of its elements. */
  lemma {:induction false} MeanBounds(w: seq<real>, lo: real, hi: real)
    requires |w| > 0
    requires forall j :: 0 <= j < |w| ==> lo <= w[j] <= hi
    ensures lo <= Sum(w) / |w| as real <= hi
  {
    SumBounds(w, lo, hi);
    Aggregate.DivideAtLeast(Sum(w), |w| as real, lo);
    Aggregate.DivideAtMost(Sum(w), |w| as real, hi);
  }

  function Min(a: nat, b: nat): nat
  {
    if a <= b then a else b
  }

  /** The trailing window of at most `n` values that ends at position `k`. */
  function Window(s: seq<real>, k: nat, n: nat): (w: seq<real>)
    requires k < |s|
    ensures |w| == Min(n, k + 1)
    ensures forall j :: 0 <= j < |w| ==> w[j] == s[k + 1 - |w| + j]
  {
    s[k + 1 - Min(n, k + 1)..k + 1]
  }

  /** `series.rolling(n, min_periods=minp).mean()` at position `k`: the mean of the
      window once it holds at least `minp` values, undefined before. pandas refuses
      a `min_periods` larger than the window. */
  function RollingAt(s: seq<real>, k: nat, n: nat, minp: nat): (r: Option<real>)
    requires k < |s| && minp <= n
  {
    var w := Window(s, k, n);
    if |w| >= minp && |w| > 0 then Some(Sum(w) / |w| as real) else None
  }

  /** The rolling mean is defined exactly from position `minp - 1` on, and is then the
      mean of the last `min(n, k + 1)` values. */
  lemma {:induction false} RollingDefined(s: seq<real>, k: nat, n: nat, minp: nat)
    requires k < |s| && 1 <= n && minp <= n
    ensures RollingAt(s, k, n, minp).Some? <==> k + 1 >= minp
    ensures RollingAt(s, k, n, minp).Some? ==>
              RollingAt(s, k, n, minp).value == Sum(s[k + 1 - Min(n, k + 1)..k + 1]) / Min(n, k + 1) as real
  {
    var w := Window(s, k, n);
    assert |w| > 0;
  }

  /** A rolling mean lies between any bounds of the values in its window. */
  lemma {:induction false} RollingWithinBounds(s: seq<real>, k: nat, n: nat, minp: nat, lo: real, hi: real)
    requires k < |s| && minp <= n
    requires forall i :: 0 <= i < |s| ==> lo <= s[i] <= hi
    ensures RollingAt(s, k, n, minp).Some? ==> lo <= RollingAt(s, k, n, minp).value <= hi
  {
    var w := Window(s, k, n);
    if |w| >= minp && |w| > 0 {
      forall j | 0 <= j < |w| ensures lo <= w[j] <= hi {
        assert w[j] == s[k + 1 - |w| + j];
      }
      MeanBounds(w, lo, hi);
    }
  }

  /** What a window sees depends only on the values up to its end. */
  lemma {:induction false} WindowPrefix(s: seq<real>, m: nat, k: nat, n: nat)
    requires k < m <= |s|
    ensures Window(s[..m], k, n) == Window(s, k, n)
  {
  }

  // ---------------------------------------------------------------------------
  // Baseline deltas
  // ---------------------------------------------------------------------------

  /** How the short mean is compared with the baseline: HRV as a percentage of the
      baseline, resting heart rate as a plain difference. */
  datatype DeltaRule = PercentChange | Difference

  /** The delta, undefined when either mean is; a percentage of a zero baseline is
      undefined too. */
  function Delta(rule: DeltaRule, short: Option<real>, base: Option<real>): (r: Option<real>)
    ensures r.Some? <==> short.Some? && base.Some? && (rule == PercentChange ==> base.value != 0.0)
    ensures r.Some? && rule == Difference ==> base.value + r.value == short.value
    ensures r.Some? && rule == PercentChange ==> base.value * (100.0 + r.value) == 100.0 * short.value
  {
    if short.None? || base.None? then None
    else
      match rule
      case Difference => Some(short.value - base.value)
      case PercentChange =>
        if base.value == 0.0 then None
        else Some(100.0 * (short.value - base.value) / base.value)
  }

  /** Against a positive baseline, the percentage is negative exactly when the short
      mean has fallen below the baseline, and at most `-p` exactly when it has fallen
      by at least `p` percent. */
  lemma {:induction false} PercentChangeSign(short: real, base: real, p: real)
    requires base > 0.0
    ensures Delta(PercentChange, Some(short), Some(base)).value < 0.0 <==> short < base
    ensures Delta(PercentChange, Some(short), Some(base)).value <= -p <==> short <= base * (1.0 - p / 100.0)
  {
    var d := Delta(PercentChange, Some(short), Some(base)).value;
    assert base * (100.0 + d) == 100.0 * short;
    ScaleOrder(d, 0.0, base);
    ScaleOrder(d, -p, base);
  }

  /** Multiplying by a positive factor keeps the order. */
  lemma ScaleOrder(x: real, y: real, b: real)
    requires b > 0.0
    ensures x < y <==> b * x < b * y
    ensures x <= y <==> b * x <= b * y
  {
    if x < y {
      assert b * y - b * x == b * (y - x);
    }
    if y < x {
      assert b * x - b * y == b * (x - y);
    }
  }

  // ---------------------------------------------------------------------------
  // The trend columns
  // ---------------------------------------------------------------------------

  const ShortWindow: nat := 7
  const ShortMinPeriods: nat := 4
  const BaseWindow: nat := 30
  const BaseMinPeriods: nat := 14

  /** One trend block: the source column, the two columns it adds and the delta rule. */
  datatype Trend = Trend(source: Column, short: Column, delta: Column, rule: DeltaRule)

  function HrvTrend(): Trend
  {
    Trend(MetricCol(Hrv), Hrv7, HrvDeltaPct, PercentChange)
  }

  function RhrTrend(): Trend
  {
    Trend(MetricCol(Rhr), Rhr7, RhrDelta, Difference)
  }

  predicate Distinct(tr: Trend)
  {
    tr.short != tr.delta
  }

  /** The trend cells of the point at position `k`: the short mean when defined and
      the delta when defined. */
  function TrendCellsAt(vs: seq<real>, k: nat, tr: Trend): (cells: Cells)
    requires k < |vs|
    ensures cells.Keys <= {tr.short, tr.delta}
  {
    var short := RollingAt(vs, k, ShortWindow, ShortMinPeriods);
    var base := RollingAt(vs, k, BaseWindow, BaseMinPeriods);
    var delta := Delta(tr.rule, short, base);
    (if short.Some? then map[tr.short := short.value] else map[])
      + (if delta.Some? then map[tr.delta := delta.value] else map[])
  }

  /** The short mean is present from the fourth value on, the delta from the
      fourteenth (for a percentage, when the baseline is not zero), each with its
      defining value. */
  lemma {:induction false} TrendCellsFacts(vs: seq<real>, k: nat, tr: Trend)
    requires k < |vs| && Distinct(tr)
    ensures tr.short in TrendCellsAt(vs, k, tr) <==> k + 1 >= ShortMinPeriods
    ensures tr.short in TrendCellsAt(vs, k, tr) ==>
              TrendCellsAt(vs, k, tr)[tr.short] == RollingAt(vs, k, ShortWindow, ShortMinPeriods).value
    ensures tr.delta in TrendCellsAt(vs, k, tr) ==> k + 1 >= BaseMinPeriods
    ensures tr.delta in TrendCellsAt(vs, k, tr) <==>
              Delta(tr.rule, RollingAt(vs, k, ShortWindow, ShortMinPeriods), RollingAt(vs, k, BaseWindow, BaseMinPeriods)).Some?
    ensures tr.delta in TrendCellsAt(vs, k, tr) ==>
              Some(TrendCellsAt(vs, k, tr)[tr.delta])
                == Delta(tr.rule, RollingAt(vs, k, ShortWindow, ShortMinPeriods), RollingAt(vs, k, BaseWindow, BaseMinPeriods))
  {
    RollingDefined(vs, k, ShortWindow, ShortMinPeriods);
    RollingDefined(vs, k, BaseWindow, BaseMinPeriods);
  }

  /** `full[["date", short, delta]]` keyed by day. */
  function TrendTable(pts: seq<Point>, tr: Trend): (m: map<Day, Cells>)
  {
    if pts == [] then map[]
    else TrendTable(pts[..|pts| - 1], tr)[pts[|pts| - 1].date := TrendCellsAt(Values(pts), |pts| - 1, tr)]
  }

  /** On ascending days, the table has exactly the days of the points, and the row of
      the point at position `k` holds the trend cells of position `k`. */
  lemma {:induction false} TrendTableAt(pts: seq<Point>, tr: Trend, k: nat)
    requires DatesIncreasing(pts) && k < |pts|
    ensures pts[k].date in TrendTable(pts, tr)
    ensures TrendTable(pts, tr)[pts[k].date] == TrendCellsAt(Values(pts), k, tr)
  {
    var init := pts[..|pts| - 1];
    if k < |pts| - 1 {
      TrendTableAt(init, tr, k);
      assert init[k] == pts[k];
      assert pts[k].date != pts[|pts| - 1].date;
      TrendCellsPrefix(pts, k, tr);
    }
  }

  /** The trend cells of a position depend only on the points up to it. */
  lemma {:induction false} TrendCellsPrefix(pts: seq<Point>, k: nat, tr: Trend)
    requires k < |pts| - 1
    ensures TrendCellsAt(Values(pts[..|pts| - 1]), k, tr) == TrendCellsAt(Values(pts), k, tr)
  {
    var vs := Values(pts);
    assert Values(pts[..|pts| - 1]) == vs[..|pts| - 1];
    WindowPrefix(vs, |pts| - 1, k, ShortWindow);
    WindowPrefix(vs, |pts| - 1, k, BaseWindow);
  }

  lemma {:induction false} TrendTableDays(pts: seq<Point>, tr: Trend, d: Day)
    ensures d in TrendTable(pts, tr) <==> exists k :: 0 <= k < |pts| && pts[k].date == d
  {
    if pts != [] {
      var init, last := pts[..|pts| - 1], pts[|pts| - 1];
      TrendTableDays(init, tr, d);
      assert TrendTable(pts, tr).Keys == TrendTable(init, tr).Keys + {last.date};
      assert (exists k :: 0 <= k < |pts| && pts[k].date == d) ==> d in TrendTable(pts, tr) by {
        if exists k :: 0 <= k < |pts| && pts[k].date == d {
          var k :| 0 <= k < |pts| && pts[k].date == d;
          if k < |pts| - 1 {
            assert init[k] == pts[k];
          }
        }
      }
      assert d in TrendTable(pts, tr) ==> exists k :: 0 <= k < |pts| && pts[k].date == d by {
        if d in TrendTable(pts, tr) {
          if d == last.date {
            assert pts[|pts| - 1].date == d;
          } else {
            var k :| 0 <= k < |init| && init[k].date == d;
            assert pts[k] == init[k];
          }
        }
      }
    }
  }

  /** `dff.merge(full[...], on="date", how="left")`: each row keeps its cells and gains
      the trend cells of its day, if the day has any. */
  function MergeLeft(rows: seq<DailyRow>, table: map<Day, Cells>): (r: seq<DailyRow>)
    ensures |r| == |rows|
  {
    seq(|rows|, i requires 0 <= i < |rows| =>
      DailyRow(rows[i].date, rows[i].cells + (if rows[i].date in table then table[rows[i].date] else map[])))
  }

  /** One trend block applied to the displayed rows `dff`, computed over the whole
      history `df`; nothing happens when `dff` lacks the source column. */
  function WithTrend(dff: Frame, df: Frame, tr: Trend): (r: Frame)
    ensures tr.source !in dff.columns ==> r == dff
    ensures tr.source in dff.columns ==> r.columns == dff.columns + {tr.short, tr.delta}
    ensures |r.rows| == |dff.rows|
  {
    if tr.source !in dff.columns then dff
    else
      var full := Present(df.rows, tr.source);
      Frame(dff.columns + {tr.short, tr.delta}, MergeLeft(dff.rows, TrendTable(full, tr)))
  }

  /** Both trend blocks in order, rebinding `dff` each time. */
  method AddTrends(df: Frame, dff: Frame) returns (out: Frame)
    ensures out == WithTrend(WithTrend(dff, df, HrvTrend()), df, RhrTrend())
  {
    out := dff;
    var hrv := HrvTrend();
    if hrv.source in out.columns {
      var full := Present(df.rows, hrv.source);
      out := Frame(out.columns + {hrv.short, hrv.delta}, MergeLeft(out.rows, TrendTable(full, hrv)));
    }
    var rhr := RhrTrend();
    if rhr.source in out.columns {
      var full := Present(df.rows, rhr.source);
      out := Frame(out.columns + {rhr.short, rhr.delta}, MergeLeft(out.rows, TrendTable(full, rhr)));
    }
  }

  /** A trend block keeps every row's day and every cell outside its own two columns. */
  lemma {:induction false} WithTrendKeeps(dff: Frame, df: Frame, tr: Trend, i: nat, c: Column)
    requires i < |dff.rows| && c != tr.short && c != tr.delta
    ensures WithTrend(dff, df, tr).rows[i].date == dff.rows[i].date
    ensures c in WithTrend(dff, df, tr).rows[i].cells <==> c in dff.rows[i].cells
    ensures c in dff.rows[i].cells ==> WithTrend(dff, df, tr).rows[i].cells[c] == dff.rows[i].cells[c]
  {
    if tr.source in dff.columns {
      var t := TrendTable(Present(df.rows, tr.source), tr);
      var d := dff.rows[i].date;
      if d in t {
        assert t[d].Keys <= {tr.short, tr.delta} by {
          var full := Present(df.rows, tr.source);
          TrendTableDays(full, tr, d);
          TrendTableKeys(full, tr, d);
        }
      }
    }
  }

  lemma {:induction false} TrendTableKeys(pts: seq<Point>, tr: Trend, d: Day)
    requires d in TrendTable(pts, tr)
    ensures TrendTable(pts, tr)[d].Keys <= {tr.short, tr.delta}
  {
    var init := pts[..|pts| - 1];
    if d != pts[|pts| - 1].date {
      TrendTableKeys(init, tr, d);
    }
  }

  /** On a full history with ascending days, a displayed row whose day has a value at
      position `k` of the source series gets the short mean of position `k` exactly
      from the fourth value on, and the delta of position `k`; a row whose day has no
      source value gains nothing. */
  lemma {:induction false} WithTrendCells(dff: Frame, df: Frame, tr: Trend, i: nat)
    requires StrictlyIncreasing(Dates(df.rows)) && Distinct(tr)
    requires tr.source in dff.columns && i < |dff.rows|
    requires tr.short !in dff.rows[i].cells && tr.delta !in dff.rows[i].cells
    ensures var full := Present(df.rows, tr.source);
            var cells := WithTrend(dff, df, tr).rows[i].cells;
            (forall k :: 0 <= k < |full| && full[k].date == dff.rows[i].date ==>
               (tr.short in cells <==> k + 1 >= ShortMinPeriods)
               && (tr.short in cells ==> cells[tr.short] == RollingAt(Values(full), k, ShortWindow, ShortMinPeriods).value)
               && (tr.delta in cells <==>
                     Delta(tr.rule, RollingAt(Values(full), k, ShortWindow, ShortMinPeriods),
                                    RollingAt(Values(full), k, BaseWindow, BaseMinPeriods)).Some?)
               && (tr.delta in cells ==>
                     Some(cells[tr.delta])
                       == Delta(tr.rule, RollingAt(Values(full), k, ShortWindow, ShortMinPeriods),
                                         RollingAt(Values(full), k, BaseWindow, BaseMinPeriods))))
            && ((forall k :: 0 <= k < |full| ==> full[k].date != dff.rows[i].date) ==>
                  tr.short !in cells && tr.delta !in cells)
  {
    var full := Present(df.rows, tr.source);
    var d := dff.rows[i].date;
    var table := TrendTable(full, tr);
    var base := dff.rows[i].cells;
    var cells := WithTrend(dff, df, tr).rows[i].cells;
    assert cells == base + (if d in table then table[d] else map[]);
    PresentIncreasing(df.rows, tr.source);
    TrendTableDays(full, tr, d);
    forall k | 0 <= k < |full| && full[k].date == d
      ensures (tr.short in cells <==> k + 1 >= ShortMinPeriods)
              && (tr.short in cells ==> cells[tr.short] == RollingAt(Values(full), k, ShortWindow, ShortMinPeriods).value)
              && (tr.delta in cells <==>
                    Delta(tr.rule, RollingAt(Values(full), k, ShortWindow, ShortMinPeriods),
                                   RollingAt(Values(full), k, BaseWindow, BaseMinPeriods)).Some?)
              && (tr.delta in cells ==>
                    Some(cells[tr.delta])
                      == Delta(tr.rule, RollingAt(Values(full), k, ShortWindow, ShortMinPeriods),
                                        RollingAt(Values(full), k, BaseWindow, BaseMinPeriods)))
    {
      TrendTableAt(full, tr, k);
      TrendCellsFacts(Values(full), k, tr);
      AddedCells(base, table[d], tr);
    }
  }

  /** Adding trend cells to a row without them: the row has a trend column exactly
      when the added cells have it, with the added value. */
  lemma {:induction false} AddedCells(base: Cells, extra: Cells, tr: Trend)
    requires tr.short !in base && tr.delta !in base
    ensures tr.short in base + extra <==> tr.short in extra
    ensures tr.short in extra ==> (base + extra)[tr.short] == extra[tr.short]
    ensures tr.delta in base + extra <==> tr.delta in extra
    ensures tr.delta in extra ==> (base + extra)[tr.delta] == extra[tr.delta]
  {
  }

  // ---------------------------------------------------------------------------
  // Trend flags
  // ---------------------------------------------------------------------------

  /** The HRV flag: off target once the delta is at most -10 percent, borderline once
      it is at most -5, on target otherwise and when there is no delta. */
  method HrvFlag(delta: Option<real>) returns (flag: string)
    ensures flag == OffTarget <==> delta.Some? && delta.value <= -10.0
    ensures flag == Borderline <==> delta.Some? && -10.0 < delta.value <= -5.0
    ensures flag == OnTarget <==> delta.None? || delta.value > -5.0
  {
    flag := OnTarget;
    if delta.Some? && delta.value <= -10.0 {
      flag := OffTarget;
    } else if delta.Some? && delta.value <= -5.0 {
      flag := Borderline;
    }
  }

  /** The RHR flag: off target once the delta is at least 3 bpm, borderline once it
      is at least 2, on target otherwise and when there is no delta. */
  method RhrFlag(delta: Option<real>) returns (flag: string)
    ensures flag == OffTarget <==> delta.Some? && delta.value >= 3.0
    ensures flag == Borderline <==> delta.Some? && 2.0 <= delta.value < 3.0
    ensures flag == OnTarget <==> delta.None? || delta.value < 2.0
  {
    flag := OnTarget;
    if delta.Some? && delta.value >= 3.0 {
      flag := OffTarget;
    } else if delta.Some? && delta.value >= 2.0 {
      flag := Borderline;
    }
  }
}
