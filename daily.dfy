/** The daily merger: each source becomes a table keyed by day; the non-empty tables
    are outer-joined on the day one after the other, and the result is ordered by day.
    Every source has its own columns, so a joined row is the union of the sources'
    cells for that day, and a missing cell is a missing key. */
module Daily {
  import opened Common
  import opened Payload
  import opened Extract
  import opened SleepScore
  import opened Workouts

  /** The value columns of the daily table, besides `date`. The last four are the
      trend columns the dashboard adds. */
  datatype Column =
    | Z1Min | Z2Min | Z3Min | Z4Min | Z5Min | CardioMin | Zone2Pct
    | Hrr1Col
    | MetricCol(kind: MetricKind)
    | SleepScoreDerived
    | Hrv7 | HrvDeltaPct | Rhr7 | RhrDelta

  /** The six metrics read from the export, each a column named after the metric. */
  datatype MetricKind = Hrv | Rhr | RespiratoryRate | BreathingDisturbances | MindfulMinutes | AlcoholConsumption

  function MetricName(k: MetricKind): string
  {
    match k
    case Hrv => "heart_rate_variability"
    case Rhr => "resting_heart_rate"
    case RespiratoryRate => "respiratory_rate"
    case BreathingDisturbances => "breathing_disturbances"
    case MindfulMinutes => "mindful_minutes"
    case AlcoholConsumption => "alcohol_consumption"
  }

  type Cells = map<Column, real>

  /** A table keyed by day: its columns and, per day, the cells it has. */
  datatype Table = Table(columns: set<Column>, rows: map<Day, Cells>)

  /** Every row only holds cells of the table's own columns. */
  predicate WellFormed(t: Table)
  {
    forall d :: d in t.rows ==> t.rows[d].Keys <= t.columns
  }

  // ---------------------------------------------------------------------------
  // The sources as tables
  // ---------------------------------------------------------------------------

  const ZoneColumns: set<Column> := {Z1Min, Z2Min, Z3Min, Z4Min, Z5Min, CardioMin, Zone2Pct}

  function ZoneCells(z: ZoneDay): (c: Cells)
    ensures c.Keys == ZoneColumns
  {
    map[Z1Min := z.zones.z1 as real, Z2Min := z.zones.z2 as real, Z3Min := z.zones.z3 as real,
        Z4Min := z.zones.z4 as real, Z5Min := z.zones.z5 as real,
        CardioMin := z.cardio as real, Zone2Pct := z.zone2Pct]
  }

  /** The daily zone table. */
  function ZoneTableOf(m: map<Day, ZoneDay>): (t: Table)
    ensures WellFormed(t) && t.rows.Keys == m.Keys
  {
    Table(ZoneColumns, map d | d in m :: ZoneCells(m[d]))
  }

  /** A one-column table from a per-day series. */
  function SeriesTable(c: Column, m: map<Day, real>): (t: Table)
    ensures WellFormed(t) && t.columns == {c} && t.rows.Keys == m.Keys
    ensures forall d :: d in m ==> t.rows[d] == map[c := m[d]]
  {
    Table({c}, map d | d in m :: map[c := m[d]])
  }

  /** The nine per-source tables in the order they are merged: zone minutes, HRR1,
      the six metrics, the derived sleep score. */
  function Assemble(zones: map<Day, ZoneDay>, hrr: map<Day, real>,
                    hrv: map<Day, real>, rhr: map<Day, real>, rr: map<Day, real>,
                    bd: map<Day, real>, mm: map<Day, real>, alc: map<Day, real>,
                    score: map<Day, real>): (ts: seq<Table>)
    ensures |ts| == 9
  {
    [ZoneTableOf(zones), SeriesTable(Hrr1Col, hrr),
     SeriesTable(MetricCol(Hrv), hrv), SeriesTable(MetricCol(Rhr), rhr),
     SeriesTable(MetricCol(RespiratoryRate), rr), SeriesTable(MetricCol(BreathingDisturbances), bd),
     SeriesTable(MetricCol(MindfulMinutes), mm), SeriesTable(MetricCol(AlcoholConsumption), alc),
     SeriesTable(SleepScoreDerived, score)]
  }

  function MetricSeriesOf(ps: seq<Payload>, k: MetricKind): map<Day, real>
  {
    MetricSeries(ps, MetricName(k), DefaultValueKey)
  }

  /** The sources computed from the payloads. */
  function Sources(ps: seq<Payload>): (ts: seq<Table>)
    ensures |ts| == 9
  {
    var ss := Summaries(ps);
    Assemble(DailyZones(ss), DailyHrr(ss),
             MetricSeriesOf(ps, Hrv), MetricSeriesOf(ps, Rhr), MetricSeriesOf(ps, RespiratoryRate),
             MetricSeriesOf(ps, BreathingDisturbances), MetricSeriesOf(ps, MindfulMinutes),
             MetricSeriesOf(ps, AlcoholConsumption),
             DeriveSleepScore(SleepAnalysis(ps)))
  }

  predicate Disjoint(ts: seq<Table>)
  {
    forall i, j :: 0 <= i < j < |ts| ==> ts[i].columns !! ts[j].columns
  }

  predicate AllWellFormed(ts: seq<Table>)
  {
    forall i :: 0 <= i < |ts| ==> WellFormed(ts[i])
  }

  /** The columns of the nine sources, in merge order. */
  const SourceColumns: seq<set<Column>> := [
    ZoneColumns, {Hrr1Col}, {MetricCol(Hrv)}, {MetricCol(Rhr)}, {MetricCol(RespiratoryRate)},
    {MetricCol(BreathingDisturbances)}, {MetricCol(MindfulMinutes)}, {MetricCol(AlcoholConsumption)},
    {SleepScoreDerived}
  ]

  /** The sources never share a column, so the join needs no suffixes. */
  lemma {:induction false} AssembleDisjoint(zones: map<Day, ZoneDay>, hrr: map<Day, real>,
                         hrv: map<Day, real>, rhr: map<Day, real>, rr: map<Day, real>,
                         bd: map<Day, real>, mm: map<Day, real>, alc: map<Day, real>,
                         score: map<Day, real>)
    ensures var ts := Assemble(zones, hrr, hrv, rhr, rr, bd, mm, alc, score);
            Disjoint(ts) && AllWellFormed(ts)
  {
    var ts := Assemble(zones, hrr, hrv, rhr, rr, bd, mm, alc, score);
    assert forall i :: 0 <= i < 9 ==> ts[i].columns == SourceColumns[i];
    SourceColumnsDisjoint();
  }

  lemma {:induction false} SourcesDisjoint(ps: seq<Payload>)
    ensures Disjoint(Sources(ps)) && AllWellFormed(Sources(ps))
  {
    var ss := Summaries(ps);
    AssembleDisjoint(DailyZones(ss), DailyHrr(ss),
                     MetricSeriesOf(ps, Hrv), MetricSeriesOf(ps, Rhr), MetricSeriesOf(ps, RespiratoryRate),
                     MetricSeriesOf(ps, BreathingDisturbances), MetricSeriesOf(ps, MindfulMinutes),
                     MetricSeriesOf(ps, AlcoholConsumption),
                     DeriveSleepScore(SleepAnalysis(ps)));
  }

  lemma {:induction false} SourceColumnsDisjoint()
    ensures forall i, j :: 0 <= i < j < |SourceColumns| ==> SourceColumns[i] !! SourceColumns[j]
  {
  }

  // ---------------------------------------------------------------------------
  // The outer join
  // ---------------------------------------------------------------------------

  function CellsAt(t: Table, d: Day): Cells
  {
    if d in t.rows then t.rows[d] else map[]
  }

  /** `a.merge(b, on="date", how="outer")` on tables with disjoint columns. */
  function Join(a: Table, b: Table): Table
  {
    Table(a.columns + b.columns, map d | d in a.rows.Keys + b.rows.Keys :: CellsAt(a, d) + CellsAt(b, d))
  }

  /** The accumulated `base` after the tables `ts`: `None` while every table seen so
      far was empty. */
  function MergeAll(ts: seq<Table>): Option<Table>
  {
    if ts == [] then None
    else
      var base, t := MergeAll(ts[..|ts| - 1]), ts[|ts| - 1];
      if t.rows == map[] then base
      else if base.None? then Some(t)
      else Some(Join(base.value, t))
  }

  /** The merge loop, skipping empty tables. */
  method MergeOuter(dfs: seq<Table>) returns (base: Option<Table>)
    ensures base == MergeAll(dfs)
  {
    base := None;
    var i := 0;
    while i < |dfs|
      invariant 0 <= i <= |dfs|
      invariant base == MergeAll(dfs[..i])
    {
      var d := dfs[i];
      assert dfs[..i + 1][..i] == dfs[..i];
      if d.rows != map[] {
        base := if base.None? then Some(d) else Some(Join(base.value, d));
      }
      i := i + 1;
    }
    assert dfs[..i] == dfs;
  }

  /** There is no base exactly when every table is empty. */
  lemma {:induction false} MergeAllNone(ts: seq<Table>)
    ensures MergeAll(ts).None? <==> forall i :: 0 <= i < |ts| ==> ts[i].rows == map[]
  {
    if ts != [] {
      var init := ts[..|ts| - 1];
      MergeAllNone(init);
      assert forall i :: 0 <= i < |init| ==> init[i] == ts[i];
    }
  }

  /** The joined table has a row for exactly the days some table has, and the columns
      of exactly the non-empty tables. */
  lemma {:induction false} MergeAllShape(ts: seq<Table>)
    requires MergeAll(ts).Some?
    ensures forall d :: d in MergeAll(ts).value.rows <==> exists i :: 0 <= i < |ts| && d in ts[i].rows
    ensures forall c :: c in MergeAll(ts).value.columns <==>
      exists i :: 0 <= i < |ts| && ts[i].rows != map[] && c in ts[i].columns
  {
    var init, t := ts[..|ts| - 1], ts[|ts| - 1];
    assert forall i :: 0 <= i < |init| ==> init[i] == ts[i];
    MergeAllNone(init);
    if MergeAll(init).Some? {
      MergeAllShape(init);
    }
  }

  /** Every joined cell comes from some table. */
  lemma {:induction false} MergeAllCellsFrom(ts: seq<Table>)
    requires MergeAll(ts).Some?
    ensures var m := MergeAll(ts).value;
            forall d, c :: d in m.rows && c in m.rows[d] ==>
              exists i :: 0 <= i < |ts| && d in ts[i].rows && c in ts[i].rows[d]
                          && m.rows[d][c] == ts[i].rows[d][c]
  {
    var init, t := ts[..|ts| - 1], ts[|ts| - 1];
    var last := |ts| - 1;
    assert forall i :: 0 <= i < |init| ==> init[i] == ts[i];
    var m := MergeAll(ts).value;
    if t.rows != map[] && MergeAll(init).Some? {
      MergeAllCellsFrom(init);
      var b := MergeAll(init).value;
      forall d, c | d in m.rows && c in m.rows[d]
        ensures exists i :: 0 <= i < |ts| && d in ts[i].rows && c in ts[i].rows[d]
                            && m.rows[d][c] == ts[i].rows[d][c]
      {
        if c in CellsAt(t, d) {
          assert d in ts[last].rows && c in ts[last].rows[d];
          assert m.rows[d][c] == ts[last].rows[d][c];
        } else {
          assert d in b.rows && c in b.rows[d];
          assert m.rows[d][c] == b.rows[d][c];
          var i :| 0 <= i < |init| && d in init[i].rows && c in init[i].rows[d]
                   && b.rows[d][c] == init[i].rows[d][c];
          assert ts[i] == init[i];
        }
      }
    } else if t.rows == map[] {
      MergeAllCellsFrom(init);
    }
  }

  /** On tables with disjoint columns, every cell of a table reaches the joined table
      with its value. */
  lemma {:induction false} MergeAllCellTo(ts: seq<Table>, i: int, d: Day, c: Column)
    requires Disjoint(ts) && AllWellFormed(ts)
    requires 0 <= i < |ts| && d in ts[i].rows && c in ts[i].rows[d]
    ensures MergeAll(ts).Some? && d in MergeAll(ts).value.rows && c in MergeAll(ts).value.rows[d]
    ensures MergeAll(ts).value.rows[d][c] == ts[i].rows[d][c]
  {
    var init, t := ts[..|ts| - 1], ts[|ts| - 1];
    var last := |ts| - 1;
    assert forall n :: 0 <= n < |init| ==> init[n] == ts[n];
    if i == last {
      if MergeAll(init).Some? {
        var b := MergeAll(init).value;
        assert MergeAll(ts) == Some(Join(b, t));
        assert CellsAt(t, d) == t.rows[d];
      }
    } else {
      MergeAllCellTo(init, i, d, c);
      var b := MergeAll(init).value;
      if t.rows != map[] {
        assert c in ts[i].columns;
        assert c !in t.columns;
        assert c !in CellsAt(t, d);
        assert MergeAll(ts) == Some(Join(b, t));
      }
    }
  }

  // ---------------------------------------------------------------------------
  // Ordering by day
  // ---------------------------------------------------------------------------

  /** One row of the final table. */
  datatype DailyRow = DailyRow(date: Day, cells: Cells)

  /** The final table: its value columns and its rows in order. */
  datatype Frame = Frame(columns: set<Column>, rows: seq<DailyRow>)

  predicate StrictlyIncreasing(ds: seq<Day>)
  {
    forall i, j :: 0 <= i < j < |ds| ==> ds[i] < ds[j]
  }

  function Dates(rows: seq<DailyRow>): (ds: seq<Day>)
    ensures |ds| == |rows| && forall i :: 0 <= i < |rows| ==> ds[i] == rows[i].date
  {
    seq(|rows|, i requires 0 <= i < |rows| => rows[i].date)
  }

  /** `base.sort_values("date")`, or the empty table with only a `date` column when
      every source was empty: distinct days, ascending, each day of the joined table
      exactly once with its cells. */
  predicate IsDailyFrame(f: Frame, base: Option<Table>)
  {
    match base
    case None => f == Frame({}, [])
    case Some(t) =>
      && f.columns == t.columns
      && StrictlyIncreasing(Dates(f.rows))
      && (forall i :: 0 <= i < |f.rows| ==> f.rows[i].date in t.rows && f.rows[i].cells == t.rows[f.rows[i].date])
      && (forall d :: d in t.rows ==> exists i :: 0 <= i < |f.rows| && f.rows[i].date == d)
  }

  /** The smallest day of a non-empty set of days. */
  method MinDay(s: set<Day>) returns (m: Day)
    requires s != {}
    ensures m in s && forall x :: x in s ==> m <= x
  {
    Pick(s);
    m :| m in s;
    var rest := s - {m};
    while rest != {}
      invariant rest <= s && m in s
      invariant forall x :: x in s && x !in rest ==> m <= x
      decreases |rest|
    {
      Pick(rest);
      var x :| x in rest;
      if x < m {
        m := x;
      }
      rest := rest - {x};
    }
  }

  /** The days of a set in ascending order. */
  method SortedDays(keys: set<Day>) returns (ds: seq<Day>)
    ensures StrictlyIncreasing(ds)
    ensures forall d :: d in ds <==> d in keys
  {
    ds := [];
    var rest := keys;
    while rest != {}
      invariant rest <= keys
      invariant StrictlyIncreasing(ds)
      invariant forall d :: d in keys <==> d in ds || d in rest
      invariant forall i, x :: 0 <= i < |ds| && x in rest ==> ds[i] < x
      invariant forall d :: d in ds ==> d !in rest
      decreases |rest|
    {
      var m := MinDay(rest);
      ds := ds + [m];
      rest := rest - {m};
    }
  }

  /** The final sort, or the empty table. */
  method ToFrame(base: Option<Table>) returns (f: Frame)
    ensures IsDailyFrame(f, base)
  {
    if base.None? {
      return Frame({}, []);
    }
    var t := base.value;
    var ds := SortedDays(t.rows.Keys);
    assert forall i :: 0 <= i < |ds| ==> ds[i] in t.rows by {
      forall i | 0 <= i < |ds| ensures ds[i] in t.rows {
        assert ds[i] in ds;
      }
    }
    var rows := seq(|ds|, i requires 0 <= i < |ds| => DailyRow(ds[i], t.rows[ds[i]]));
    f := Frame(t.columns, rows);
    assert Dates(rows) == ds;
    forall d | d in t.rows ensures exists i :: 0 <= i < |f.rows| && f.rows[i].date == d {
      var i :| 0 <= i < |ds| && ds[i] == d;
      assert f.rows[i].date == d;
    }
  }

  /** Two ascending sequences of the same days are the same sequence. */
  lemma {:induction false} AscendingUnique(a: seq<Day>, b: seq<Day>)
    requires StrictlyIncreasing(a) && StrictlyIncreasing(b)
    requires forall d :: d in a <==> d in b
    ensures a == b
    decreases |a|
  {
    if a != [] {
      assert a[0] in a;
    }
    if b != [] {
      assert b[0] in b;
    }
    if a != [] && b != [] {
      assert a[0] == b[0] by {
        assert a[0] in a && b[0] in b;
        assert b[0] in a;
        assert a[0] in b;
      }
      assert forall d :: d in a[1..] <==> d in b[1..] by {
        forall d ensures d in a[1..] <==> d in b[1..] {
          if d in a[1..] { assert d > a[0]; assert d in b; }
          if d in b[1..] { assert d > b[0]; assert d in a; }
        }
      }
      AscendingUnique(a[1..], b[1..]);
      assert a == [a[0]] + a[1..] && b == [b[0]] + b[1..];
    }
  }

  /** Every day of an ordering is a day of the joined table, and the other way. */
  lemma {:induction false} DatesAreDays(f: Frame, t: Table, d: Day)
    requires IsDailyFrame(f, Some(t))
    ensures d in Dates(f.rows) <==> d in t.rows
  {
    var ds := Dates(f.rows);
    if d in ds {
      var i :| 0 <= i < |ds| && ds[i] == d;
      assert f.rows[i].date in t.rows;
    }
    if d in t.rows {
      var i :| 0 <= i < |f.rows| && f.rows[i].date == d;
      assert ds[i] == d;
    }
  }

  /** Rows with the same dates, each holding its day's cells, are the same rows. */
  lemma {:induction false} SameDatesSameRows(f1: Frame, f2: Frame, t: Table)
    requires IsDailyFrame(f1, Some(t)) && IsDailyFrame(f2, Some(t))
    requires Dates(f1.rows) == Dates(f2.rows)
    ensures f1.rows == f2.rows
  {
    var d1, d2 := Dates(f1.rows), Dates(f2.rows);
    forall i | 0 <= i < |f1.rows| ensures f1.rows[i] == f2.rows[i] {
      assert d1[i] == d2[i];
    }
  }

  /** The final table is determined by the joined table: any two orderings meeting
      `IsDailyFrame` are equal. */
  lemma {:induction false} DailyFrameUnique(f1: Frame, f2: Frame, base: Option<Table>)
    requires IsDailyFrame(f1, base) && IsDailyFrame(f2, base)
    ensures f1 == f2
  {
    if base.Some? {
      var t := base.value;
      forall d ensures d in Dates(f1.rows) <==> d in Dates(f2.rows) {
        DatesAreDays(f1, t, d);
        DatesAreDays(f2, t, d);
      }
      AscendingUnique(Dates(f1.rows), Dates(f2.rows));
      SameDatesSameRows(f1, f2, t);
    }
  }

  // ---------------------------------------------------------------------------
  // build_phase1_daily
  // ---------------------------------------------------------------------------

  /** `build_phase1_daily`: extract every source, merge the non-empty ones outer on the
      day, and order the rows by day. */
  method BuildPhase1Daily(ps: seq<Payload>) returns (f: Frame)
    ensures IsDailyFrame(f, MergeAll(Sources(ps)))
  {
    var hrv := ExtractMetricSeries(ps, MetricName(Hrv), DefaultValueKey);
    var rhr := ExtractMetricSeries(ps, MetricName(Rhr), DefaultValueKey);
    var rr := ExtractMetricSeries(ps, MetricName(RespiratoryRate), DefaultValueKey);
    var bd := ExtractMetricSeries(ps, MetricName(BreathingDisturbances), DefaultValueKey);
    var mm := ExtractMetricSeries(ps, MetricName(MindfulMinutes), DefaultValueKey);
    var alc := ExtractMetricSeries(ps, MetricName(AlcoholConsumption), DefaultValueKey);
    var sleep := ExtractSleepAnalysis(ps);
    var sleepScore := DeriveSleepScore(sleep);
    var workoutsDaily, hrr := ComputeZoneMinutesAndHrr1(ps);
    var dfs := Assemble(workoutsDaily, hrr, hrv, rhr, rr, bd, mm, alc, sleepScore);
    assert dfs == Sources(ps);
    var base := MergeOuter(dfs);
    f := ToFrame(base);
  }

  /** With no data anywhere the result has no rows and only the `date` column. */
  lemma {:induction false} NoDataNoRows(ps: seq<Payload>, f: Frame)
    requires forall i :: 0 <= i < 9 ==> Sources(ps)[i].rows == map[]
    requires IsDailyFrame(f, MergeAll(Sources(ps)))
    ensures f == Frame({}, [])
  {
    MergeAllNone(Sources(ps));
  }

  /** Every cell of the daily table comes from one source, with that source's value. */
  lemma {:induction false} DailyCellsFrom(ps: seq<Payload>, f: Frame, i: int, c: Column)
    requires IsDailyFrame(f, MergeAll(Sources(ps)))
    requires 0 <= i < |f.rows| && c in f.rows[i].cells
    ensures exists k :: 0 <= k < 9 && f.rows[i].date in Sources(ps)[k].rows
                        && c in Sources(ps)[k].rows[f.rows[i].date]
                        && f.rows[i].cells[c] == Sources(ps)[k].rows[f.rows[i].date][c]
  {
    SourcesDisjoint(ps);
    FrameCellsFrom(Sources(ps), f, i, c);
  }

  /** Every cell of every source reaches the daily table unchanged, on the row of its
      day. */
  lemma {:induction false} DailyCellsTo(ps: seq<Payload>, f: Frame, k: int, d: Day, c: Column)
    requires IsDailyFrame(f, MergeAll(Sources(ps)))
    requires 0 <= k < 9 && d in Sources(ps)[k].rows && c in Sources(ps)[k].rows[d]
    ensures exists i :: 0 <= i < |f.rows| && f.rows[i].date == d && c in f.rows[i].cells
                        && f.rows[i].cells[c] == Sources(ps)[k].rows[d][c]
  {
    SourcesDisjoint(ps);
    FrameCellsTo(Sources(ps), f, k, d, c);
  }

  lemma {:induction false} FrameCellsFrom(ts: seq<Table>, f: Frame, i: int, c: Column)
    requires Disjoint(ts) && AllWellFormed(ts) && IsDailyFrame(f, MergeAll(ts))
    requires 0 <= i < |f.rows| && c in f.rows[i].cells
    ensures exists k :: 0 <= k < |ts| && f.rows[i].date in ts[k].rows
                        && c in ts[k].rows[f.rows[i].date]
                        && f.rows[i].cells[c] == ts[k].rows[f.rows[i].date][c]
  {
    var m := MergeAll(ts).value;
    var d := f.rows[i].date;
    MergeAllCellsFrom(ts);
    var k :| 0 <= k < |ts| && d in ts[k].rows && c in ts[k].rows[d];
    MergeAllCellTo(ts, k, d, c);
  }

  lemma {:induction false} FrameCellsTo(ts: seq<Table>, f: Frame, k: int, d: Day, c: Column)
    requires Disjoint(ts) && AllWellFormed(ts) && IsDailyFrame(f, MergeAll(ts))
    requires 0 <= k < |ts| && d in ts[k].rows && c in ts[k].rows[d]
    ensures exists i :: 0 <= i < |f.rows| && f.rows[i].date == d && c in f.rows[i].cells
                        && f.rows[i].cells[c] == ts[k].rows[d][c]
  {
    MergeAllCellTo(ts, k, d, c);
    var m := MergeAll(ts).value;
    var i :| 0 <= i < |f.rows| && f.rows[i].date == d;
  }
}
