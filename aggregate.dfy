/** Same-day aggregation (`groupby("date").sum()` / `.mean()`) as a fold into a
    map keyed by day, specified by per-day sums and counts over the rows. */
module Aggregate {
  import opened Common

  /** How same-day values are combined. */
  datatype Policy = SumPerDay | MeanPerDay

  /** One collected `(date, value)` row. */
  datatype Row = Row(day: Day, value: real)

  /** The days that occur in the rows. */
  function DaysOf(rows: seq<Row>): set<Day>
  {
    set i | 0 <= i < |rows| :: rows[i].day
  }

  /** The sum of the values of the rows that fall on day `d`. */
  function SumOn(rows: seq<Row>, d: Day): real
  {
    if rows == [] then 0.0
    else
      var last := rows[|rows| - 1];
      SumOn(rows[..|rows| - 1], d) + (if last.day == d then last.value else 0.0)
  }

  /** The number of rows that fall on day `d`. */
  function CountOn(rows: seq<Row>, d: Day): nat
  {
    if rows == [] then 0
    else
      var last := rows[|rows| - 1];
      CountOn(rows[..|rows| - 1], d) + (if last.day == d then 1 else 0)
  }

  /** A day occurs in the rows exactly when at least one row counts for it, and a day
      with no row has sum zero. */
  lemma {:induction false} CountOnDays(rows: seq<Row>, d: Day)
    ensures d in DaysOf(rows) <==> CountOn(rows, d) > 0
    ensures d !in DaysOf(rows) ==> SumOn(rows, d) == 0.0
  {
    if rows != [] {
      var init := rows[..|rows| - 1];
      CountOnDays(init, d);
      assert DaysOf(rows) == DaysOf(init) + {rows[|rows| - 1].day} by {
        forall x | x in DaysOf(rows) ensures x in DaysOf(init) + {rows[|rows| - 1].day} {
          var i :| 0 <= i < |rows| && rows[i].day == x;
          if i < |rows| - 1 { assert init[i] == rows[i]; }
        }
        forall x | x in DaysOf(init) ensures x in DaysOf(rows) {
          var i :| 0 <= i < |init| && init[i].day == x;
          assert rows[i] == init[i];
        }
      }
    }
  }

  /** The aggregated table: one entry per day that has a row, holding the sum or the
      mean of that day's values. */
  function ByDay(rows: seq<Row>, policy: Policy): map<Day, real>
  {
    map d | d in DaysOf(rows) ::
      if policy == SumPerDay then SumOn(rows, d)
      else (CountOnDays(rows, d); SumOn(rows, d) / CountOn(rows, d) as real)
  }

  /** The running sums and counts of the first `i` rows. */
  predicate Running(rows: seq<Row>, i: nat, sums: map<Day, real>, counts: map<Day, nat>)
    requires i <= |rows|
  {
    && sums.Keys == counts.Keys == DaysOf(rows[..i])
    && SumsUpTo(rows[..i], sums)
    && CountsUpTo(rows[..i], counts)
  }

  predicate SumsUpTo(prefix: seq<Row>, sums: map<Day, real>)
  {
    forall d :: d in sums ==> sums[d] == SumOn(prefix, d)
  }

  predicate CountsUpTo(prefix: seq<Row>, counts: map<Day, nat>)
  {
    forall d :: d in counts ==> counts[d] == CountOn(prefix, d) && counts[d] > 0
  }

  /** Taking in one more row keeps the running sums and counts. */
  lemma {:induction false} RunningStep(rows: seq<Row>, i: nat, sums: map<Day, real>, counts: map<Day, nat>,
                                       sums': map<Day, real>, counts': map<Day, nat>)
    requires i < |rows| && Running(rows, i, sums, counts)
    requires sums' == sums[rows[i].day := (if rows[i].day in sums then sums[rows[i].day] else 0.0) + rows[i].value]
    requires counts' == counts[rows[i].day := (if rows[i].day in counts then counts[rows[i].day] else 0) + 1]
    ensures Running(rows, i + 1, sums', counts')
  {
    var r := rows[i];
    var prefix := rows[..i + 1];
    assert prefix[..i] == rows[..i];
    assert r.day !in sums ==> SumOn(rows[..i], r.day) == 0.0 && CountOn(rows[..i], r.day) == 0 by {
      CountOnDays(rows[..i], r.day);
    }
    assert sums'.Keys == counts'.Keys == DaysOf(prefix) by {
      forall d ensures d in DaysOf(prefix) <==> d in DaysOf(rows[..i]) || d == r.day {
        CountOnDays(rows[..i], d);
        CountOnDays(prefix, d);
      }
    }
    assert SumsUpTo(prefix, sums');
    assert CountsUpTo(prefix, counts');
  }

  /** The fold the aggregation performs: running sums and counts per day, then the
      mean (or the sum) of each day. */
  method AggregateByDay(rows: seq<Row>, policy: Policy) returns (m: map<Day, real>)
    ensures m == ByDay(rows, policy)
  {
    var sums: map<Day, real> := map[];
    var counts: map<Day, nat> := map[];
    var i := 0;
    while i < |rows|
      invariant 0 <= i <= |rows|
      invariant Running(rows, i, sums, counts)
    {
      var r := rows[i];
      var s := if r.day in sums then sums[r.day] else 0.0;
      var c := if r.day in counts then counts[r.day] else 0;
      var sums', counts' := sums[r.day := s + r.value], counts[r.day := c + 1];
      RunningStep(rows, i, sums, counts, sums', counts');
      sums, counts := sums', counts';
      i := i + 1;
    }
    assert rows[..i] == rows;
    m := map d | d in sums :: if policy == SumPerDay then sums[d] else sums[d] / counts[d] as real;
  }

  /** Bounds on a day's sum from bounds on every row. */
  lemma {:induction false} SumOnAtLeast(rows: seq<Row>, d: Day, lo: real)
    requires forall i :: 0 <= i < |rows| ==> lo <= rows[i].value
    ensures lo * CountOn(rows, d) as real <= SumOn(rows, d)
  {
    if rows != [] {
      var init := rows[..|rows| - 1];
      assert forall i :: 0 <= i < |init| ==> init[i] == rows[i];
      SumOnAtLeast(init, d, lo);
      var c := CountOn(init, d) as real;
      assert lo * (c + 1.0) == lo * c + lo;
    }
  }

  lemma {:induction false} SumOnAtMost(rows: seq<Row>, d: Day, hi: real)
    requires forall i :: 0 <= i < |rows| ==> rows[i].value <= hi
    ensures SumOn(rows, d) <= hi * CountOn(rows, d) as real
  {
    if rows != [] {
      var init := rows[..|rows| - 1];
      assert forall i :: 0 <= i < |init| ==> init[i] == rows[i];
      SumOnAtMost(init, d, hi);
      var c := CountOn(init, d) as real;
      assert hi * (c + 1.0) == hi * c + hi;
    }
  }

  lemma {:induction false} DivideAtLeast(s: real, c: real, lo: real)
    requires c > 0.0 && lo * c <= s
    ensures lo <= s / c
  {
    assert s == (s / c) * c;
  }

  lemma {:induction false} DivideAtMost(s: real, c: real, hi: real)
    requires c > 0.0 && s <= hi * c
    ensures s / c <= hi
  {
    assert s == (s / c) * c;
  }

  /** A day's mean is at least any lower bound of the rows. */
  lemma {:induction false} MeanAtLeast(rows: seq<Row>, lo: real)
    requires forall i :: 0 <= i < |rows| ==> lo <= rows[i].value
    ensures forall d :: d in ByDay(rows, MeanPerDay) ==> lo <= ByDay(rows, MeanPerDay)[d]
  {
    var m := ByDay(rows, MeanPerDay);
    forall d | d in m
      ensures lo <= m[d]
    {
      CountOnDays(rows, d);
      var c := CountOn(rows, d) as real;
      var s := SumOn(rows, d);
      assert m[d] == s / c;
      SumOnAtLeast(rows, d, lo);
      DivideAtLeast(s, c, lo);
    }
  }

  /** A day's mean lies between the smallest and the largest row value. */
  lemma {:induction false} MeanWithinBounds(rows: seq<Row>, lo: real, hi: real)
    requires forall i :: 0 <= i < |rows| ==> lo <= rows[i].value <= hi
    ensures forall d :: d in ByDay(rows, MeanPerDay) ==> lo <= ByDay(rows, MeanPerDay)[d] <= hi
  {
    var m := ByDay(rows, MeanPerDay);
    MeanAtLeast(rows, lo);
    forall d | d in m
      ensures m[d] <= hi
    {
      CountOnDays(rows, d);
      var c := CountOn(rows, d) as real;
      var s := SumOn(rows, d);
      assert m[d] == s / c;
      SumOnAtMost(rows, d, hi);
      DivideAtMost(s, c, hi);
    }
  }
}
