/** Shared vocabulary: optional values, timestamps and calendar days, and the
    filter-and-map shape that every "skip incomplete records" loop follows. */
module Common {

  datatype Option<+T> = None | Some(value: T)

  /** A timestamp is the wall-clock reading of an export string in seconds since
      1970-01-01T00:00, with its UTC offset already discarded (the offset is stripped,
      never applied). */
  type Timestamp = int

  /** A calendar day, counted in days since 1970-01-01. */
  type Day = int

  const SecondsPerDay: int := 86400

  /** `_to_day`: the day whose midnight is at or before the timestamp. */
  function ToDay(t: Timestamp): (d: Day)
    ensures d * SecondsPerDay <= t < d * SecondsPerDay + SecondsPerDay
  {
    t / SecondsPerDay
  }

  /** A non-empty set of days has a day to pick. */
  lemma {:induction false} Pick(s: set<Day>)
    ensures s != {} ==> exists x :: x in s
  {
    if forall x :: x !in s {
      assert s == {};
    }
  }

  /** The values `f` keeps, in input order: the result of a loop that appends
      `f(x).value` for each `x` with `f(x)` present and skips the others. */
  function FilterMap<A, B>(xs: seq<A>, f: A -> Option<B>): (r: seq<B>)
    ensures |r| <= |xs|
  {
    if xs == [] then []
    else
      var last := f(xs[|xs| - 1]);
      FilterMap(xs[..|xs| - 1], f) + (if last.Some? then [last.value] else [])
  }

  /** An element is kept exactly when some input maps to it. */
  lemma {:induction false} FilterMapMembership<A, B>(xs: seq<A>, f: A -> Option<B>, y: B)
    ensures y in FilterMap(xs, f) <==> exists i :: 0 <= i < |xs| && f(xs[i]) == Some(y)
  {
    if xs != [] {
      var init := xs[..|xs| - 1];
      FilterMapMembership(init, f, y);
      if y in FilterMap(xs, f) && y !in FilterMap(init, f) {
        assert f(xs[|xs| - 1]) == Some(y);
      }
      if exists i :: 0 <= i < |xs| && f(xs[i]) == Some(y) {
        var i :| 0 <= i < |xs| && f(xs[i]) == Some(y);
        if i < |xs| - 1 {
          assert init[i] == xs[i];
        }
      }
    }
  }
}
