/** Ordering a workout's heart-rate samples by time: `pts.sort(key=time)`, a stable
    in-place sort. The reference is a functional insertion sort, proved sorted, a
    permutation of its input and stable (samples with equal times keep their order);
    those three facts determine the result of any stable sort. */
module TimeSort {
  import opened Common

  /** One valid heart-rate bucket: its time and its average bpm. */
  datatype Sample = Sample(t: Timestamp, hr: real)

  predicate SortedByTime(s: seq<Sample>)
  {
    forall i, j :: 0 <= i < j < |s| ==> s[i].t <= s[j].t
  }

  /** Places `x` after every element of `s` whose time is not later than its own. */
  function Insert(s: seq<Sample>, x: Sample): seq<Sample>
  {
    if s == [] then [x]
    else if s[|s| - 1].t <= x.t then s + [x]
    else Insert(s[..|s| - 1], x) + [s[|s| - 1]]
  }

  function SortByTime(s: seq<Sample>): seq<Sample>
  {
    if s == [] then [] else Insert(SortByTime(s[..|s| - 1]), s[|s| - 1])
  }

  /** The samples of `s` taken at time `k`, in order. */
  function AtTime(s: seq<Sample>, k: Timestamp): seq<Sample>
  {
    if s == [] then []
    else AtTime(s[..|s| - 1], k) + (if s[|s| - 1].t == k then [s[|s| - 1]] else [])
  }

  lemma {:induction false} InsertMultiset(s: seq<Sample>, x: Sample)
    ensures multiset(Insert(s, x)) == multiset(s) + multiset{x}
    decreases |s|
  {
    if s != [] && s[|s| - 1].t > x.t {
      var init := s[..|s| - 1];
      assert s == init + [s[|s| - 1]];
      InsertMultiset(init, x);
    }
  }

  lemma {:induction false} InsertSorted(s: seq<Sample>, x: Sample)
    requires SortedByTime(s)
    ensures SortedByTime(Insert(s, x))
    decreases |s|
  {
    if s != [] && s[|s| - 1].t > x.t {
      var init, last := s[..|s| - 1], s[|s| - 1];
      InsertSorted(init, x);
      InsertMultiset(init, x);
      var r := Insert(init, x) + [last];
      forall i | 0 <= i < |r| - 1 ensures r[i].t <= last.t {
        assert r[i] in multiset(Insert(init, x));
        if r[i] != x {
          assert r[i] in multiset(init);
          var m :| 0 <= m < |init| && init[m] == r[i];
          assert s[m] == init[m];
        }
      }
    }
  }

  lemma {:induction false} AtTimeAppend(s: seq<Sample>, y: Sample, k: Timestamp)
    ensures AtTime(s + [y], k) == AtTime(s, k) + (if y.t == k then [y] else [])
  {
    assert (s + [y])[..|s|] == s;
  }

  /** Inserting adds `x` after the samples taken at its own time and leaves the
      samples of every other time as they were. */
  lemma {:induction false} InsertAtTime(s: seq<Sample>, x: Sample, k: Timestamp)
    ensures AtTime(Insert(s, x), k) == AtTime(s, k) + (if x.t == k then [x] else [])
    decreases |s|
  {
    if s == [] {
      assert AtTime([x], k) == AtTime([], k) + (if x.t == k then [x] else []) by {
        AtTimeAppend([], x, k);
      }
    } else if s[|s| - 1].t <= x.t {
      AtTimeAppend(s, x, k);
    } else {
      var init, last := s[..|s| - 1], s[|s| - 1];
      InsertAtTime(init, x, k);
      AtTimeAppend(Insert(init, x), last, k);
    }
  }

  lemma {:induction false} InsertLength(s: seq<Sample>, x: Sample)
    ensures |Insert(s, x)| == |s| + 1
  {
    if s != [] && s[|s| - 1].t > x.t {
      InsertLength(s[..|s| - 1], x);
    }
  }

  lemma {:induction false} SortLength(s: seq<Sample>)
    ensures |SortByTime(s)| == |s|
  {
    if s != [] {
      SortLength(s[..|s| - 1]);
      InsertLength(SortByTime(s[..|s| - 1]), s[|s| - 1]);
    }
  }

  lemma {:induction false} SortProperties(s: seq<Sample>)
    ensures |SortByTime(s)| == |s|
    ensures SortedByTime(SortByTime(s))
    ensures multiset(SortByTime(s)) == multiset(s)
    ensures forall k :: AtTime(SortByTime(s), k) == AtTime(s, k)
  {
    if s != [] {
      var init, last := s[..|s| - 1], s[|s| - 1];
      assert s == init + [last];
      SortProperties(init);
      InsertSorted(SortByTime(init), last);
      InsertMultiset(SortByTime(init), last);
      forall k ensures AtTime(SortByTime(s), k) == AtTime(s, k) {
        InsertAtTime(SortByTime(init), last, k);
      }
      assert |multiset(SortByTime(s))| == |multiset(s)|;
    }
  }

  /** An input already in time order is left as it is. */
  lemma {:induction false} SortedUnchanged(s: seq<Sample>)
    requires SortedByTime(s)
    ensures SortByTime(s) == s
  {
    if s != [] {
      var init := s[..|s| - 1];
      SortedUnchanged(init);
      assert init + [s[|s| - 1]] == s;
    }
  }

  /** Inserting into a sequence whose tail from `j` on is later than `x`, and whose
      element before `j` is not, puts `x` at position `j`. */
  lemma {:induction false} InsertAtGap(p: seq<Sample>, j: nat, x: Sample)
    requires j <= |p| && (j == 0 || p[j - 1].t <= x.t)
    requires forall m :: j <= m < |p| ==> p[m].t > x.t
    ensures Insert(p, x) == p[..j] + [x] + p[j..]
    decreases |p|
  {
    if |p| == j {
      assert p[..j] == p && p[j..] == [];
    } else {
      var init := p[..|p| - 1];
      InsertAtGap(init, j, x);
      assert init[..j] == p[..j];
      assert init[j..] + [p[|p| - 1]] == p[j..];
    }
  }

  /** The inner loop of one pass: shift every element of `a[..i]` later than `x`,
      scanning down from `i`, one place to the right; `j` is the gap left behind. */
  method ShiftLater(a: array<Sample>, i: nat, x: Sample) returns (j: nat)
    requires i < a.Length
    modifies a
    ensures j <= i
    ensures forall m :: 0 <= m < j ==> a[m] == old(a[m])
    ensures forall m :: j < m <= i ==> a[m] == old(a[m - 1])
    ensures forall m :: i < m < a.Length ==> a[m] == old(a[m])
    ensures j == 0 || old(a[j - 1]).t <= x.t
    ensures forall m :: j <= m < i ==> old(a[m]).t > x.t
  {
    j := i;
    while j > 0 && a[j - 1].t > x.t
      invariant 0 <= j <= i
      invariant forall m :: 0 <= m < j ==> a[m] == old(a[m])
      invariant forall m :: j < m <= i ==> a[m] == old(a[m - 1])
      invariant forall m :: i < m < a.Length ==> a[m] == old(a[m])
      invariant forall m :: j <= m < i ==> old(a[m]).t > x.t
    {
      a[j] := a[j - 1];
      j := j - 1;
    }
  }

  /** One pass of insertion sort: drop `a[i]` into its place in the prefix `a[..i]`. */
  method InsertInPlace(a: array<Sample>, i: nat)
    requires i < a.Length
    modifies a
    ensures a[..i + 1] == Insert(old(a[..i]), old(a[i]))
    ensures a[i + 1..] == old(a[i + 1..])
  {
    var x := a[i];
    ghost var prefix := a[..i];
    var j := ShiftLater(a, i, x);
    a[j] := x;
    InsertAtGap(prefix, j, x);
    ghost var r := prefix[..j] + [x] + prefix[j..];
    assert forall m :: 0 <= m <= i ==> a[m] == r[m];
    assert a[..i + 1] == r;
  }

  /** Insertion sort in place over the whole array. */
  method SortInPlace(a: array<Sample>)
    modifies a
    ensures a[..] == SortByTime(old(a[..]))
  {
    ghost var input := a[..];
    var i := 0;
    while i < a.Length
      invariant 0 <= i <= a.Length
      invariant a[..i] == SortByTime(input[..i])
      invariant a[i..] == input[i..]
    {
      assert a[i] == input[i];
      InsertInPlace(a, i);
      assert input[..i + 1][..i] == input[..i];
      i := i + 1;
    }
    assert input[..i] == input;
  }
}
