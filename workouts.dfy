/** The workout zone and recovery analyser: per workout, keep the complete
    heart-rate buckets, sort them by time, tally one minute per classified bucket and
    estimate one-minute heart-rate recovery (HRR1); then total the minutes per day and
    average HRR1 per day. */
module Workouts {
  import opened Common
  import opened Payload
  import opened Zones
  import opened TimeSort
  import opened Aggregate

  /** Workouts with fewer complete buckets than this carry too little signal. */
  const MinSamples: nat := 5

  /** HRR1 looks for the first bucket at least this many seconds after the peak. */
  const RecoveryDelay: int := 60

  // ---------------------------------------------------------------------------
  // Valid samples
  // ---------------------------------------------------------------------------

  /** A bucket is usable when both `Avg` and `date` are present. */
  function SampleOf(p: HrPoint): Option<Sample>
  {
    if p.avg.Some? && p.date.Some? then Some(Sample(p.date.value, p.avg.value)) else None
  }

  function ValidSamples(ps: seq<HrPoint>): seq<Sample>
  {
    FilterMap(ps, SampleOf)
  }

  /** The loop that builds `pts`. */
  method CollectSamples(ps: seq<HrPoint>) returns (pts: seq<Sample>)
    ensures pts == ValidSamples(ps)
  {
    pts := [];
    var i := 0;
    while i < |ps|
      invariant 0 <= i <= |ps|
      invariant pts == ValidSamples(ps[..i])
    {
      if ps[i].avg.Some? && ps[i].date.Some? {
        pts := pts + [Sample(ps[i].date.value, ps[i].avg.value)];
      }
      assert ps[..i + 1][..i] == ps[..i];
      i := i + 1;
    }
    assert ps[..i] == ps;
  }

  // ---------------------------------------------------------------------------
  // Zone minutes
  // ---------------------------------------------------------------------------

  /** Minutes per zone (the `zmins` counter); `Unk` has no counter. */
  datatype ZoneTally = ZoneTally(z1: nat, z2: nat, z3: nat, z4: nat, z5: nat)
  {
    function Total(): nat
    {
      z1 + z2 + z3 + z4 + z5
    }

    function Plus(o: ZoneTally): ZoneTally
    {
      ZoneTally(z1 + o.z1, z2 + o.z2, z3 + o.z3, z4 + o.z4, z5 + o.z5)
    }

    /** `if z in zmins: zmins[z] += 1`. */
    function Bump(z: Zone): ZoneTally
    {
      match z
      case Z1 => this.(z1 := z1 + 1)
      case Z2 => this.(z2 := z2 + 1)
      case Z3 => this.(z3 := z3 + 1)
      case Z4 => this.(z4 := z4 + 1)
      case Z5 => this.(z5 := z5 + 1)
      case Unk => this
    }
  }

  /** The number of samples whose heart rate falls in zone `z`. */
  function CountIn(s: seq<Sample>, z: Zone): nat
  {
    if s == [] then 0
    else CountIn(s[..|s| - 1], z) + (if ClassifyZone(s[|s| - 1].hr) == z then 1 else 0)
  }

  /** The zone minutes of a sample sequence, one minute per classified sample. */
  function Tally(s: seq<Sample>): ZoneTally
  {
    ZoneTally(CountIn(s, Z1), CountIn(s, Z2), CountIn(s, Z3), CountIn(s, Z4), CountIn(s, Z5))
  }

  /** The counting loop over the sorted samples. */
  method TallyZones(s: seq<Sample>) returns (t: ZoneTally)
    ensures t == Tally(s)
  {
    t := ZoneTally(0, 0, 0, 0, 0);
    var i := 0;
    while i < |s|
      invariant 0 <= i <= |s|
      invariant t == Tally(s[..i])
    {
      t := t.Bump(ClassifyZone(s[i].hr));
      assert s[..i + 1][..i] == s[..i];
      i := i + 1;
    }
    assert s[..i] == s;
  }

  /** Every sample falls in exactly one of the six classes. */
  lemma {:induction false} ZonesPartition(s: seq<Sample>)
    ensures CountIn(s, Z1) + CountIn(s, Z2) + CountIn(s, Z3) + CountIn(s, Z4) + CountIn(s, Z5)
            + CountIn(s, Unk) == |s|
  {
    if s != [] {
      ZonesPartition(s[..|s| - 1]);
    }
  }

  /** The tallied minutes are exactly the samples that are not `Unk`. */
  lemma {:induction false} TallyCountsClassified(s: seq<Sample>)
    ensures Tally(s).Total() + CountIn(s, Unk) == |s|
  {
    ZonesPartition(s);
  }

  lemma {:induction false} CountInInsert(s: seq<Sample>, x: Sample, z: Zone)
    ensures CountIn(Insert(s, x), z) == CountIn(s, z) + (if ClassifyZone(x.hr) == z then 1 else 0)
    decreases |s|
  {
    if s == [] {
      assert [x][..0] == [];
    } else if s[|s| - 1].t <= x.t {
      assert (s + [x])[..|s|] == s;
    } else {
      var init, last := s[..|s| - 1], s[|s| - 1];
      CountInInsert(init, x, z);
      assert (Insert(init, x) + [last])[..|Insert(init, x)|] == Insert(init, x);
    }
  }

  /** Sorting does not change how many samples fall in a zone. */
  lemma {:induction false} CountInSorted(s: seq<Sample>, z: Zone)
    ensures CountIn(SortByTime(s), z) == CountIn(s, z)
  {
    if s != [] {
      CountInSorted(s[..|s| - 1], z);
      CountInInsert(SortByTime(s[..|s| - 1]), s[|s| - 1], z);
    }
  }

  lemma {:induction false} TallySorted(s: seq<Sample>)
    ensures Tally(SortByTime(s)) == Tally(s)
    ensures CountIn(SortByTime(s), Unk) == CountIn(s, Unk)
  {
    CountInSorted(s, Z1);
    CountInSorted(s, Z2);
    CountInSorted(s, Z3);
    CountInSorted(s, Z4);
    CountInSorted(s, Z5);
    CountInSorted(s, Unk);
  }

  // ---------------------------------------------------------------------------
  // HRR1
  // ---------------------------------------------------------------------------

  /** `max(range(len(pts)), key=hr)`: the first index holding the largest heart rate. */
  function PeakIndex(s: seq<Sample>): (k: nat)
    requires |s| > 0
    ensures k < |s|
    ensures forall j :: 0 <= j < |s| ==> s[j].hr <= s[k].hr
    ensures forall j :: 0 <= j < k ==> s[j].hr < s[k].hr
  {
    if |s| == 1 then 0
    else
      var k := PeakIndex(s[..|s| - 1]);
      assert forall j :: 0 <= j < |s| - 1 ==> s[..|s| - 1][j] == s[j];
      if s[|s| - 1].hr > s[k].hr then |s| - 1 else k
  }

  /** The first index from `from` on whose time reaches `target`, or the last index
      when there is none. */
  function FirstAtOrAfter(s: seq<Sample>, from: nat, target: Timestamp): (j: nat)
    requires 0 < |s| && from <= |s|
    ensures j < |s|
    ensures (forall m :: from <= m < |s| ==> s[m].t < target) ==> j == |s| - 1
    ensures (exists m :: from <= m < |s| && s[m].t >= target) ==>
      from <= j && s[j].t >= target && forall m :: from <= m < j ==> s[m].t < target
    decreases |s| - from
  {
    if from == |s| then |s| - 1
    else if s[from].t >= target then from
    else FirstAtOrAfter(s, from + 1, target)
  }

  /** The recovery sample: the first at or after the peak taken at least a minute after
      it, or else the last sample. */
  function RecoveryIndex(s: seq<Sample>, k: nat): nat
    requires k < |s|
  {
    FirstAtOrAfter(s, k, s[k].t + RecoveryDelay)
  }

  /** The search loop over `pts[peak_idx:]` with its fallback to the last sample. */
  method FindRecovery(s: seq<Sample>, k: nat) returns (post: real)
    requires k < |s|
    ensures post == s[RecoveryIndex(s, k)].hr
  {
    var target := s[k].t + RecoveryDelay;
    var found: Option<real> := None;
    var i := k;
    while i < |s|
      invariant k <= i <= |s|
      invariant found.None?
      invariant FirstAtOrAfter(s, i, target) == FirstAtOrAfter(s, k, target)
    {
      if s[i].t >= target {
        found := Some(s[i].hr);
        break;
      }
      i := i + 1;
    }
    if found.None? {
      found := Some(s[|s| - 1].hr);
    }
    post := found.value;
  }

  // ---------------------------------------------------------------------------
  // One workout
  // ---------------------------------------------------------------------------

  /** What a kept workout contributes: its day, its zone row and its HRR1 value. */
  datatype WorkoutSummary = WorkoutSummary(day: Day, zones: ZoneTally, cardio: nat, zone2Pct: real, hrr1: real)

  /** The workout's complete buckets in time order. */
  function SortedSamples(w: Workout): seq<Sample>
  {
    SortByTime(ValidSamples(w.heartRateData))
  }

  /** The day a workout belongs to: the day of its end, else of its last sample. */
  function WorkoutDay(w: Workout, s: seq<Sample>): Day
    requires |s| > 0
  {
    if w.end.Some? then ToDay(w.end.value) else ToDay(s[|s| - 1].t)
  }

  /** The zone-2 share of a workout's cardio minutes, as a percentage. */
  function Zone2Share(z: ZoneTally): real
    requires z.Total() > 0
  {
    100.0 * z.z2 as real / z.Total() as real
  }

  /** HRR1: the peak heart rate minus the heart rate of the recovery sample. */
  function Hrr1(s: seq<Sample>): real
    requires |s| > 0
  {
    var k := PeakIndex(s);
    s[k].hr - s[RecoveryIndex(s, k)].hr
  }

  /** The summary of a workout with sorted samples `s`: `None` when no sample falls in
      a zone. */
  function SummaryOf(w: Workout, s: seq<Sample>): Option<WorkoutSummary>
    requires |s| > 0
  {
    var z := Tally(s);
    if z.Total() == 0 then None
    else Some(WorkoutSummary(WorkoutDay(w, s), z, z.Total(), Zone2Share(z), Hrr1(s)))
  }

  /** The per-workout body of `compute_zone_minutes_and_hrr1`: `None` for a skipped
      workout, which contributes neither a zone row nor an HRR1 row. */
  function Summarise(w: Workout): Option<WorkoutSummary>
  {
    var pts := ValidSamples(w.heartRateData);
    if |pts| < MinSamples then None
    else
      SortLength(pts);
      SummaryOf(w, SortByTime(pts))
  }

  method AnalyseWorkout(w: Workout) returns (r: Option<WorkoutSummary>)
    ensures r == Summarise(w)
  {
    var pts := CollectSamples(w.heartRateData);
    if |pts| < MinSamples {
      return None;
    }
    var a := new Sample[|pts|](i requires 0 <= i < |pts| => pts[i]);
    assert a[..] == pts;
    SortInPlace(a);
    var s := a[..];
    SortLength(pts);
    r := SummariseSorted(w, s);
  }

  /** The part of the per-workout body after sorting. */
  method SummariseSorted(w: Workout, s: seq<Sample>) returns (r: Option<WorkoutSummary>)
    requires |s| > 0
    ensures r == SummaryOf(w, s)
  {
    var day := if w.end.Some? then ToDay(w.end.value) else ToDay(s[|s| - 1].t);
    var zmins := TallyZones(s);
    var total := zmins.Total();
    if total == 0 {
      return None;
    }
    var peak := PeakIndex(s);
    var post := FindRecovery(s, peak);
    r := Some(WorkoutSummary(day, zmins, total, 100.0 * zmins.z2 as real / total as real, s[peak].hr - post));
  }

  /** The shares that make a zone row and an HRR1 value consistent. */
  predicate ValidSummary(r: WorkoutSummary)
  {
    && r.cardio == r.zones.Total()
    && r.cardio > 0
    && 0.0 <= r.zone2Pct <= 100.0
    && r.hrr1 >= 0.0
  }

  lemma {:induction false} PercentBound(part: nat, whole: nat)
    requires part <= whole && whole > 0
    ensures 0.0 <= 100.0 * part as real / whole as real <= 100.0
  {
    var q := 100.0 * part as real / whole as real;
    assert q * whole as real == 100.0 * part as real;
  }

  /** A workout is skipped exactly when it has fewer than five complete buckets or none
      of them falls in a zone. */
  lemma {:induction false} SkippedIff(w: Workout)
    ensures var pts := ValidSamples(w.heartRateData);
            Summarise(w).None? <==> |pts| < MinSamples || CountIn(pts, Unk) == |pts|
  {
    var pts := ValidSamples(w.heartRateData);
    TallySorted(pts);
    TallyCountsClassified(pts);
  }

  /** A kept workout's zone minutes are its classified buckets (whatever their order),
      its cardio minutes their sum, its zone-2 share a percentage, and its HRR1 the peak
      heart rate minus the recovery sample's, never negative. */
  lemma {:induction false} SummaryFacts(w: Workout)
    requires Summarise(w).Some?
    ensures var r := Summarise(w).value;
            var pts := ValidSamples(w.heartRateData);
            && ValidSummary(r)
            && r.zones == Tally(pts)
            && r.cardio + CountIn(pts, Unk) == |pts|
  {
    var pts := ValidSamples(w.heartRateData);
    SortLength(pts);
    SummaryOfValid(w, SortByTime(pts));
    TallySorted(pts);
    TallyCountsClassified(pts);
  }

  lemma {:induction false} SummaryOfValid(w: Workout, s: seq<Sample>)
    requires |s| > 0 && SummaryOf(w, s).Some?
    ensures ValidSummary(SummaryOf(w, s).value)
    ensures SummaryOf(w, s).value.zones == Tally(s)
  {
    var r := SummaryOf(w, s).value;
    assert r.cardio == r.zones.Total() > 0;
    PercentBound(r.zones.z2, r.cardio);
    assert r.zone2Pct == Zone2Share(r.zones);
    Hrr1NonNegative(s);
    assert r.hrr1 == Hrr1(s);
  }

  /** The peak is a maximum, so HRR1 is never negative. */
  lemma {:induction false} Hrr1NonNegative(s: seq<Sample>)
    requires |s| > 0
    ensures Hrr1(s) >= 0.0
  {
    var k := PeakIndex(s);
    var j := RecoveryIndex(s, k);
    assert s[j].hr <= s[k].hr;
  }

  /** The HRR1 samples: the peak is the first maximum of the sorted buckets, the
      recovery sample is at or after it — the first a minute or more later, or the last
      sample when none is — and HRR1 is their difference. */
  lemma {:induction false} Hrr1Facts(w: Workout)
    requires Summarise(w).Some?
    ensures var s := SortedSamples(w);
            var k := PeakIndex(s);
            var j := RecoveryIndex(s, k);
            && k <= j < |s|
            && Summarise(w).value.hrr1 == s[k].hr - s[j].hr
            && (forall m :: 0 <= m < |s| ==> s[m].hr <= s[k].hr)
            && (forall m :: 0 <= m < k ==> s[m].hr < s[k].hr)
            && ((exists m :: k <= m < |s| && s[m].t >= s[k].t + RecoveryDelay) ==>
                  s[j].t >= s[k].t + RecoveryDelay
                  && forall m :: k <= m < j ==> s[m].t < s[k].t + RecoveryDelay)
            && ((forall m :: k <= m < |s| ==> s[m].t < s[k].t + RecoveryDelay) ==> j == |s| - 1)
  {
    SortProperties(ValidSamples(w.heartRateData));
  }

  /** Without an `end`, a workout belongs to the day of its latest bucket. */
  lemma {:induction false} DayOfLatestSample(w: Workout)
    requires Summarise(w).Some? && w.end.None?
    ensures var pts := ValidSamples(w.heartRateData);
            exists i :: 0 <= i < |pts| && Summarise(w).value.day == ToDay(pts[i].t)
                        && forall m :: 0 <= m < |pts| ==> pts[m].t <= pts[i].t
  {
    var pts := ValidSamples(w.heartRateData);
    var s := SortByTime(pts);
    SortProperties(pts);
    var last := s[|s| - 1];
    assert last in multiset(pts);
    var i :| 0 <= i < |pts| && pts[i] == last;
    forall m | 0 <= m < |pts| ensures pts[m].t <= last.t {
      assert pts[m] in multiset(s);
      var n :| 0 <= n < |s| && s[n] == pts[m];
    }
  }

  /** The buckets of the recovery example: t0, +30 s, +60 s, +90 s and +150 s with
      100, 140, 150, 120 and 110 bpm. */
  function ExampleBuckets(t0: Timestamp): seq<HrPoint>
  {
    [HrPoint(Some(t0), Some(100.0)), HrPoint(Some(t0 + 30), Some(140.0)),
     HrPoint(Some(t0 + 60), Some(150.0)), HrPoint(Some(t0 + 90), Some(120.0)),
     HrPoint(Some(t0 + 150), Some(110.0))]
  }

  function ExampleSamples(t0: Timestamp): seq<Sample>
  {
    [Sample(t0, 100.0), Sample(t0 + 30, 140.0), Sample(t0 + 60, 150.0),
     Sample(t0 + 90, 120.0), Sample(t0 + 150, 110.0)]
  }

  lemma {:induction false} ExampleSorted(t0: Timestamp)
    ensures ValidSamples(ExampleBuckets(t0)) == ExampleSamples(t0)
    ensures SortByTime(ExampleSamples(t0)) == ExampleSamples(t0)
  {
    var hs, s := ExampleBuckets(t0), ExampleSamples(t0);
    SamplesPrefix(hs, s, 5);
    assert hs[..5] == hs && s[..5] == s;
    SortedUnchanged(s);
  }

  lemma {:induction false} ExamplePeak(t0: Timestamp)
    ensures PeakIndex(ExampleSamples(t0)) == 2
  {
    var s := ExampleSamples(t0);
    assert s[..4][..3] == s[..3];
    assert s[..3][..2] == s[..2];
    assert s[..2][..1] == s[..1];
    assert PeakIndex(s[..1]) == 0;
    assert PeakIndex(s[..2]) == 1;
    assert PeakIndex(s[..3]) == 2;
    assert PeakIndex(s[..4]) == 2;
    assert s[..5][..4] == s[..4];
  }

  lemma {:induction false} ExampleClassified(t0: Timestamp)
    ensures Tally(ExampleSamples(t0)).Total() > 0
  {
    var s := ExampleSamples(t0);
    ClassifyZoneBands(100.0);
    assert s[..1][..0] == [];
    assert CountIn(s[..1], Z1) == 1;
    CountMonotone(s, 1, Z1);
  }

  /** The recovery example: the buckets peak at 150 bpm (t0 + 60 s); the first bucket
      at or after t0 + 120 s is the one at t0 + 150 s, so HRR1 is 150 - 110 = 40,
      whatever the workout's end. */
  lemma {:induction false} RecoveryExample(t0: Timestamp, end: Option<Timestamp>)
    ensures Summarise(Workout(end, ExampleBuckets(t0))).Some?
    ensures Summarise(Workout(end, ExampleBuckets(t0))).value.hrr1 == 40.0
  {
    var s := ExampleSamples(t0);
    var w := Workout(end, ExampleBuckets(t0));
    ExampleSorted(t0);
    ExampleClassified(t0);
    assert Summarise(w) == SummaryOf(w, s);
    ExamplePeak(t0);
    assert RecoveryIndex(s, 2) == 4;
    assert Hrr1(s) == 40.0;
  }

  /** Unfolding helper for the example: the first `i` buckets keep as the first `i`
      samples. */
  lemma {:induction false} SamplesPrefix(hs: seq<HrPoint>, s: seq<Sample>, i: nat)
    requires |hs| == |s| && i <= |hs|
    requires forall n :: 0 <= n < |hs| ==> SampleOf(hs[n]) == Some(s[n])
    ensures FilterMap(hs[..i], SampleOf) == s[..i]
  {
    if i > 0 {
      SamplesPrefix(hs, s, i - 1);
      assert hs[..i][..i - 1] == hs[..i - 1];
      assert s[..i] == s[..i - 1] + [s[i - 1]];
    }
  }

  /** Counting over a prefix never exceeds counting over the whole. */
  lemma {:induction false} CountMonotone(s: seq<Sample>, i: nat, z: Zone)
    requires i <= |s|
    ensures CountIn(s[..i], z) <= CountIn(s, z)
    decreases |s| - i
  {
    if i < |s| {
      CountMonotone(s, i + 1, z);
      assert s[..i + 1][..i] == s[..i];
    } else {
      assert s[..i] == s;
    }
  }

  // ---------------------------------------------------------------------------
  // All workouts of all payloads
  // ---------------------------------------------------------------------------

  /** The summaries of all kept workouts, in payload and workout order. */
  function Summaries(ps: seq<Payload>): seq<WorkoutSummary>
  {
    if ps == [] then []
    else Summaries(ps[..|ps| - 1]) + FilterMap(RootOf(ps[|ps| - 1]).workouts, Summarise)
  }

  /** The inner loop: analyse each workout of one payload and keep the kept ones. */
  method SummariseWorkouts(ws: seq<Workout>) returns (rs: seq<WorkoutSummary>)
    ensures rs == FilterMap(ws, Summarise)
  {
    rs := [];
    var j := 0;
    while j < |ws|
      invariant 0 <= j <= |ws|
      invariant rs == FilterMap(ws[..j], Summarise)
    {
      var r := AnalyseWorkout(ws[j]);
      if r.Some? {
        rs := rs + [r.value];
      }
      assert ws[..j + 1][..j] == ws[..j];
      j := j + 1;
    }
    assert ws[..j] == ws;
  }

  /** The nested loops over payloads and workouts that append to the result rows. */
  method CollectSummaries(ps: seq<Payload>) returns (ss: seq<WorkoutSummary>)
    ensures ss == Summaries(ps)
  {
    ss := [];
    var i := 0;
    while i < |ps|
      invariant 0 <= i <= |ps|
      invariant ss == Summaries(ps[..i])
    {
      var rs := SummariseWorkouts(RootOf(ps[i]).workouts);
      ss := ss + rs;
      assert ps[..i + 1][..i] == ps[..i];
      i := i + 1;
    }
    assert ps[..i] == ps;
  }

  /** A summary is collected exactly when some workout of some payload yields it. */
  lemma {:induction false} SummariesMembership(ps: seq<Payload>, r: WorkoutSummary)
    ensures r in Summaries(ps) <==>
      exists i, j :: 0 <= i < |ps| && 0 <= j < |RootOf(ps[i]).workouts|
                     && Summarise(RootOf(ps[i]).workouts[j]) == Some(r)
  {
    if ps != [] {
      var init := ps[..|ps| - 1];
      var ws := RootOf(ps[|ps| - 1]).workouts;
      SummariesMembership(init, r);
      FilterMapMembership(ws, Summarise, r);
      if r in Summaries(ps) && r !in Summaries(init) {
        var j :| 0 <= j < |ws| && Summarise(ws[j]) == Some(r);
        assert RootOf(ps[|ps| - 1]).workouts[j] == ws[j];
      }
      if r in Summaries(init) {
        var i, j :| 0 <= i < |init| && 0 <= j < |RootOf(init[i]).workouts|
                    && Summarise(RootOf(init[i]).workouts[j]) == Some(r);
        assert ps[i] == init[i];
      }
      if exists i, j :: 0 <= i < |ps| && 0 <= j < |RootOf(ps[i]).workouts|
                        && Summarise(RootOf(ps[i]).workouts[j]) == Some(r) {
        var i, j :| 0 <= i < |ps| && 0 <= j < |RootOf(ps[i]).workouts|
                    && Summarise(RootOf(ps[i]).workouts[j]) == Some(r);
        if i < |ps| - 1 {
          assert init[i] == ps[i];
        }
      }
    }
  }

  lemma {:induction false} SummariesValid(ps: seq<Payload>)
    ensures forall n :: 0 <= n < |Summaries(ps)| ==> ValidSummary(Summaries(ps)[n])
  {
    forall n | 0 <= n < |Summaries(ps)| ensures ValidSummary(Summaries(ps)[n]) {
      var r := Summaries(ps)[n];
      SummariesMembership(ps, r);
      var i, j :| 0 <= i < |ps| && 0 <= j < |RootOf(ps[i]).workouts|
                  && Summarise(RootOf(ps[i]).workouts[j]) == Some(r);
      SummaryFacts(RootOf(ps[i]).workouts[j]);
    }
  }

  // ---------------------------------------------------------------------------
  // Daily aggregation
  // ---------------------------------------------------------------------------

  function SummaryDays(ss: seq<WorkoutSummary>): set<Day>
  {
    set n | 0 <= n < |ss| :: ss[n].day
  }

  /** The zone minutes of the workouts on day `d`, summed. */
  function ZonesOn(ss: seq<WorkoutSummary>, d: Day): ZoneTally
  {
    if ss == [] then ZoneTally(0, 0, 0, 0, 0)
    else
      var last := ss[|ss| - 1];
      ZonesOn(ss[..|ss| - 1], d).Plus(if last.day == d then last.zones else ZoneTally(0, 0, 0, 0, 0))
  }

  /** The cardio minutes of the workouts on day `d`, summed. */
  function CardioOn(ss: seq<WorkoutSummary>, d: Day): nat
  {
    if ss == [] then 0
    else
      var last := ss[|ss| - 1];
      CardioOn(ss[..|ss| - 1], d) + (if last.day == d then last.cardio else 0)
  }

  /** A day's zone row after summing: minutes, cardio minutes, and the zone-2 share
      recomputed from the sums with the divisor 0 replaced by 1. */
  datatype ZoneDay = ZoneDay(zones: ZoneTally, cardio: nat, zone2Pct: real)

  function ZoneDayOf(zones: ZoneTally, cardio: nat): ZoneDay
  {
    ZoneDay(zones, cardio, 100.0 * zones.z2 as real / (if cardio > 0 then cardio else 1) as real)
  }

  function DailyZones(ss: seq<WorkoutSummary>): map<Day, ZoneDay>
  {
    map d | d in SummaryDays(ss) :: ZoneDayOf(ZonesOn(ss, d), CardioOn(ss, d))
  }

  lemma {:induction false} SummaryDaysStep(ss: seq<WorkoutSummary>)
    requires ss != []
    ensures SummaryDays(ss) == SummaryDays(ss[..|ss| - 1]) + {ss[|ss| - 1].day}
  {
    var init := ss[..|ss| - 1];
    forall x | x in SummaryDays(ss) ensures x in SummaryDays(init) + {ss[|ss| - 1].day} {
      var n :| 0 <= n < |ss| && ss[n].day == x;
      if n < |ss| - 1 { assert init[n] == ss[n]; }
    }
    forall x | x in SummaryDays(init) ensures x in SummaryDays(ss) {
      var n :| 0 <= n < |init| && init[n].day == x;
      assert ss[n] == init[n];
    }
  }

  lemma {:induction false} OffDayEmpty(ss: seq<WorkoutSummary>, d: Day)
    requires d !in SummaryDays(ss)
    ensures ZonesOn(ss, d) == ZoneTally(0, 0, 0, 0, 0) && CardioOn(ss, d) == 0
  {
    if ss != [] {
      SummaryDaysStep(ss);
      OffDayEmpty(ss[..|ss| - 1], d);
    }
  }

  /** How the per-day sums change when one more summary is taken in. */
  lemma {:induction false} OnStep(ss: seq<WorkoutSummary>, i: nat, d: Day)
    requires i < |ss|
    ensures ZonesOn(ss[..i + 1], d)
            == ZonesOn(ss[..i], d).Plus(if ss[i].day == d then ss[i].zones else ZoneTally(0, 0, 0, 0, 0))
    ensures CardioOn(ss[..i + 1], d) == CardioOn(ss[..i], d) + (if ss[i].day == d then ss[i].cardio else 0)
  {
    assert ss[..i + 1][..i] == ss[..i];
  }

  /** The running per-day sums of the first `i` summaries. */
  predicate RunningSums(ss: seq<WorkoutSummary>, i: nat, zones: map<Day, ZoneTally>, cardio: map<Day, nat>)
    requires i <= |ss|
  {
    && zones.Keys == cardio.Keys == SummaryDays(ss[..i])
    && ZonesUpTo(ss[..i], zones)
    && CardioUpTo(ss[..i], cardio)
  }

  predicate ZonesUpTo(prefix: seq<WorkoutSummary>, zones: map<Day, ZoneTally>)
  {
    forall d :: d in zones ==> zones[d] == ZonesOn(prefix, d)
  }

  predicate CardioUpTo(prefix: seq<WorkoutSummary>, cardio: map<Day, nat>)
  {
    forall d :: d in cardio ==> cardio[d] == CardioOn(prefix, d)
  }

  /** Taking in one more summary keeps the running sums. */
  lemma {:induction false} RunningSumsStep(ss: seq<WorkoutSummary>, i: nat, zones: map<Day, ZoneTally>, cardio: map<Day, nat>,
                                          zones': map<Day, ZoneTally>, cardio': map<Day, nat>)
    requires i < |ss| && RunningSums(ss, i, zones, cardio)
    requires zones' == zones[ss[i].day := (if ss[i].day in zones then zones[ss[i].day] else ZoneTally(0, 0, 0, 0, 0)).Plus(ss[i].zones)]
    requires cardio' == cardio[ss[i].day := (if ss[i].day in cardio then cardio[ss[i].day] else 0) + ss[i].cardio]
    ensures RunningSums(ss, i + 1, zones', cardio')
  {
    var r := ss[i];
    assert r.day !in zones ==> ZonesOn(ss[..i], r.day) == ZoneTally(0, 0, 0, 0, 0) && CardioOn(ss[..i], r.day) == 0 by {
      if r.day !in zones {
        OffDayEmpty(ss[..i], r.day);
      }
    }
    assert zones'.Keys == cardio'.Keys == SummaryDays(ss[..i + 1]) by {
      RunningKeysStep(ss, i, zones.Keys);
    }
    RunningZonesStep(ss, i, zones, zones');
    RunningCardioStep(ss, i, cardio, cardio');
  }

  lemma {:induction false} RunningKeysStep(ss: seq<WorkoutSummary>, i: nat, keys: set<Day>)
    requires i < |ss| && keys == SummaryDays(ss[..i])
    ensures keys + {ss[i].day} == SummaryDays(ss[..i + 1])
  {
    var prefix := ss[..i + 1];
    assert prefix[..i] == ss[..i];
    SummaryDaysStep(prefix);
  }

  lemma {:induction false} RunningZonesStep(ss: seq<WorkoutSummary>, i: nat, zones: map<Day, ZoneTally>, zones': map<Day, ZoneTally>)
    requires i < |ss|
    requires ZonesUpTo(ss[..i], zones)
    requires ss[i].day !in zones ==> ZonesOn(ss[..i], ss[i].day) == ZoneTally(0, 0, 0, 0, 0)
    requires zones' == zones[ss[i].day := (if ss[i].day in zones then zones[ss[i].day] else ZoneTally(0, 0, 0, 0, 0)).Plus(ss[i].zones)]
    ensures ZonesUpTo(ss[..i + 1], zones')
  {
    forall d | d in zones' ensures zones'[d] == ZonesOn(ss[..i + 1], d) {
      OnStep(ss, i, d);
      if d == ss[i].day {
        assert zones'[d] == ZonesOn(ss[..i], d).Plus(ss[i].zones);
      } else {
        assert zones'[d] == zones[d];
        PlusZero(zones[d]);
      }
    }
  }

  lemma {:induction false} RunningCardioStep(ss: seq<WorkoutSummary>, i: nat, cardio: map<Day, nat>, cardio': map<Day, nat>)
    requires i < |ss|
    requires CardioUpTo(ss[..i], cardio)
    requires ss[i].day !in cardio ==> CardioOn(ss[..i], ss[i].day) == 0
    requires cardio' == cardio[ss[i].day := (if ss[i].day in cardio then cardio[ss[i].day] else 0) + ss[i].cardio]
    ensures CardioUpTo(ss[..i + 1], cardio')
  {
    forall d | d in cardio' ensures cardio'[d] == CardioOn(ss[..i + 1], d) {
      OnStep(ss, i, d);
    }
  }

  lemma {:induction false} PlusZero(t: ZoneTally)
    ensures t.Plus(ZoneTally(0, 0, 0, 0, 0)) == t
  {
  }

  /** `groupby("date").sum()` over the zone rows, then the recomputed zone-2 share. */
  method SumZonesByDay(ss: seq<WorkoutSummary>) returns (m: map<Day, ZoneDay>)
    ensures m == DailyZones(ss)
  {
    var zones: map<Day, ZoneTally> := map[];
    var cardio: map<Day, nat> := map[];
    var i := 0;
    while i < |ss|
      invariant 0 <= i <= |ss|
      invariant RunningSums(ss, i, zones, cardio)
    {
      var r := ss[i];
      var z := if r.day in zones then zones[r.day] else ZoneTally(0, 0, 0, 0, 0);
      var c := if r.day in cardio then cardio[r.day] else 0;
      var zones', cardio' := zones[r.day := z.Plus(r.zones)], cardio[r.day := c + r.cardio];
      RunningSumsStep(ss, i, zones, cardio, zones', cardio');
      zones, cardio := zones', cardio';
      i := i + 1;
    }
    assert ss[..i] == ss;
    m := map d | d in zones :: ZoneDayOf(zones[d], cardio[d]);
  }

  /** The HRR1 rows of the kept workouts. */
  function HrrRows(ss: seq<WorkoutSummary>): (rows: seq<Row>)
    ensures |rows| == |ss| && forall n :: 0 <= n < |ss| ==> rows[n] == Row(ss[n].day, ss[n].hrr1)
  {
    seq(|ss|, n requires 0 <= n < |ss| => Row(ss[n].day, ss[n].hrr1))
  }

  /** `groupby("date").mean()` over the HRR1 rows. */
  function DailyHrr(ss: seq<WorkoutSummary>): map<Day, real>
  {
    ByDay(HrrRows(ss), MeanPerDay)
  }

  /** `compute_zone_minutes_and_hrr1`: the daily zone table and the daily HRR1 table. */
  method ComputeZoneMinutesAndHrr1(ps: seq<Payload>) returns (zones: map<Day, ZoneDay>, hrr: map<Day, real>)
    ensures zones == DailyZones(Summaries(ps))
    ensures hrr == DailyHrr(Summaries(ps))
  {
    var ss := CollectSummaries(ps);
    zones := SumZonesByDay(ss);
    hrr := AggregateByDay(HrrRows(ss), MeanPerDay);
  }

  /** Summing valid rows keeps cardio minutes equal to the summed zone minutes, and
      positive on every day that has a row. */
  lemma {:induction false} DailySums(ss: seq<WorkoutSummary>, d: Day)
    requires forall n :: 0 <= n < |ss| ==> ValidSummary(ss[n])
    ensures CardioOn(ss, d) == ZonesOn(ss, d).Total()
    ensures d in SummaryDays(ss) ==> CardioOn(ss, d) > 0
  {
    if ss != [] {
      var init, last := ss[..|ss| - 1], ss[|ss| - 1];
      forall n | 0 <= n < |init| ensures ValidSummary(init[n]) {
        assert init[n] == ss[n];
      }
      DailySums(init, d);
      SummaryDaysStep(ss);
      assert ValidSummary(last);
      var zi := ZonesOn(init, d);
      if last.day == d {
        TotalPlus(zi, last.zones);
      } else {
        PlusZero(zi);
      }
    }
  }

  lemma {:induction false} TotalPlus(a: ZoneTally, b: ZoneTally)
    ensures a.Plus(b).Total() == a.Total() + b.Total()
  {
  }

  /** The daily tables: a zone row and an HRR1 value exist for exactly the same days;
      each day's cardio minutes are its summed zone minutes and positive (so the
      divide-by-zero guard never changes the share), its zone-2 share lies in 0..100,
      and its HRR1, a mean of non-negative values, is non-negative. */
  lemma {:induction false} DailyTables(ps: seq<Payload>)
    ensures var ss := Summaries(ps);
            && DailyZones(ss).Keys == DailyHrr(ss).Keys
            && (forall d :: d in DailyZones(ss) ==>
                  var z := DailyZones(ss)[d];
                  && z.cardio == z.zones.Total()
                  && z.cardio > 0
                  && 0.0 <= z.zone2Pct <= 100.0)
            && (forall d :: d in DailyHrr(ss) ==> DailyHrr(ss)[d] >= 0.0)
  {
    var ss := Summaries(ps);
    SummariesValid(ps);
    var rows := HrrRows(ss);
    assert DaysOf(rows) == SummaryDays(ss) by {
      forall d | d in SummaryDays(ss) ensures d in DaysOf(rows) {
        var n :| 0 <= n < |ss| && ss[n].day == d;
        assert rows[n].day == d;
      }
    }
    forall d | d in DailyZones(ss)
      ensures DailyZones(ss)[d].cardio == DailyZones(ss)[d].zones.Total()
      ensures DailyZones(ss)[d].cardio > 0
      ensures 0.0 <= DailyZones(ss)[d].zone2Pct <= 100.0
    {
      DailySums(ss, d);
      PercentBound(ZonesOn(ss, d).z2, CardioOn(ss, d));
    }
    MeanAtLeast(rows, 0.0);
  }

  /** A workout kept somewhere in the payloads and assigned to day `d`. */
  predicate KeptOn(ps: seq<Payload>, i: int, j: int, d: Day)
  {
    && 0 <= i < |ps| && 0 <= j < |RootOf(ps[i]).workouts|
    && Summarise(RootOf(ps[i]).workouts[j]).Some?
    && Summarise(RootOf(ps[i]).workouts[j]).value.day == d
  }

  /** A day has a zone row exactly when some workout of some payload is kept and
      assigned to that day. */
  lemma {:induction false} ZoneDays(ps: seq<Payload>, d: Day)
    ensures d in DailyZones(Summaries(ps)) <==> exists i, j :: KeptOn(ps, i, j, d)
  {
    if d in DailyZones(Summaries(ps)) {
      ZoneDayHasWorkout(ps, d);
    }
    if exists i, j :: KeptOn(ps, i, j, d) {
      var i, j :| KeptOn(ps, i, j, d);
      WorkoutHasZoneDay(ps, i, j, d);
    }
  }

  lemma {:induction false} ZoneDayHasWorkout(ps: seq<Payload>, d: Day)
    requires d in DailyZones(Summaries(ps))
    ensures exists i, j :: KeptOn(ps, i, j, d)
  {
    var ss := Summaries(ps);
    var n :| 0 <= n < |ss| && ss[n].day == d;
    SummariesMembership(ps, ss[n]);
    var i, j :| 0 <= i < |ps| && 0 <= j < |RootOf(ps[i]).workouts|
                && Summarise(RootOf(ps[i]).workouts[j]) == Some(ss[n]);
    assert KeptOn(ps, i, j, d);
  }

  lemma {:induction false} WorkoutHasZoneDay(ps: seq<Payload>, i: int, j: int, d: Day)
    requires KeptOn(ps, i, j, d)
    ensures d in DailyZones(Summaries(ps))
  {
    var ss := Summaries(ps);
    var r := Summarise(RootOf(ps[i]).workouts[j]).value;
    SummariesMembership(ps, r);
    var n :| 0 <= n < |ss| && ss[n] == r;
    assert d in SummaryDays(ss);
  }
}
