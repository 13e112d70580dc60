/** The scorecard's target classifier: a value is rated against the green and yellow
    bands of its metric's target, read in the direction the target names. */
module Targets {
  import opened Common

  /** A half-open band `[lo, hi)`. */
  datatype Band = Band(lo: real, hi: real)

  /** One metric's target: its direction if the target states one, and its three
      bands (the red band is required by the reader but never consulted). */
  datatype TargetSpec = TargetSpec(direction: Option<string>, green: Band, yellow: Band, red: Band)

  const OnTarget: string := "On target"
  const Borderline: string := "Borderline"
  const OffTarget: string := "Off target"

  /** A label text and the colour it is shown in. */
  datatype Rating = Rating(text: string, colour: string)

  const Green: Rating := Rating(OnTarget, "green")
  const Orange: Rating := Rating(Borderline, "orange")
  const Red: Rating := Rating(OffTarget, "red")

  const DefaultDirection: string := "higher_better"

  predicate InBand(v: real, b: Band)
  {
    b.lo <= v < b.hi
  }

  /** Within one unit below a band or at most one unit above its upper end. */
  predicate NearBand(v: real, b: Band)
  {
    (b.lo - 1.0 <= v < b.lo) || (b.hi <= v <= b.hi + 1.0)
  }

  function DirectionOf(spec: TargetSpec): string
  {
    if spec.direction.Some? then spec.direction.value else DefaultDirection
  }

  /** `status(value, spec)`. */
  function Status(value: real, spec: TargetSpec): (r: Rating)
    ensures r == Green || r == Orange || r == Red
  {
    var direction := DirectionOf(spec);
    if direction == "range_best" then
      if InBand(value, spec.green) then Green
      else if NearBand(value, spec.green) then Orange
      else Red
    else if direction == "higher_better" then
      if InBand(value, spec.green) then Green
      else if InBand(value, spec.yellow) then Orange
      else Red
    else if direction == "lower_better" then
      if InBand(value, spec.green) then Green
      else if InBand(value, spec.yellow) then Orange
      else Red
    else Orange
  }

  /** A `range_best` target: on target inside the green band, borderline within one
      unit of it, off target elsewhere; the yellow band plays no part. */
  lemma {:induction false} RangeBestBands(value: real, spec: TargetSpec)
    requires spec.direction == Some("range_best")
    ensures Status(value, spec) == Green <==> InBand(value, spec.green)
    ensures Status(value, spec) == Orange <==> !InBand(value, spec.green) && NearBand(value, spec.green)
    ensures Status(value, spec) == Red <==> !InBand(value, spec.green) && !NearBand(value, spec.green)
  {
  }

  /** The directions that read the yellow band: the green band first, then the
      yellow one, then off target. */
  predicate GreenThenYellow(spec: TargetSpec)
  {
    spec.direction == None || spec.direction == Some("higher_better") || spec.direction == Some("lower_better")
  }

  lemma {:induction false} GreenThenYellowBands(value: real, spec: TargetSpec)
    requires GreenThenYellow(spec)
    ensures Status(value, spec) == Green <==> InBand(value, spec.green)
    ensures Status(value, spec) == Orange <==> !InBand(value, spec.green) && InBand(value, spec.yellow)
    ensures Status(value, spec) == Red <==> !InBand(value, spec.green) && !InBand(value, spec.yellow)
  {
  }

  /** `higher_better` and `lower_better` rate every value alike, and a target without
      a direction is read as `higher_better`. */
  lemma {:induction false} DirectionsAlike(value: real, green: Band, yellow: Band, red: Band)
    ensures Status(value, TargetSpec(Some("higher_better"), green, yellow, red))
         == Status(value, TargetSpec(Some("lower_better"), green, yellow, red))
    ensures Status(value, TargetSpec(None, green, yellow, red))
         == Status(value, TargetSpec(Some("higher_better"), green, yellow, red))
  {
  }

  /** A direction the classifier does not know always rates borderline. */
  lemma {:induction false} UnknownDirection(value: real, spec: TargetSpec)
    requires spec.direction.Some?
    requires spec.direction.value !in {"range_best", "higher_better", "lower_better"}
    ensures Status(value, spec) == Orange
  {
  }

  /** The red band never changes a rating. */
  lemma {:induction false} RedBandUnused(value: real, spec: TargetSpec, other: Band)
    ensures Status(value, spec.(red := other)) == Status(value, spec)
  {
  }
}
