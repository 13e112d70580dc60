/** The shape of one health-export document, with the optional keys made explicit.
    A missing key is absent here. A null value is absent too, as in the source, for
    the fields the source reads with `get(..) is None` or `or`. Null lists and a null
    `data` wrapper, on which the source raises, are read as empty or flat. */
module Payload {
  import opened Common

  /** One entry of a metric's `data` list: its `date` (when the key is present) and
      its numeric fields by key (`qty`, `totalSleep`, `awake`, ...). */
  datatype DataPoint = DataPoint(date: Option<Timestamp>, fields: map<string, real>)

  /** A named metric; a missing `data` list is the empty list. */
  datatype Metric = Metric(name: string, data: seq<DataPoint>)

  /** One heart-rate bucket of a workout: `date` and `Avg`, each possibly null. */
  datatype HrPoint = HrPoint(date: Option<Timestamp>, avg: Option<real>)

  /** A workout: its `end` (absent when missing or empty) and its heart-rate buckets
      (a missing or null list is the empty list). */
  datatype Workout = Workout(end: Option<Timestamp>, heartRateData: seq<HrPoint>)

  /** The part of a document that holds the metric and workout lists. */
  datatype Root = Root(metrics: seq<Metric>, workouts: seq<Workout>)

  /** A document either wraps its content under `data` or is flat. */
  datatype Payload = Payload(data: Option<Root>, top: Root)

  /** `p.get("data", p)`: the wrapped content when present, the document itself otherwise. */
  function RootOf(p: Payload): Root
  {
    if p.data.Some? then p.data.value else p.top
  }
}
