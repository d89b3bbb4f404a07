/** A delivery of span metrics as it arrives, and what deriving makes of it datapoint by datapoint. */
module Deliveries {
  import opened Graph
  import opened BatchSet
  import opened Routes
  import opened Builder

  /** One resource of a request: its attributes and those of its datapoints, in order. */
  datatype Resource = Resource(attrs: map<string, string>, points: seq<map<string, string>>)

  /** A metric of one of the known types, with its datapoints, or of none. */
  datatype Metric =
    | Gauge(points: seq<map<string, string>>)
    | Sum(points: seq<map<string, string>>)
    | Histogram(points: seq<map<string, string>>)
    | ExponentialHistogram(points: seq<map<string, string>>)
    | Summary(points: seq<map<string, string>>)
    | Untyped

  /** A resource as delivered: its metrics are grouped by scope. */
  datatype Delivered = Delivered(attrs: map<string, string>, scopes: seq<seq<Metric>>)

  function MetricPoints(m: Metric): seq<map<string, string>> {
    if m.Untyped? then [] else m.points
  }

  function ScopePoints(metrics: seq<Metric>): seq<map<string, string>> {
    if metrics == [] then [] else ScopePoints(metrics[..|metrics| - 1]) + MetricPoints(metrics[|metrics| - 1])
  }

  function AllPoints(scopes: seq<seq<Metric>>): seq<map<string, string>> {
    if scopes == [] then [] else AllPoints(scopes[..|scopes| - 1]) + ScopePoints(scopes[|scopes| - 1])
  }

  /** What deriving sees of a delivery: datapoints under their resource, in order. */
  function Flattened(md: seq<Delivered>): seq<Resource> {
    seq(|md|, i requires 0 <= i < |md| => Resource(md[i].attrs, AllPoints(md[i].scopes)))
  }

  function RecordOf(attrs: map<string, string>, point: map<string, string>, parse: UrlParser): Record {
    Record(attrs, TemplatizeAttrs(point, parse))
  }

  function DerivedPoints(s: Snap, attrs: map<string, string>, points: seq<map<string, string>>,
                         parse: UrlParser): Snap {
    if points == [] then s
    else Derived(DerivedPoints(s, attrs, points[..|points| - 1], parse), RecordOf(attrs, points[|points| - 1], parse),
                 parse)
  }

  function DerivedRequest(s: Snap, request: seq<Resource>, parse: UrlParser): Snap {
    if request == [] then s
    else
      var last := request[|request| - 1];
      DerivedPoints(DerivedRequest(s, request[..|request| - 1], parse), last.attrs, last.points, parse)
  }

  function Points(request: seq<Resource>): nat {
    if request == [] then 0 else Points(request[..|request| - 1]) + |request[|request| - 1].points|
  }
}
