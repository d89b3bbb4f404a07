/** The OTLP receiver: every request is derived into a set of its own, which is then merged
    into the shared set; the flusher expires and copies the shared set in one step. */
module Receiver {
  import opened Graph
  import opened BatchSet
  import opened Coherence
  import opened Routes
  import opened Builder
  import opened Derivation
  import opened DeltaFacts
  import opened Deliveries
  import opened DeliveryFacts

  class Server {
    const shared: BatchWriteSet

    constructor ()
      ensures fresh(shared) && shared.Value() == NOTHING
    {
      shared := new BatchWriteSet();
    }

    /** The buffer `buf` is reused for every datapoint and cleared before each. */
    method DerivePoints(local: BatchWriteSet, attrs: map<string, string>, points: seq<map<string, string>>,
                        parse: UrlParser) returns (records: nat)
      modifies local
      ensures local.Value() == DerivedPoints(old(local.Value()), attrs, points, parse) && records == |points|
    {
      var buf: map<string, string>;
      for j := 0 to |points|
        invariant local.Value() == DerivedPoints(old(local.Value()), attrs, points[..j], parse)
      {
        buf := map[];
        buf := buf + points[j];
        buf := TemplatizeAttrs(buf, parse);
        assert map[] + points[j] == points[j];
        assert points[..j + 1][..j] == points[..j];
        var _ := Derive(local, Record(attrs, buf), parse);
      }
      assert points[..|points|] == points;
      return |points|;
    }

    /** The datapoints of a metric, whatever its type; none if it has no known type. */
    method DeriveMetric(local: BatchWriteSet, attrs: map<string, string>, m: Metric, parse: UrlParser)
      returns (records: nat)
      modifies local
      ensures local.Value() == DerivedPoints(old(local.Value()), attrs, MetricPoints(m), parse)
      ensures records == |MetricPoints(m)|
    {
      match m
      case Gauge(points) => records := DerivePoints(local, attrs, points, parse);
      case Sum(points) => records := DerivePoints(local, attrs, points, parse);
      case Histogram(points) => records := DerivePoints(local, attrs, points, parse);
      case ExponentialHistogram(points) => records := DerivePoints(local, attrs, points, parse);
      case Summary(points) => records := DerivePoints(local, attrs, points, parse);
      case Untyped => records := 0;
    }

    method DeriveScope(local: BatchWriteSet, attrs: map<string, string>, metrics: seq<Metric>, parse: UrlParser)
      returns (records: nat)
      modifies local
      ensures local.Value() == DerivedPoints(old(local.Value()), attrs, ScopePoints(metrics), parse)
      ensures records == |ScopePoints(metrics)|
    {
      records := 0;
      for k := 0 to |metrics|
        invariant local.Value() == DerivedPoints(old(local.Value()), attrs, ScopePoints(metrics[..k]), parse)
        invariant records == |ScopePoints(metrics[..k])|
      {
        var n := DeriveMetric(local, attrs, metrics[k], parse);
        records := records + n;
        PointsConcat(old(local.Value()), attrs, ScopePoints(metrics[..k]), MetricPoints(metrics[k]), parse);
        assert metrics[..k + 1][..k] == metrics[..k];
      }
      assert metrics[..|metrics|] == metrics;
    }

    method DeriveResource(local: BatchWriteSet, rm: Delivered, parse: UrlParser) returns (records: nat)
      modifies local
      ensures local.Value() == DerivedPoints(old(local.Value()), rm.attrs, AllPoints(rm.scopes), parse)
      ensures records == |AllPoints(rm.scopes)|
    {
      records := 0;
      for j := 0 to |rm.scopes|
        invariant local.Value() == DerivedPoints(old(local.Value()), rm.attrs, AllPoints(rm.scopes[..j]), parse)
        invariant records == |AllPoints(rm.scopes[..j])|
      {
        var n := DeriveScope(local, rm.attrs, rm.scopes[j], parse);
        records := records + n;
        PointsConcat(old(local.Value()), rm.attrs, AllPoints(rm.scopes[..j]), ScopePoints(rm.scopes[j]), parse);
        assert rm.scopes[..j + 1][..j] == rm.scopes[..j];
      }
      assert rm.scopes[..|rm.scopes|] == rm.scopes;
    }

    method DeriveAll(md: seq<Delivered>, parse: UrlParser) returns (local: BatchWriteSet, records: nat)
      ensures fresh(local) && local.Value() == DerivedRequest(NOTHING, Flattened(md), parse)
      ensures Complete(md, parse, local.Value())
      ensures records == Points(Flattened(md))
      ensures records > 0 <==> exists attrs, point :: IsPoint(md, attrs, point)
    {
      local := new BatchWriteSet();
      records := 0;
      for i := 0 to |md|
        invariant fresh(local) && local.Value() == DerivedRequest(NOTHING, Flattened(md[..i]), parse)
        invariant records == Points(Flattened(md[..i]))
      {
        var n := DeriveResource(local, md[i], parse);
        records := records + n;
        FlattenedMore(md, i);
      }
      assert md[..|md|] == md;
      DerivedIsComplete(md, parse);
      SomePointIff(md);
    }

    /** A request without datapoints leaves the shared set alone. */
    method Export(md: seq<Delivered>, now: int, parse: UrlParser)
      modifies shared
      ensures shared.Value() ==
              if Points(Flattened(md)) == 0 then old(shared.Value())
              else Merged(old(shared.Value()), DerivedRequest(NOTHING, Flattened(md), parse), now)
      ensures exists local ::
                && Complete(md, parse, local)
                && shared.Value() == if exists attrs, point :: IsPoint(md, attrs, point)
                                     then Merged(old(shared.Value()), local, now) else old(shared.Value())
    {
      var local, records := DeriveAll(md, parse);
      if records == 0 {
        return;
      }
      shared.Merge(local, now);
    }

    method ExpireAndSnapshot(cutoff: int) returns (snap: BatchWriteSet, goneEntities: nat, goneEdges: nat)
      modifies shared
      ensures fresh(snap) && snap.Value() == shared.Value() == Expired(old(shared.Value()), cutoff)
      ensures goneEntities + |snap.entities| == |old(shared.entities)|
      ensures goneEdges + |snap.edges| == |old(shared.edges)|
    {
      goneEntities, goneEdges := shared.Expire(cutoff);
      snap := shared.Snapshot();
    }
  }

  lemma {:induction false} PointsConcat(s: Snap, attrs: map<string, string>, x: seq<map<string, string>>,
                                        y: seq<map<string, string>>, parse: UrlParser)
    ensures DerivedPoints(DerivedPoints(s, attrs, x, parse), attrs, y, parse) == DerivedPoints(s, attrs, x + y, parse)
  {
    if y == [] {
      assert x + y == x;
    } else {
      assert (x + y)[..|x + y| - 1] == x + y[..|y| - 1];
      PointsConcat(s, attrs, x, y[..|y| - 1], parse);
    }
  }

  lemma FlattenedMore(md: seq<Delivered>, i: nat)
    requires i < |md|
    ensures Flattened(md[..i + 1]) == Flattened(md[..i]) + [Resource(md[i].attrs, AllPoints(md[i].scopes))]
    ensures (Flattened(md[..i]) + [Resource(md[i].attrs, AllPoints(md[i].scopes))])[..i] == Flattened(md[..i])
  {
  }

  // ----- what every request contributes

  lemma {:induction false} PointsLocal(s: Snap, attrs: map<string, string>, points: seq<map<string, string>>,
                                       parse: UrlParser)
    requires Local(s)
    ensures Local(DerivedPoints(s, attrs, points, parse))
  {
    if points != [] {
      PointsLocal(s, attrs, points[..|points| - 1], parse);
      DerivedLocal(DerivedPoints(s, attrs, points[..|points| - 1], parse),
                   RecordOf(attrs, points[|points| - 1], parse), parse);
    }
  }

  /** Whatever a request contains, its set is coherent. */
  lemma {:induction false} RequestLocal(request: seq<Resource>, parse: UrlParser)
    ensures Local(DerivedRequest(NOTHING, request, parse))
  {
    if request == [] {
      NothingCoherent();
    } else {
      var last := request[|request| - 1];
      RequestLocal(request[..|request| - 1], parse);
      PointsLocal(DerivedRequest(NOTHING, request[..|request| - 1], parse), last.attrs, last.points, parse);
    }
  }

  ghost predicate SlashFreeRequest(request: seq<Resource>, parse: UrlParser) {
    forall rm, point | rm in request && point in rm.points :: SlashFree(RecordOf(rm.attrs, point, parse))
  }

  lemma {:induction false} PointsNamed(s: Snap, attrs: map<string, string>, points: seq<map<string, string>>,
                                       parse: UrlParser)
    requires Named(NameOf(NameFromId), s)
    requires forall point | point in points :: SlashFree(RecordOf(attrs, point, parse))
    ensures Named(NameOf(NameFromId), DerivedPoints(s, attrs, points, parse))
  {
    if points != [] {
      var last := points[|points| - 1];
      PointsNamed(s, attrs, points[..|points| - 1], parse);
      assert last in points;
      DerivedNamed(DerivedPoints(s, attrs, points[..|points| - 1], parse), RecordOf(attrs, last, parse), parse);
    }
  }

  /** Requests without slashes in services, methods and systems name entities after their IDs. */
  lemma {:induction false} RequestNamed(request: seq<Resource>, parse: UrlParser)
    requires SlashFreeRequest(request, parse)
    ensures Named(NameOf(NameFromId), DerivedRequest(NOTHING, request, parse))
  {
    if request != [] {
      var last := request[|request| - 1];
      assert last in request;
      RequestNamed(request[..|request| - 1], parse);
      PointsNamed(DerivedRequest(NOTHING, request[..|request| - 1], parse), last.attrs, last.points, parse);
    }
  }

  // ----- request boundaries do not matter

  /** `t` is `s` with everything of `d` written over it. */
  ghost predicate Over(t: Snap, s: Snap, d: Snap) {
    t.entities == s.entities + d.entities && t.edges == s.edges + d.edges && t.metas == s.metas && d.metas == map[]
  }

  lemma PutOver<K, V>(t: map<K, V>, s: map<K, V>, d: map<K, V>, k: K, v: V)
    requires t == s + d
    ensures t[k := v] == s + d[k := v]
  {
  }

  lemma RelatedOver(t: Snap, s: Snap, d: Snap, emitter: string, rel: Relationship)
    requires Over(t, s, d)
    ensures Over(Related(t, emitter, rel), s, Related(d, emitter, rel))
  {
    PutOver(t.entities, s.entities, d.entities, rel.id, EntityVal(rel.kind, rel.name, ZERO_TIME));
    var k, l := EdgeKey(rel.id, rel.forward.Reverse(), emitter, rel.action),
      EdgeKey(emitter, rel.forward, rel.id, rel.action);
    PutOver(t.edges, s.edges, d.edges, k, ZERO_TIME);
    PutOver(t.edges[k := ZERO_TIME], s.edges, d.edges[k := ZERO_TIME], l, ZERO_TIME);
  }

  lemma DerivedOver(t: Snap, s: Snap, d: Snap, r: Record, parse: UrlParser)
    requires Over(t, s, d)
    ensures Over(Derived(t, r, parse), s, Derived(d, r, parse))
  {
    var emitter := Emitter(r);
    if emitter != "" {
      var t1, d1 := MaybeRelated(t, emitter, EndpointOf(r, parse)), MaybeRelated(d, emitter, EndpointOf(r, parse));
      if EndpointOf(r, parse).Some? {
        RelatedOver(t, s, d, emitter, EndpointOf(r, parse).value);
      }
      var t2, d2 := MaybeRelated(t1, emitter, TopicOf(r)), MaybeRelated(d1, emitter, TopicOf(r));
      if TopicOf(r).Some? {
        RelatedOver(t1, s, d1, emitter, TopicOf(r).value);
      }
      if DatabaseOf(r).Some? {
        RelatedOver(t2, s, d2, emitter, DatabaseOf(r).value);
      }
    }
  }

  lemma {:induction false} PointsOver(t: Snap, s: Snap, d: Snap, attrs: map<string, string>,
                                      points: seq<map<string, string>>, parse: UrlParser)
    requires Over(t, s, d)
    ensures Over(DerivedPoints(t, attrs, points, parse), s, DerivedPoints(d, attrs, points, parse))
  {
    if points != [] {
      var init := points[..|points| - 1];
      PointsOver(t, s, d, attrs, init, parse);
      DerivedOver(DerivedPoints(t, attrs, init, parse), s, DerivedPoints(d, attrs, init, parse),
                  RecordOf(attrs, points[|points| - 1], parse), parse);
    }
  }

  lemma {:induction false} RequestOver(s: Snap, request: seq<Resource>, parse: UrlParser)
    ensures Over(DerivedRequest(s, request, parse), s, DerivedRequest(NOTHING, request, parse))
  {
    if request == [] {
      assert s.entities + map[] == s.entities && s.edges + map[] == s.edges;
    } else {
      var init, last := request[..|request| - 1], request[|request| - 1];
      RequestOver(s, init, parse);
      PointsOver(DerivedRequest(s, init, parse), s, DerivedRequest(NOTHING, init, parse), last.attrs, last.points,
                 parse);
    }
  }

  lemma {:induction false} RequestConcat(s: Snap, a: seq<Resource>, b: seq<Resource>, parse: UrlParser)
    ensures DerivedRequest(s, a + b, parse) == DerivedRequest(DerivedRequest(s, a, parse), b, parse)
  {
    if b == [] {
      assert a + b == a;
    } else {
      assert (a + b)[..|a + b| - 1] == a + b[..|b| - 1];
      RequestConcat(s, a, b[..|b| - 1], parse);
    }
  }

  lemma StampedTwice(s: map<string, EntityVal>, x: map<string, EntityVal>, d: map<string, EntityVal>, now: int)
    ensures s + Stamped(x + d, now) == (s + Stamped(x, now)) + Stamped(d, now)
  {
  }

  lemma StampedEdgesTwice(s: map<EdgeKey, int>, x: map<EdgeKey, int>, d: map<EdgeKey, int>, now: int)
    ensures s + StampedEdges(x + d, now) == (s + StampedEdges(x, now)) + StampedEdges(d, now)
  {
  }

  lemma NoNewMetas(ours: map<string, map<string, string>>)
    ensures ours + NewMetas(ours, map[]) == ours
  {
    assert NewMetas(ours, map[]) == map[];
  }

  lemma MergeOver(s: Snap, x: Snap, d: Snap, t: Snap, now: int)
    requires Over(t, x, d) && x.metas == map[]
    ensures Merged(s, t, now) == Merged(Merged(s, x, now), d, now)
  {
    StampedTwice(s.entities, x.entities, d.entities, now);
    StampedEdgesTwice(s.edges, x.edges, d.edges, now);
    NoNewMetas(s.metas);
  }

  /** One request or two, at the same time, contribute the same. */
  lemma SplitRequests(s: Snap, a: seq<Resource>, b: seq<Resource>, now: int, parse: UrlParser)
    ensures Merged(s, DerivedRequest(NOTHING, a + b, parse), now) ==
            Merged(Merged(s, DerivedRequest(NOTHING, a, parse), now), DerivedRequest(NOTHING, b, parse), now)
  {
    var x, d := DerivedRequest(NOTHING, a, parse), DerivedRequest(NOTHING, b, parse);
    RequestConcat(NOTHING, a, b, parse);
    RequestOver(x, b, parse);
    RequestOver(NOTHING, a, parse);
    MergeOver(s, x, d, DerivedRequest(NOTHING, a + b, parse), now);
  }
}
