/** What a whole delivery derives: exactly what its datapoints are about, each under its resource,
    wherever in the delivery it stands. */
module DeliveryFacts {
  import opened Graph
  import opened BatchSet
  import opened Routes
  import opened Builder
  import opened Derivation
  import opened Deliveries

  /** A datapoint of a metric of known type, with the attributes of its resource. */
  ghost predicate IsPoint(md: seq<Delivered>, attrs: map<string, string>, point: map<string, string>) {
    exists i, j, k :: PointAt(md, i, j, k, attrs, point)
  }

  predicate PointAt(md: seq<Delivered>, i: int, j: int, k: int, attrs: map<string, string>,
                    point: map<string, string>) {
    && 0 <= i < |md| && 0 <= j < |md[i].scopes| && 0 <= k < |md[i].scopes[j]|
    && !md[i].scopes[j][k].Untyped? && attrs == md[i].attrs && point in md[i].scopes[j][k].points
  }

  // ----- flattening loses and invents nothing

  ghost predicate SomeMetric(metrics: seq<Metric>, point: map<string, string>) {
    exists k :: 0 <= k < |metrics| && !metrics[k].Untyped? && point in metrics[k].points
  }

  lemma MetricSnoc(init: seq<Metric>, last: Metric, metrics: seq<Metric>, point: map<string, string>)
    requires metrics == init + [last]
    ensures SomeMetric(metrics, point) <==> SomeMetric(init, point) || (!last.Untyped? && point in last.points)
  {
    if SomeMetric(metrics, point) {
      var k :| 0 <= k < |metrics| && !metrics[k].Untyped? && point in metrics[k].points;
      assert k < |init| ==> metrics[k] == init[k];
    }
    if SomeMetric(init, point) {
      var k :| 0 <= k < |init| && !init[k].Untyped? && point in init[k].points;
      assert metrics[k] == init[k];
    }
    assert metrics[|init|] == last;
  }

  lemma {:induction false} InScope(metrics: seq<Metric>, point: map<string, string>)
    ensures point in ScopePoints(metrics) <==> SomeMetric(metrics, point)
  {
    if metrics != [] {
      var init, last := metrics[..|metrics| - 1], metrics[|metrics| - 1];
      InScope(init, point);
      MetricSnoc(init, last, metrics, point);
    }
  }

  ghost predicate SomeScope(scopes: seq<seq<Metric>>, point: map<string, string>) {
    exists j :: 0 <= j < |scopes| && SomeMetric(scopes[j], point)
  }

  lemma ScopeSnoc(init: seq<seq<Metric>>, last: seq<Metric>, scopes: seq<seq<Metric>>, point: map<string, string>)
    requires scopes == init + [last]
    ensures SomeScope(scopes, point) <==> SomeScope(init, point) || SomeMetric(last, point)
  {
    if SomeScope(scopes, point) {
      var j :| 0 <= j < |scopes| && SomeMetric(scopes[j], point);
      assert j < |init| ==> scopes[j] == init[j];
    }
    if SomeScope(init, point) {
      var j :| 0 <= j < |init| && SomeMetric(init[j], point);
      assert scopes[j] == init[j];
    }
    assert scopes[|init|] == last;
  }

  lemma {:induction false} InScopes(scopes: seq<seq<Metric>>, point: map<string, string>)
    ensures point in AllPoints(scopes) <==> SomeScope(scopes, point)
  {
    if scopes != [] {
      var init, last := scopes[..|scopes| - 1], scopes[|scopes| - 1];
      InScopes(init, point);
      InScope(last, point);
      ScopeSnoc(init, last, scopes, point);
    }
  }

  ghost predicate InRequest(request: seq<Resource>, attrs: map<string, string>, point: map<string, string>) {
    exists i :: 0 <= i < |request| && request[i].attrs == attrs && point in request[i].points
  }

  lemma FlattenedIff(md: seq<Delivered>, attrs: map<string, string>, point: map<string, string>)
    ensures InRequest(Flattened(md), attrs, point) <==> IsPoint(md, attrs, point)
  {
    if InRequest(Flattened(md), attrs, point) {
      var i :| 0 <= i < |md| && Flattened(md)[i].attrs == attrs && point in Flattened(md)[i].points;
      InScopes(md[i].scopes, point);
      var j :| 0 <= j < |md[i].scopes| && SomeMetric(md[i].scopes[j], point);
      var k :| 0 <= k < |md[i].scopes[j]| && !md[i].scopes[j][k].Untyped? && point in md[i].scopes[j][k].points;
      assert PointAt(md, i, j, k, attrs, point);
    }
    if IsPoint(md, attrs, point) {
      var i, j, k :| PointAt(md, i, j, k, attrs, point);
      assert SomeMetric(md[i].scopes[j], point);
      InScopes(md[i].scopes, point);
      assert Flattened(md)[i].attrs == attrs && point in Flattened(md)[i].points;
    }
  }

  // ----- what the datapoints are about

  /** The datapoint, templated, has an emitter and is about this relationship. */
  ghost predicate Shows(attrs: map<string, string>, point: map<string, string>, parse: UrlParser, rel: Relationship) {
    var r := Record(attrs, TemplatizeAttrs(point, parse));
    Emitter(r) != "" && rel in About(r, parse)
  }

  ghost predicate ShowsEdge(attrs: map<string, string>, point: map<string, string>, parse: UrlParser, k: EdgeKey) {
    var emitter := Emitter(Record(attrs, TemplatizeAttrs(point, parse)));
    exists rel :: Shows(attrs, point, parse, rel) && (k == Forward(emitter, rel) || k == Backward(emitter, rel))
  }

  ghost predicate ShowsEntity(attrs: map<string, string>, point: map<string, string>, parse: UrlParser, id: string) {
    exists rel :: Shows(attrs, point, parse, rel) && rel.id == id
  }

  lemma PointExactly(s: Snap, attrs: map<string, string>, point: map<string, string>, parse: UrlParser, k: EdgeKey,
                     id: string)
    ensures var s' := Derived(s, RecordOf(attrs, point, parse), parse);
            && (k in s'.edges <==> k in s.edges || ShowsEdge(attrs, point, parse, k))
            && (id in s'.entities <==> id in s.entities || ShowsEntity(attrs, point, parse, id))
  {
    DerivedExactly(s, RecordOf(attrs, point, parse), parse, k, id);
  }

  ghost predicate SomeEdge(attrs: map<string, string>, points: seq<map<string, string>>, parse: UrlParser, k: EdgeKey) {
    exists point :: point in points && ShowsEdge(attrs, point, parse, k)
  }

  ghost predicate SomeEntity(attrs: map<string, string>, points: seq<map<string, string>>, parse: UrlParser,
                             id: string) {
    exists point :: point in points && ShowsEntity(attrs, point, parse, id)
  }

  lemma SomeSnoc(attrs: map<string, string>, init: seq<map<string, string>>, last: map<string, string>,
                 points: seq<map<string, string>>, parse: UrlParser, k: EdgeKey, id: string)
    requires points == init + [last]
    ensures SomeEdge(attrs, points, parse, k) <==> SomeEdge(attrs, init, parse, k) || ShowsEdge(attrs, last, parse, k)
    ensures SomeEntity(attrs, points, parse, id) <==>
            SomeEntity(attrs, init, parse, id) || ShowsEntity(attrs, last, parse, id)
  {
    assert forall point :: point in points <==> point in init || point == last;
  }

  lemma {:induction false} PointsExactly(s: Snap, attrs: map<string, string>, points: seq<map<string, string>>,
                                         parse: UrlParser, k: EdgeKey, id: string)
    ensures k in DerivedPoints(s, attrs, points, parse).edges <==> k in s.edges || SomeEdge(attrs, points, parse, k)
    ensures id in DerivedPoints(s, attrs, points, parse).entities <==>
            id in s.entities || SomeEntity(attrs, points, parse, id)
  {
    if points != [] {
      var init, last := points[..|points| - 1], points[|points| - 1];
      PointsExactly(s, attrs, init, parse, k, id);
      PointExactly(DerivedPoints(s, attrs, init, parse), attrs, last, parse, k, id);
      SomeSnoc(attrs, init, last, points, parse, k, id);
    }
  }

  ghost predicate RequestEdge(request: seq<Resource>, parse: UrlParser, k: EdgeKey) {
    exists i :: 0 <= i < |request| && SomeEdge(request[i].attrs, request[i].points, parse, k)
  }

  ghost predicate RequestEntity(request: seq<Resource>, parse: UrlParser, id: string) {
    exists i :: 0 <= i < |request| && SomeEntity(request[i].attrs, request[i].points, parse, id)
  }

  lemma EdgeSnoc(init: seq<Resource>, last: Resource, request: seq<Resource>, parse: UrlParser, k: EdgeKey)
    requires request == init + [last]
    ensures RequestEdge(request, parse, k) <==>
            RequestEdge(init, parse, k) || SomeEdge(last.attrs, last.points, parse, k)
  {
    if i :| 0 <= i < |request| && SomeEdge(request[i].attrs, request[i].points, parse, k) {
      assert i < |init| ==> request[i] == init[i];
    }
    if i :| 0 <= i < |init| && SomeEdge(init[i].attrs, init[i].points, parse, k) {
      assert request[i] == init[i];
    }
    assert request[|init|] == last;
  }

  lemma EntitySnoc(init: seq<Resource>, last: Resource, request: seq<Resource>, parse: UrlParser, id: string)
    requires request == init + [last]
    ensures RequestEntity(request, parse, id) <==>
            RequestEntity(init, parse, id) || SomeEntity(last.attrs, last.points, parse, id)
  {
    if i :| 0 <= i < |request| && SomeEntity(request[i].attrs, request[i].points, parse, id) {
      assert i < |init| ==> request[i] == init[i];
    }
    if i :| 0 <= i < |init| && SomeEntity(init[i].attrs, init[i].points, parse, id) {
      assert request[i] == init[i];
    }
    assert request[|init|] == last;
  }

  lemma RequestUnfolds(request: seq<Resource>, init: seq<Resource>, last: Resource, parse: UrlParser)
    requires request != [] && init == request[..|request| - 1] && last == request[|request| - 1]
    ensures DerivedRequest(NOTHING, request, parse) ==
            DerivedPoints(DerivedRequest(NOTHING, init, parse), last.attrs, last.points, parse)
    ensures request == init + [last]
  {
  }

  lemma NothingRequested(parse: UrlParser)
    ensures DerivedRequest(NOTHING, [], parse) == NOTHING
  {
  }

  lemma EdgesStep(s: Snap, init: seq<Resource>, last: Resource, request: seq<Resource>, parse: UrlParser, k: EdgeKey)
    requires request == init + [last] && (k in s.edges <==> RequestEdge(init, parse, k))
    ensures k in DerivedPoints(s, last.attrs, last.points, parse).edges <==> RequestEdge(request, parse, k)
  {
    PointsExactly(s, last.attrs, last.points, parse, k, "");
    EdgeSnoc(init, last, request, parse, k);
  }

  lemma EntitiesStep(s: Snap, init: seq<Resource>, last: Resource, request: seq<Resource>, parse: UrlParser,
                     id: string)
    requires request == init + [last] && (id in s.entities <==> RequestEntity(init, parse, id))
    ensures id in DerivedPoints(s, last.attrs, last.points, parse).entities <==> RequestEntity(request, parse, id)
  {
    PointsExactly(s, last.attrs, last.points, parse, NO_EDGE, id);
    EntitySnoc(init, last, request, parse, id);
  }

  lemma {:induction false} EdgesExactly(request: seq<Resource>, parse: UrlParser, k: EdgeKey)
    ensures k in DerivedRequest(NOTHING, request, parse).edges <==> RequestEdge(request, parse, k)
  {
    if request == [] {
      NothingRequested(parse);
    } else {
      var init, last := request[..|request| - 1], request[|request| - 1];
      EdgesExactly(init, parse, k);
      RequestUnfolds(request, init, last, parse);
      EdgesStep(DerivedRequest(NOTHING, init, parse), init, last, request, parse, k);
    }
  }

  lemma {:induction false} EntitiesExactly(request: seq<Resource>, parse: UrlParser, id: string)
    ensures id in DerivedRequest(NOTHING, request, parse).entities <==> RequestEntity(request, parse, id)
  {
    if request == [] {
      NothingRequested(parse);
    } else {
      var init, last := request[..|request| - 1], request[|request| - 1];
      EntitiesExactly(init, parse, id);
      RequestUnfolds(request, init, last, parse);
      EntitiesStep(DerivedRequest(NOTHING, init, parse), init, last, request, parse, id);
    }
  }

  const NO_EDGE := EdgeKey("", Calls, "", "")

  /** The set derived from a delivery holds exactly the entities of, and both edges of, every
      relationship that some datapoint of it shows. */
  ghost predicate Complete(md: seq<Delivered>, parse: UrlParser, s: Snap) {
    && (forall id :: id in s.entities <==>
                     exists attrs, point :: IsPoint(md, attrs, point) && ShowsEntity(attrs, point, parse, id))
    && (forall k :: k in s.edges <==>
                    exists attrs, point :: IsPoint(md, attrs, point) && ShowsEdge(attrs, point, parse, k))
  }

  lemma EntityComplete(md: seq<Delivered>, parse: UrlParser, id: string)
    ensures id in DerivedRequest(NOTHING, Flattened(md), parse).entities <==>
            exists attrs, point :: IsPoint(md, attrs, point) && ShowsEntity(attrs, point, parse, id)
  {
    var request := Flattened(md);
    EntitiesExactly(request, parse, id);
    if RequestEntity(request, parse, id) {
      var i :| 0 <= i < |request| && SomeEntity(request[i].attrs, request[i].points, parse, id);
      var point :| point in request[i].points && ShowsEntity(request[i].attrs, point, parse, id);
      FlattenedIff(md, request[i].attrs, point);
    }
    if attrs, point :| IsPoint(md, attrs, point) && ShowsEntity(attrs, point, parse, id) {
      FlattenedIff(md, attrs, point);
      var i :| 0 <= i < |request| && request[i].attrs == attrs && point in request[i].points;
      assert SomeEntity(request[i].attrs, request[i].points, parse, id);
    }
  }

  lemma EdgeComplete(md: seq<Delivered>, parse: UrlParser, k: EdgeKey)
    ensures k in DerivedRequest(NOTHING, Flattened(md), parse).edges <==>
            exists attrs, point :: IsPoint(md, attrs, point) && ShowsEdge(attrs, point, parse, k)
  {
    var request := Flattened(md);
    EdgesExactly(request, parse, k);
    if RequestEdge(request, parse, k) {
      var i :| 0 <= i < |request| && SomeEdge(request[i].attrs, request[i].points, parse, k);
      var point :| point in request[i].points && ShowsEdge(request[i].attrs, point, parse, k);
      FlattenedIff(md, request[i].attrs, point);
    }
    if attrs, point :| IsPoint(md, attrs, point) && ShowsEdge(attrs, point, parse, k) {
      FlattenedIff(md, attrs, point);
      var i :| 0 <= i < |request| && request[i].attrs == attrs && point in request[i].points;
      assert SomeEdge(request[i].attrs, request[i].points, parse, k);
    }
  }

  lemma DerivedIsComplete(md: seq<Delivered>, parse: UrlParser)
    ensures Complete(md, parse, DerivedRequest(NOTHING, Flattened(md), parse))
  {
    forall id
      ensures id in DerivedRequest(NOTHING, Flattened(md), parse).entities <==>
              exists attrs, point :: IsPoint(md, attrs, point) && ShowsEntity(attrs, point, parse, id)
    {
      EntityComplete(md, parse, id);
    }
    forall k
      ensures k in DerivedRequest(NOTHING, Flattened(md), parse).edges <==>
              exists attrs, point :: IsPoint(md, attrs, point) && ShowsEdge(attrs, point, parse, k)
    {
      EdgeComplete(md, parse, k);
    }
  }

  // ----- the count

  lemma {:induction false} CountPositive(request: seq<Resource>)
    ensures Points(request) > 0 <==> exists attrs, point :: InRequest(request, attrs, point)
  {
    if request != [] {
      var n := |request| - 1;
      CountPositive(request[..n]);
      if attrs, point :| InRequest(request[..n], attrs, point) {
        var i :| 0 <= i < n && request[..n][i].attrs == attrs && point in request[..n][i].points;
        assert request[i].attrs == attrs && point in request[i].points;
        assert InRequest(request, attrs, point);
      }
      if |request[n].points| > 0 {
        assert request[n].points[0] in request[n].points;
        assert InRequest(request, request[n].attrs, request[n].points[0]);
      }
      if attrs, point :| InRequest(request, attrs, point) {
        var i :| 0 <= i < |request| && request[i].attrs == attrs && point in request[i].points;
        if i < n {
          assert request[..n][i] == request[i];
          assert InRequest(request[..n], attrs, point);
        }
      }
    }
  }

  /** The receiver sees datapoints exactly when there is one of a metric of known type. */
  lemma SomePointIff(md: seq<Delivered>)
    ensures Points(Flattened(md)) > 0 <==> exists attrs, point :: IsPoint(md, attrs, point)
  {
    CountPositive(Flattened(md));
    forall attrs, point ensures InRequest(Flattened(md), attrs, point) <==> IsPoint(md, attrs, point) {
      FlattenedIff(md, attrs, point);
    }
  }
}
