/** Deriving relationships from span-metric records: which endpoint, topic and database a
    record is about, and the entity and edge pair each of them contributes. */
module Builder {
  import opened Wrappers
  import opened Strings
  import opened Graph
  import opened BatchSet
  import opened Coherence
  import opened Routes

  /** Resource attributes and datapoint attributes of one observation. */
  datatype Record = Record(attrs: map<string, string>, series: map<string, string>)

  // ----- attribute helpers

  predicate IsSpace(c: char) {
    c == ' ' || c == '\t' || c == '\n' || c == '\r' || c as int == 11 || c as int == 12
  }

  function TrimSpace(s: string): string
    decreases |s|
  {
    if s == "" then s
    else if IsSpace(s[0]) then TrimSpace(s[1..])
    else if IsSpace(s[|s| - 1]) then TrimSpace(s[..|s| - 1])
    else s
  }

  function Upper(s: string): string {
    seq(|s|, i requires 0 <= i < |s| =>
      if 'a' <= s[i] <= 'z' then ((s[i] as int) - 32) as char else s[i])
  }

  function NormalizeSpanKind(s: string): string {
    var u := Upper(TrimSpace(s));
    if HasPrefix(u, "SPAN_KIND_") then u[10..] else u
  }

  function StripPort(addr: string): string {
    var i := LastIndexOf(addr, ':');
    if i >= 0 then addr[..i] else addr
  }

  /** Collapses numeric IDs in the two high-cardinality attributes. */
  function TemplatizeAttrs(m: map<string, string>, parse: UrlParser): map<string, string> {
    var m1 := if "url.full" in m then m["url.full" := TemplatizeUrl(m["url.full"], parse)] else m;
    if "span.name" in m1 then m1["span.name" := TemplatizeSpanName(m1["span.name"])] else m1
  }

  function Emitter(r: Record): string {
    var namespace, pod, container :=
      Lookup(r.attrs, "k8s.namespace.name"), Lookup(r.attrs, "k8s.pod.name"), Lookup(r.attrs, "k8s.container.name");
    if pod == "" || namespace == "" then ""
    else if container != "" then CONTAINER + ":" + (namespace + "/" + pod + "/" + container)
    else POD + ":" + (namespace + "/" + pod)
  }

  // ----- IDs and display names

  function EndpointId(svc: string, verb: string, route: string): string {
    ENDPOINT + ":" + (svc + "/" + verb + Rooted(route))
  }

  function EndpointName(verb: string, route: string): string {
    verb + " " + Rooted(route)
  }

  function DatabaseEndpoint(host: string, port: string): string {
    if port != "" then host + ":" + port else host
  }

  function DatabaseId(system: string, host: string, port: string): string {
    DATABASE + ":" + (system + "/" + DatabaseEndpoint(host, port))
  }

  function DatabaseName(system: string, host: string, port: string): string {
    system + "@" + DatabaseEndpoint(host, port)
  }

  function TopicId(topic: string): string {
    TOPIC + ":" + topic
  }

  function TopicOfSpan(spanName: string): string {
    var sp := IndexOf(spanName, ' ');
    if sp <= 0 then "" else spanName[..sp]
  }

  // ----- what a record is about

  datatype Relationship = Relationship(forward: EdgeKind, id: string, kind: string, name: string, action: string)

  function ServiceOf(r: Record, spanKind: string): string {
    if spanKind == "SERVER" then
      var named := Lookup(r.series, "service.name");
      if named != "" then named else Lookup(r.attrs, "service.name")
    else
      var peer := Lookup(r.series, "peer.service");
      if peer != "" then peer else StripPort(Lookup(r.series, "server.address"))
  }

  function RouteOf(r: Record, spanKind: string, parse: UrlParser): string {
    if spanKind == "SERVER" then Lookup(r.series, "http.route")
    else
      var url := Lookup(r.series, "url.full");
      if url == "" then "" else ExtractUrlPath(url, parse)
  }

  function EndpointOf(r: Record, parse: UrlParser): Option<Relationship> {
    var spanKind := NormalizeSpanKind(Lookup(r.series, "span.kind"));
    var verb := Lookup(r.series, "http.request.method");
    if spanKind != "SERVER" && spanKind != "CLIENT" then None
    else if verb == "" || RouteOf(r, spanKind, parse) == "" || ServiceOf(r, spanKind) == "" then None
    else
      Some(ToEndpoint(if spanKind == "SERVER" then Exposes else Calls, ServiceOf(r, spanKind), verb,
                      RouteOf(r, spanKind, parse)))
  }

  function ToEndpoint(forward: EdgeKind, svc: string, verb: string, route: string): Relationship {
    var normalized := NormalizeRoute(route);
    Relationship(forward, EndpointId(svc, verb, normalized), ENDPOINT, EndpointName(verb, normalized), "")
  }

  function TopicOf(r: Record): Option<Relationship> {
    var spanKind := NormalizeSpanKind(Lookup(r.series, "span.kind"));
    var topic := TopicOfSpan(Lookup(r.series, "span.name"));
    if (spanKind != "PRODUCER" && spanKind != "CONSUMER") || topic == "" then None
    else Some(Relationship(if spanKind == "PRODUCER" then Publishes else Consumes, TopicId(topic), TOPIC, topic, ""))
  }

  function DatabaseOf(r: Record): Option<Relationship> {
    var system, host, port :=
      Lookup(r.series, "db.system"), Lookup(r.series, "server.address"), Lookup(r.series, "server.port");
    if system == "" || NormalizeSpanKind(Lookup(r.series, "span.kind")) != "CLIENT" || host == "" then None
    else Some(Relationship(Queries, DatabaseId(system, host, port), DATABASE, DatabaseName(system, host, port),
                           TemplatizeSpanName(Lookup(r.series, "span.name"))))
  }

  // ----- the effect of a record on a set

  function Related(s: Snap, emitter: string, rel: Relationship): Snap {
    EdgeAdded(EdgeAdded(Upserted(s, rel.id, rel.kind, rel.name),
                        EdgeKey(rel.id, rel.forward.Reverse(), emitter, rel.action)),
              EdgeKey(emitter, rel.forward, rel.id, rel.action))
  }

  function MaybeRelated(s: Snap, emitter: string, rel: Option<Relationship>): Snap {
    if rel == None then s else Related(s, emitter, rel.value)
  }

  function Derived(s: Snap, r: Record, parse: UrlParser): Snap {
    var emitter := Emitter(r);
    if emitter == "" then s
    else
      var s1 := MaybeRelated(s, emitter, EndpointOf(r, parse));
      var s2 := MaybeRelated(s1, emitter, TopicOf(r));
      MaybeRelated(s2, emitter, DatabaseOf(r))
  }

  method AddRelationship(g: BatchWriteSet, emitter: string, forward: EdgeKind, reverse: EdgeKind,
                         relId: string, relKind: string, relName: string, action: string)
    requires reverse == forward.Reverse()
    modifies g
    ensures g.Value() == Related(old(g.Value()), emitter, Relationship(forward, relId, relKind, relName, action))
  {
    g.Upsert(relId, relKind, relName);
    OneEdgeAdded(g.Value(), relId, Edge(reverse, emitter, action));
    g.AddEdges(relId, [Edge(reverse, emitter, action)]);
    OneEdgeAdded(g.Value(), emitter, Edge(forward, relId, action));
    g.AddEdges(emitter, [Edge(forward, relId, action)]);
  }

  /** The service and the route an HTTP record is about; not found when either is missing. */
  method ServiceAndRoute(r: Record, spanKind: string, parse: UrlParser) returns (found: bool, svc: string,
                         route: string)
    requires spanKind == "SERVER" || spanKind == "CLIENT"
    ensures found <==> RouteOf(r, spanKind, parse) != "" && ServiceOf(r, spanKind) != ""
    ensures found ==> svc == ServiceOf(r, spanKind) && route == RouteOf(r, spanKind, parse)
  {
    if spanKind == "SERVER" {
      route := Lookup(r.series, "http.route");
      if route == "" {
        return false, "", "";
      }
      svc := Lookup(r.series, "service.name");
      if svc == "" {
        svc := Lookup(r.attrs, "service.name");
      }
    } else {
      var url := Lookup(r.series, "url.full");
      if url == "" {
        return false, "", "";
      }
      route := ExtractUrlPath(url, parse);
      if route == "" {
        return false, "", "";
      }
      var peer := Lookup(r.series, "peer.service");
      if peer != "" {
        svc := peer;
      } else {
        svc := StripPort(Lookup(r.series, "server.address"));
      }
    }
    found := svc != "";
  }

  lemma EndpointFound(r: Record, parse: UrlParser, spanKind: string, svc: string, verb: string, route: string)
    requires verb == Lookup(r.series, "http.request.method") != ""
    requires spanKind == NormalizeSpanKind(Lookup(r.series, "span.kind")) &&
             (spanKind == "SERVER" || spanKind == "CLIENT")
    requires route == RouteOf(r, spanKind, parse) != "" && svc == ServiceOf(r, spanKind) != ""
    ensures EndpointOf(r, parse) == Some(ToEndpoint(if spanKind == "SERVER" then Exposes else Calls, svc, verb, route))
  {
  }

  method AddEndpoint(g: BatchWriteSet, emitter: string, forward: EdgeKind, reverse: EdgeKind, svc: string,
                     verb: string, route: string)
    requires reverse == forward.Reverse()
    modifies g
    ensures g.Value() == Related(old(g.Value()), emitter, ToEndpoint(forward, svc, verb, route))
  {
    var normalized := NormalizeRouteLoop(route);
    AddRelationship(g, emitter, forward, reverse, EndpointId(svc, verb, normalized), ENDPOINT,
                    EndpointName(verb, normalized), "");
  }

  method DeriveEndpointEdges(g: BatchWriteSet, r: Record, emitter: string, parse: UrlParser)
    modifies g
    ensures g.Value() ==
            if emitter == "" then old(g.Value()) else MaybeRelated(old(g.Value()), emitter, EndpointOf(r, parse))
  {
    if emitter == "" {
      return;
    }
    var spanKind := NormalizeSpanKind(Lookup(r.series, "span.kind"));
    if spanKind != "SERVER" && spanKind != "CLIENT" {
      return;
    }
    var verb := Lookup(r.series, "http.request.method");
    if verb == "" {
      return;
    }
    var found, svc, route := ServiceAndRoute(r, spanKind, parse);
    if !found {
      return;
    }
    EndpointFound(r, parse, spanKind, svc, verb, route);
    if spanKind == "SERVER" {
      AddEndpoint(g, emitter, Exposes, ExposedBy, svc, verb, route);
    } else {
      AddEndpoint(g, emitter, Calls, CalledBy, svc, verb, route);
    }
  }

  method DeriveTopicEdges(g: BatchWriteSet, r: Record, emitter: string)
    modifies g
    ensures g.Value() == if emitter == "" then old(g.Value()) else MaybeRelated(old(g.Value()), emitter, TopicOf(r))
  {
    if emitter == "" {
      return;
    }
    var spanKind := NormalizeSpanKind(Lookup(r.series, "span.kind"));
    if spanKind != "PRODUCER" && spanKind != "CONSUMER" {
      return;
    }
    var topic := TopicOfSpan(Lookup(r.series, "span.name"));
    if topic == "" {
      return;
    }
    if spanKind == "PRODUCER" {
      AddRelationship(g, emitter, Publishes, PublishedBy, TopicId(topic), TOPIC, topic, "");
    } else {
      AddRelationship(g, emitter, Consumes, ConsumedBy, TopicId(topic), TOPIC, topic, "");
    }
  }

  method DeriveDatabaseEdges(g: BatchWriteSet, r: Record, emitter: string)
    modifies g
    ensures g.Value() == if emitter == "" then old(g.Value()) else MaybeRelated(old(g.Value()), emitter, DatabaseOf(r))
  {
    if emitter == "" {
      return;
    }
    var system := Lookup(r.series, "db.system");
    if system == "" || NormalizeSpanKind(Lookup(r.series, "span.kind")) != "CLIENT" {
      return;
    }
    var host := Lookup(r.series, "server.address");
    if host == "" {
      return;
    }
    var port := Lookup(r.series, "server.port");
    AddRelationship(g, emitter, Queries, QueriedBy, DatabaseId(system, host, port), DATABASE,
                    DatabaseName(system, host, port), TemplatizeSpanName(Lookup(r.series, "span.name")));
  }

  method Derive(g: BatchWriteSet, r: Record, parse: UrlParser) returns (usable: bool)
    modifies g
    ensures g.Value() == Derived(old(g.Value()), r, parse)
    ensures usable == (Emitter(r) != "")
  {
    var emitter := Emitter(r);
    if emitter == "" {
      return false;
    }
    DeriveEndpointEdges(g, r, emitter, parse);
    DeriveTopicEdges(g, r, emitter);
    DeriveDatabaseEdges(g, r, emitter);
    return true;
  }
}
