/** What deriving guarantees: coherent sets, and names that follow from IDs. */
module Derivation {
  import Decimal
  import opened Wrappers
  import opened Strings
  import opened Graph
  import opened BatchSet
  import opened Coherence
  import opened Routes
  import opened Builder
  import opened DeltaFacts

  // ----- coherence

  /** A request-local set: nothing in it has been stamped yet. */
  ghost predicate Unstamped(s: Snap) {
    && (forall id | id in s.entities :: s.entities[id].lastSeen == ZERO_TIME)
    && (forall k | k in s.edges :: s.edges[k] == ZERO_TIME)
  }

  ghost predicate Local(s: Snap) {
    Coherent(s) && Unstamped(s)
  }

  predicate ProperRelationship(rel: Relationship) {
    IsRelation(rel.id) && KindOf(rel.id) == rel.kind && !rel.forward.Structural()
  }

  lemma EmitterKinds(r: Record)
    ensures Emitter(r) != "" ==> IsEmitter(Emitter(r))
  {
    var namespace, pod, container :=
      Lookup(r.attrs, "k8s.namespace.name"), Lookup(r.attrs, "k8s.pod.name"), Lookup(r.attrs, "k8s.container.name");
    KindOfPrefixed(POD, namespace + "/" + pod);
    KindOfPrefixed(CONTAINER, namespace + "/" + pod + "/" + container);
  }

  lemma RelationIds(svc: string, verb: string, route: string, topic: string, system: string, host: string, port: string)
    ensures KindOf(EndpointId(svc, verb, route)) == ENDPOINT
    ensures KindOf(TopicId(topic)) == TOPIC
    ensures KindOf(DatabaseId(system, host, port)) == DATABASE
  {
    KindOfPrefixed(ENDPOINT, svc + "/" + verb + Rooted(route));
    KindOfPrefixed(TOPIC, topic);
    KindOfPrefixed(DATABASE, system + "/" + DatabaseEndpoint(host, port));
  }

  lemma EndpointKind(r: Record, parse: UrlParser)
    ensures EndpointOf(r, parse).Some? ==> ProperRelationship(EndpointOf(r, parse).value)
  {
    var spanKind := NormalizeSpanKind(Lookup(r.series, "span.kind"));
    RelationIds(ServiceOf(r, spanKind), Lookup(r.series, "http.request.method"),
                NormalizeRoute(RouteOf(r, spanKind, parse)), "", "", "", "");
  }

  lemma TopicKind(r: Record)
    ensures TopicOf(r).Some? ==> ProperRelationship(TopicOf(r).value)
  {
    RelationIds("", "", "", TopicOfSpan(Lookup(r.series, "span.name")), "", "", "");
  }

  lemma DatabaseKind(r: Record)
    ensures DatabaseOf(r).Some? ==> ProperRelationship(DatabaseOf(r).value)
  {
    RelationIds("", "", "", "", Lookup(r.series, "db.system"), Lookup(r.series, "server.address"),
                Lookup(r.series, "server.port"));
  }

  function Forward(emitter: string, rel: Relationship): EdgeKey {
    EdgeKey(emitter, rel.forward, rel.id, rel.action)
  }

  function Backward(emitter: string, rel: Relationship): EdgeKey {
    EdgeKey(rel.id, rel.forward.Reverse(), emitter, rel.action)
  }

  lemma PairFacts(emitter: string, rel: Relationship)
    requires ProperRelationship(rel) && IsEmitter(emitter)
    ensures Mirror(Forward(emitter, rel)) == Backward(emitter, rel)
    ensures Mirror(Backward(emitter, rel)) == Forward(emitter, rel)
    ensures RelationshipEdge(Forward(emitter, rel)) && RelationshipEdge(Backward(emitter, rel))
    ensures RelationEnd(Forward(emitter, rel)) == rel.id && RelationEnd(Backward(emitter, rel)) == rel.id
  {
    KindsApart(emitter);
  }

  lemma RelatedShaped(s: Snap, emitter: string, rel: Relationship)
    requires Shaped(s) && ProperRelationship(rel) && IsEmitter(emitter)
    ensures Shaped(Related(s, emitter, rel))
  {
    PairFacts(emitter, rel);
    var t := Related(s, emitter, rel);
    forall k | k in t.edges ensures RelationshipEdge(k) {
      assert k in s.edges || k == Forward(emitter, rel) || k == Backward(emitter, rel);
    }
  }

  lemma RelatedPaired(s: Snap, emitter: string, rel: Relationship)
    requires Paired(s) && Unstamped(s) && ProperRelationship(rel) && IsEmitter(emitter)
    ensures Paired(Related(s, emitter, rel))
  {
    PairFacts(emitter, rel);
    var t := Related(s, emitter, rel);
    forall k | k in t.edges
      ensures Mirror(k) in t.edges && t.edges[Mirror(k)] == t.edges[k]
    {
      if k in s.edges {
        assert Mirror(k) in s.edges;
      } else {
        assert k == Forward(emitter, rel) || k == Backward(emitter, rel);
      }
    }
  }

  lemma RelatedAnchored(s: Snap, emitter: string, rel: Relationship)
    requires Anchored(s) && Unstamped(s) && ProperRelationship(rel) && IsEmitter(emitter)
    ensures Anchored(Related(s, emitter, rel))
  {
    PairFacts(emitter, rel);
    var t := Related(s, emitter, rel);
    forall k | k in t.edges
      ensures RelationEnd(k) in t.entities && t.edges[k] <= t.entities[RelationEnd(k)].lastSeen
    {
      if k in s.edges {
        assert RelationEnd(k) in s.entities;
      } else {
        assert k == Forward(emitter, rel) || k == Backward(emitter, rel);
      }
    }
  }

  lemma RelatedSupported(s: Snap, emitter: string, rel: Relationship)
    requires Supported(s) && Unstamped(s)
    ensures Supported(Related(s, emitter, rel)) && Unstamped(Related(s, emitter, rel))
  {
    var t := Related(s, emitter, rel);
    forall id | id in t.entities
      ensures exists k :: LatestEdge(t, id, k)
    {
      if id == rel.id {
        assert LatestEdge(t, id, EdgeKey(rel.id, rel.forward.Reverse(), emitter, rel.action));
      } else {
        var k :| LatestEdge(s, id, k);
        assert LatestEdge(t, id, k);
      }
    }
  }

  lemma RelatedLocal(s: Snap, emitter: string, rel: Relationship)
    requires Local(s) && ProperRelationship(rel) && IsEmitter(emitter)
    ensures Local(Related(s, emitter, rel))
  {
    RelatedShaped(s, emitter, rel);
    RelatedPaired(s, emitter, rel);
    RelatedAnchored(s, emitter, rel);
    RelatedSupported(s, emitter, rel);
  }

  /** The set that a single record about one topic leaves. */
  const A_TOPIC := Relationship(Publishes, TopicId("t"), TOPIC, "t", "")
  const ONE_TOPIC := Related(NOTHING, POD + ":" + "ns/p", A_TOPIC)

  lemma OneTopic()
    ensures Local(ONE_TOPIC) && A_TOPIC.id in ONE_TOPIC.entities && IsRelation(A_TOPIC.id)
  {
    NothingCoherent();
    KindOfPrefixed(POD, "ns/p");
    RelationIds("", "", "", "t", "", "", "");
    RelatedLocal(NOTHING, POD + ":" + "ns/p", A_TOPIC);
  }

  /** What a record is about. */
  function About(r: Record, parse: UrlParser): set<Relationship> {
    Values(EndpointOf(r, parse), TopicOf(r), DatabaseOf(r))
  }

  lemma MaybeRelatedExactly(s: Snap, emitter: string, found: Option<Relationship>, k: EdgeKey, id: string)
    ensures k in MaybeRelated(s, emitter, found).edges <==>
            k in s.edges || (found.Some? && (k == Forward(emitter, found.value) || k == Backward(emitter, found.value)))
    ensures id in MaybeRelated(s, emitter, found).entities <==>
            id in s.entities || (found.Some? && id == found.value.id)
  {
  }

  lemma ThreeRelated(s: Snap, emitter: string, e: Option<Relationship>, t: Option<Relationship>,
                     d: Option<Relationship>, k: EdgeKey, id: string)
    ensures var s' := MaybeRelated(MaybeRelated(MaybeRelated(s, emitter, e), emitter, t), emitter, d);
            && (k in s'.edges <==>
                k in s.edges ||
                exists rel | rel in Values(e, t, d) :: k == Forward(emitter, rel) || k == Backward(emitter, rel))
            && (id in s'.entities <==> id in s.entities || exists rel | rel in Values(e, t, d) :: id == rel.id)
  {
    var s1 := MaybeRelated(s, emitter, e);
    MaybeRelatedExactly(s, emitter, e, k, id);
    MaybeRelatedExactly(s1, emitter, t, k, id);
    MaybeRelatedExactly(MaybeRelated(s1, emitter, t), emitter, d, k, id);
  }

  function Values(e: Option<Relationship>, t: Option<Relationship>, d: Option<Relationship>): set<Relationship> {
    (if e.Some? then {e.value} else {}) + (if t.Some? then {t.value} else {}) + (if d.Some? then {d.value} else {})
  }

  /** A record with an emitter adds the entity of each relationship it is about and the two
      edges between that and the emitter; it adds nothing else and removes nothing. */
  lemma DerivedExactly(s: Snap, r: Record, parse: UrlParser, k: EdgeKey, id: string)
    ensures k in Derived(s, r, parse).edges <==>
            k in s.edges ||
            (Emitter(r) != "" &&
             exists rel | rel in About(r, parse) :: k == Forward(Emitter(r), rel) || k == Backward(Emitter(r), rel))
    ensures id in Derived(s, r, parse).entities <==>
            id in s.entities || (Emitter(r) != "" && exists rel | rel in About(r, parse) :: id == rel.id)
  {
    if Emitter(r) != "" {
      ThreeRelated(s, Emitter(r), EndpointOf(r, parse), TopicOf(r), DatabaseOf(r), k, id);
    }
  }

  /** Deriving a record refreshes an entity together with its edges and their counterparts. */
  lemma DerivedLocal(s: Snap, r: Record, parse: UrlParser)
    requires Local(s)
    ensures Local(Derived(s, r, parse))
  {
    var emitter := Emitter(r);
    if emitter != "" {
      EmitterKinds(r);
      EndpointKind(r, parse);
      TopicKind(r);
      DatabaseKind(r);
      var s1 := MaybeRelated(s, emitter, EndpointOf(r, parse));
      var s2 := MaybeRelated(s1, emitter, TopicOf(r));
      if EndpointOf(r, parse).Some? {
        RelatedLocal(s, emitter, EndpointOf(r, parse).value);
      }
      if TopicOf(r).Some? {
        RelatedLocal(s1, emitter, TopicOf(r).value);
      }
      if DatabaseOf(r).Some? {
        RelatedLocal(s2, emitter, DatabaseOf(r).value);
      }
    }
  }

  // ----- IDs and names

  /** With a slash in the service, two different endpoints share an ID and not a name. */
  lemma EndpointIdsCollide()
    ensures EndpointId("a/b", "GET", "/x") == EndpointId("a", "b", "/GET/x")
    ensures EndpointName("GET", "/x") != EndpointName("b", "/GET/x")
    ensures NormalizeRoute("/x") == "/x" && NormalizeRoute("/GET/x") == "/GET/x"
  {
    CollidingIds();
    NormalizedRoutes();
  }

  lemma CollidingIds()
    ensures EndpointId("a/b", "GET", "/x") == EndpointId("a", "b", "/GET/x")
    ensures EndpointName("GET", "/x") != EndpointName("b", "/GET/x")
  {
    assert "a/b" + "/" + "GET" + "/x" == "a" + "/" + "b" + "/GET/x";
    assert EndpointName("GET", "/x")[0] != EndpointName("b", "/GET/x")[0];
  }

  lemma NormalizedRoutes()
    ensures NormalizeRoute("/x") == "/x" && NormalizeRoute("/GET/x") == "/GET/x"
  {
    assert !Decimal.IsDigit("x"[0]) && !Decimal.IsDigit("GET"[0]);
    PlainRoute("/x", ["", "x"]);
    PlainRoute("/GET/x", ["", "GET", "x"]);
  }

  lemma PlainRoute(p: string, parts: seq<string>)
    requires |parts| >= 1 && HasPrefix(p, "/") && Segments(parts) && Join(parts) == p
    requires forall i | 0 <= i < |parts| :: NormalizeSegment(parts[i]) == parts[i]
    ensures NormalizeRoute(p) == p
  {
    SplitJoin(parts);
    assert Rewrite(Split(p), NormalizeSegment) == Split(p);
    JoinSplit(p);
  }

  /** The display name read back from an ID. */
  function NameFromId(id: string): string {
    var colon := IndexOf(id, ':');
    if colon < 0 then id else NameFromRest(KindOf(id), id[colon + 1..])
  }

  /** The name in what follows the kind: for databases the first slash is an at sign, and the
      name of an endpoint starts after the service. */
  function NameFromRest(kind: string, rest: string): string {
    var i := IndexOf(rest, '/');
    if kind == TOPIC || i < 0 then rest
    else if kind == DATABASE then rest[..i] + "@" + rest[i + 1..]
    else NameFromPath(rest[i + 1..])
  }

  lemma NameAfterKind(kind: string, rest: string)
    requires Free(kind, ':')
    ensures NameFromId(kind + ":" + rest) == NameFromRest(kind, rest)
  {
    IdParts(kind, rest);
  }

  lemma RestName(kind: string, head: string, tail: string)
    requires Free(head, '/') && kind != TOPIC
    ensures NameFromRest(kind, head + "/" + tail) == if kind == DATABASE then head + "@" + tail else NameFromPath(tail)
  {
    CutFirst(head, tail);
  }

  lemma IdParts(kind: string, rest: string)
    requires Free(kind, ':')
    ensures IndexOf(kind + ":" + rest, ':') == |kind|
    ensures (kind + ":" + rest)[|kind| + 1..] == rest
    ensures KindOf(kind + ":" + rest) == kind
  {
    IndexOfAt(kind, ':', rest);
    assert kind + [':'] + rest == kind + ":" + rest;
    KindOfPrefixed(kind, rest);
  }

  lemma CutFirst(a: string, b: string)
    requires Free(a, '/')
    ensures IndexOf(a + "/" + b, '/') == |a|
    ensures (a + "/" + b)[..|a|] == a && (a + "/" + b)[|a| + 1..] == b && (a + "/" + b)[|a|..] == "/" + b
  {
    IndexOfAt(a, '/', b);
    assert a + ['/'] + b == a + "/" + b;
  }

  lemma TopicNameFromId(topic: string)
    ensures NameFromId(TopicId(topic)) == topic
  {
    NameAfterKind(TOPIC, topic);
  }

  lemma DatabaseNameFromId(system: string, host: string, port: string)
    requires Free(system, '/')
    ensures NameFromId(DatabaseId(system, host, port)) == DatabaseName(system, host, port)
  {
    NameAfterKind(DATABASE, system + "/" + DatabaseEndpoint(host, port));
    RestName(DATABASE, system, DatabaseEndpoint(host, port));
  }

  /** The name in what follows the service: the method, a space, the route. */
  function NameFromPath(path: string): string {
    var j := IndexOf(path, '/');
    if j < 0 then path else path[..j] + " " + path[j..]
  }

  lemma PathName(verb: string, rooted: string)
    requires Free(verb, '/') && HasPrefix(rooted, "/")
    ensures NameFromPath(verb + rooted) == verb + " " + rooted
  {
    assert rooted == "/" + rooted[1..];
    assert verb + rooted == verb + "/" + rooted[1..];
    CutFirst(verb, rooted[1..]);
  }

  lemma EndpointNameFromId(svc: string, verb: string, route: string)
    requires Free(svc, '/') && Free(verb, '/')
    ensures NameFromId(EndpointId(svc, verb, route)) == EndpointName(verb, route)
  {
    EndpointIdForm(svc, verb, Rooted(route));
    NameAfterService(svc, verb + Rooted(route));
    PathName(verb, Rooted(route));
  }

  lemma EndpointIdForm(svc: string, verb: string, rooted: string)
    ensures svc + "/" + verb + rooted == svc + "/" + (verb + rooted)
  {
  }

  lemma NameAfterService(svc: string, path: string)
    requires Free(svc, '/')
    ensures NameFromId(ENDPOINT + ":" + (svc + "/" + path)) == NameFromPath(path)
  {
    NameAfterKind(ENDPOINT, svc + "/" + path);
    RestName(ENDPOINT, svc, path);
  }

  /** No slash in the service, the method or the database system. */
  predicate SlashFree(r: Record) {
    && Free(Lookup(r.series, "http.request.method"), '/')
    && Free(ServiceOf(r, NormalizeSpanKind(Lookup(r.series, "span.kind"))), '/')
    && Free(Lookup(r.series, "db.system"), '/')
  }

  /** An entity named after its ID keeps a set that way. */
  lemma MaybeNamed(s: Snap, emitter: string, found: Option<Relationship>)
    requires Named(NameOf(NameFromId), s) && (found.Some? ==> found.value.name == NameFromId(found.value.id))
    ensures Named(NameOf(NameFromId), MaybeRelated(s, emitter, found))
  {
  }

  lemma EndpointNamed(r: Record, parse: UrlParser)
    requires SlashFree(r)
    ensures var found := EndpointOf(r, parse); found.Some? ==> found.value.name == NameFromId(found.value.id)
  {
    var spanKind := NormalizeSpanKind(Lookup(r.series, "span.kind"));
    EndpointNameFromId(ServiceOf(r, spanKind), Lookup(r.series, "http.request.method"),
                       NormalizeRoute(RouteOf(r, spanKind, parse)));
  }

  /** Then every entity's name is a function of its ID, so an entity found in two snapshots
      has the same name in both. */
  lemma DerivedNamed(s: Snap, r: Record, parse: UrlParser)
    requires Named(NameOf(NameFromId), s) && SlashFree(r)
    ensures Named(NameOf(NameFromId), Derived(s, r, parse))
  {
    EndpointNamed(r, parse);
    TopicNameFromId(TopicOfSpan(Lookup(r.series, "span.name")));
    DatabaseNameFromId(Lookup(r.series, "db.system"), Lookup(r.series, "server.address"),
                       Lookup(r.series, "server.port"));
    var emitter, e, t := Emitter(r), EndpointOf(r, parse), TopicOf(r);
    var s1 := MaybeRelated(s, emitter, e);
    MaybeNamed(s, emitter, e);
    MaybeNamed(s1, emitter, t);
    MaybeNamed(MaybeRelated(s1, emitter, t), emitter, DatabaseOf(r));
  }
}
