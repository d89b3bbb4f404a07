/** What a span-metric record is about, said by how its attributes are written: the span kind, the
    service, the route, the topic, the database and the action. */
module Meanings {
  import opened Wrappers
  import opened Strings
  import opened Graph
  import opened BatchSet
  import opened Routes
  import opened Builder
  import opened Derivation
  import opened Emitters

  lemma LookupReads(m: map<string, string>, k: string, v: string)
    ensures Lookup(m, k) == v <==> Reads(m, k, v)
  {
  }

  // ----- span kinds

  predicate Blank(s: string) {
    forall c | c in s :: c in {' ', '\t', '\n', '\r', 11 as char, 12 as char}
  }

  /** The same letters, those of `text` in either case. */
  predicate SameLetters(text: string, upper: string) {
    |text| == |upper| && forall i | 0 <= i < |text| :: SameLetter(text[i], upper[i])
  }

  predicate SameLetter(c: char, upper: char) {
    c == upper || ('A' <= upper <= 'Z' && c as int == upper as int + 32)
  }

  /** The kind in any case, with or without its prefix, between blanks. */
  ghost predicate SpanKindIs(text: string, kind: string) {
    exists l, m, r :: KindBetween(text, kind, l, m, r)
  }

  predicate KindBetween(text: string, kind: string, l: string, m: string, r: string) {
    text == l + m + r && Blank(l) && Blank(r) && (SameLetters(m, kind) || SameLetters(m, "SPAN_KIND_" + kind))
  }

  predicate Trimmed(m: string) {
    m != "" ==> !IsSpace(m[0]) && !IsSpace(m[|m| - 1])
  }

  lemma BlankIff(s: string)
    ensures Blank(s) <==> forall i | 0 <= i < |s| :: IsSpace(s[i])
  {
    if Blank(s) {
      forall i | 0 <= i < |s| ensures IsSpace(s[i]) {
        assert s[i] in s;
      }
    }
  }

  lemma BlankConcat(s: string, t: string)
    ensures Blank(s + t) <==> Blank(s) && Blank(t)
  {
    assert forall c :: c in s + t <==> c in s || c in t;
  }

  /** Trimming takes blanks off both ends, and all of them. */
  lemma {:induction false} TrimParts(s: string) returns (l: string, r: string)
    ensures s == l + TrimSpace(s) + r && Blank(l) && Blank(r) && Trimmed(TrimSpace(s))
    decreases |s|
  {
    if s == "" {
      l, r := "", "";
    } else if IsSpace(s[0]) {
      l, r := TrimParts(s[1..]);
      assert s == [s[0]] + s[1..];
      l := [s[0]] + l;
    } else if IsSpace(s[|s| - 1]) {
      var last := s[|s| - 1];
      l, r := TrimParts(s[..|s| - 1]);
      assert s == s[..|s| - 1] + [last];
      r := r + [last];
    } else {
      l, r := "", "";
    }
  }

  lemma {:induction false} TrimOne(l: string, m: string, r: string)
    requires Blank(l) && Blank(r) && Trimmed(m) && m != ""
    ensures TrimSpace(l + m + r) == m
    decreases |l| + |r|
  {
    var s := l + m + r;
    BlankIff(l);
    BlankIff(r);
    if l != "" {
      assert s[0] == l[0] && s[1..] == l[1..] + m + r;
      BlankConcat([l[0]], l[1..]);
      assert l == [l[0]] + l[1..];
      TrimOne(l[1..], m, r);
    } else {
      assert s[0] == m[0];
      if r != "" {
        var n := |r| - 1;
        assert s[|s| - 1] == r[n] && s[..|s| - 1] == l + m + r[..n];
        BlankConcat(r[..n], [r[n]]);
        assert r == r[..n] + [r[n]];
        TrimOne(l, m, r[..n]);
      } else {
        assert s == m;
      }
    }
  }

  /** A text of capitals and underscores. */
  predicate Capital(k: string) {
    forall i | 0 <= i < |k| :: 'A' <= k[i] <= 'Z' || k[i] == '_'
  }

  lemma UpperIff(m: string, k: string)
    requires Capital(k)
    ensures Upper(m) == k <==> SameLetters(m, k)
  {
    if SameLetters(m, k) {
      forall i | 0 <= i < |m| ensures Upper(m)[i] == k[i] {
        assert SameLetter(m[i], k[i]);
      }
    }
  }

  lemma LettersAreTrimmed(m: string, k: string)
    requires Capital(k) && SameLetters(m, k)
    ensures Trimmed(m)
  {
    if m != "" {
      assert SameLetter(m[0], k[0]) && SameLetter(m[|m| - 1], k[|m| - 1]);
    }
  }

  const PREFIX := "SPAN_KIND_"

  predicate SpanKind(kind: string) {
    kind in {"SERVER", "CLIENT", "PRODUCER", "CONSUMER"}
  }

  lemma KindsAreCapital(kind: string)
    requires SpanKind(kind)
    ensures Capital(kind) && Capital(PREFIX + kind) && kind != "" && !HasPrefix(kind, PREFIX)
    ensures HasPrefix(PREFIX + kind, PREFIX) && (PREFIX + kind)[10..] == kind
  {
  }

  lemma PrefixIff(u: string, kind: string)
    requires SpanKind(kind)
    ensures (if HasPrefix(u, PREFIX) then u[10..] else u) == kind <==> u == kind || u == PREFIX + kind
  {
    KindsAreCapital(kind);
    if HasPrefix(u, PREFIX) {
      assert u == PREFIX + u[10..];
    }
  }

  /** Exactly the texts that name a span kind are normalized to it. */
  lemma SpanKindIff(text: string, kind: string)
    requires SpanKind(kind)
    ensures NormalizeSpanKind(text) == kind <==> SpanKindIs(text, kind)
  {
    KindsAreCapital(kind);
    var m := TrimSpace(text);
    PrefixIff(Upper(m), kind);
    UpperIff(m, kind);
    UpperIff(m, PREFIX + kind);
    if NormalizeSpanKind(text) == kind {
      var l, r := TrimParts(text);
      assert KindBetween(text, kind, l, m, r);
    }
    if SpanKindIs(text, kind) {
      var l, x, r :| KindBetween(text, kind, l, x, r);
      LettersAreTrimmed(x, if SameLetters(x, kind) then kind else PREFIX + kind);
      TrimOne(l, x, r);
    }
  }

  // ----- services, paths, topics, actions

  /** The address without the port: what precedes its last colon. */
  ghost predicate WithoutPort(address: string, host: string) {
    (Free(address, ':') && host == address) || exists port :: Free(port, ':') && address == host + ":" + port
  }

  lemma StripPortIff(address: string, host: string)
    ensures StripPort(address) == host <==> WithoutPort(address, host)
  {
    var i := LastIndexOf(address, ':');
    if i >= 0 {
      var port := address[i + 1..];
      assert Free(port, ':');
      assert address == address[..i] + ":" + port;
    }
    if exists port :: Free(port, ':') && address == host + ":" + port {
      var port :| Free(port, ':') && address == host + ":" + port;
      LastIndexOfAt(host, ':', port);
      assert host + [':'] + port == address && address[..|host|] == host;
      assert address[|host|] == ':';
    }
  }

  /** The path of a URL: of a bare path what precedes a query or fragment. */
  ghost predicate PathIs(url: string, path: string, parse: UrlParser) {
    if HasPrefix(url, "/") then
      exists rest :: url == path + rest && Free(path, '?') && Free(path, '#') && (rest != "" ==> rest[0] in "?#")
    else path == (if parse(url).Some? then parse(url).value.path else "")
  }

  lemma PathIff(url: string, path: string, parse: UrlParser)
    ensures ExtractUrlPath(url, parse) == path <==> PathIs(url, path, parse)
  {
    if HasPrefix(url, "/") {
      BarePathIff(url, path);
    }
  }

  lemma BarePathIff(url: string, path: string)
    ensures WithoutQuery(url) == path <==>
            exists rest :: url == path + rest && Free(path, '?') && Free(path, '#') && (rest != "" ==> rest[0] in "?#")
  {
    var i := QueryStart(url);
    if WithoutQuery(url) == path {
      var rest := if i >= 0 then url[i..] else "";
      assert url == path + rest && (rest != "" ==> rest[0] in "?#");
    }
    if rest :| url == path + rest && Free(path, '?') && Free(path, '#') && (rest != "" ==> rest[0] in "?#") {
      CutAt(url, path, rest, i);
    }
  }

  lemma CutAt(url: string, path: string, rest: string, i: int)
    requires url == path + rest && Free(path, '?') && Free(path, '#') && (rest != "" ==> rest[0] in "?#")
    requires i == QueryStart(url)
    ensures WithoutQuery(url) == path
  {
    if rest == "" {
      assert url == path;
    } else {
      var n := |path|;
      assert url[n] == rest[0];
      assert forall k | 0 <= k < n :: url[k] == path[k];
      assert i == n;
      assert url[..n] == path;
    }
  }

  /** The first word of a span name of more than one. */
  ghost predicate TopicIs(spanName: string, topic: string) {
    topic != "" && Free(topic, ' ') && exists rest :: spanName == topic + " " + rest
  }

  lemma TopicIff(spanName: string, topic: string)
    requires topic != ""
    ensures TopicOfSpan(spanName) == topic <==> TopicIs(spanName, topic)
  {
    var sp := IndexOf(spanName, ' ');
    if TopicOfSpan(spanName) == topic {
      assert spanName == topic + " " + spanName[sp + 1..];
    }
    if TopicIs(spanName, topic) {
      var rest :| spanName == topic + " " + rest;
      IndexOfAt(topic, ' ', rest);
      assert topic + [' '] + rest == spanName && spanName[..|topic|] == topic;
    }
  }

  /** A path, or the path after a first word, is templated; any other span name stays as it is. */
  ghost predicate ActionIs(spanName: string, action: string) {
    if HasPrefix(spanName, "/") then action == TemplatizePath(spanName)
    else if exists verb, path :: VerbAndPath(spanName, verb, path) then
      exists verb, path :: VerbAndPath(spanName, verb, path) && action == verb + " " + TemplatizePath(path)
    else action == spanName
  }

  predicate VerbAndPath(spanName: string, verb: string, path: string) {
    Free(verb, ' ') && HasPrefix(path, "/") && spanName == verb + " " + path
  }

  lemma VerbAndPathAt(spanName: string, verb: string, path: string)
    requires VerbAndPath(spanName, verb, path)
    ensures var sp := IndexOf(spanName, ' '); sp >= 0 && verb == spanName[..sp] && path == spanName[sp + 1..]
  {
    IndexOfAt(verb, ' ', path);
    assert verb + [' '] + path == spanName;
    assert spanName[..|verb|] == verb && spanName[|verb| + 1..] == path;
  }

  lemma ActionIff(spanName: string, action: string)
    ensures TemplatizeSpanName(spanName) == action <==> ActionIs(spanName, action)
  {
    var sp := IndexOf(spanName, ' ');
    forall verb, path | VerbAndPath(spanName, verb, path)
      ensures sp >= 0 && verb == spanName[..sp] && path == spanName[sp + 1..]
    {
      VerbAndPathAt(spanName, verb, path);
    }
    if sp >= 0 && HasPrefix(spanName[sp + 1..], "/") {
      assert spanName == spanName[..sp] + " " + spanName[sp + 1..];
      assert VerbAndPath(spanName, spanName[..sp], spanName[sp + 1..]);
    }
  }

  // ----- what ingest makes of the attributes

  /** Templating a URL: of a bare path without its query; of the path of an absolute URL, put together
      again behind scheme and host; any other text stays as it is. */
  ghost predicate UrlTemplated(url: string, t: string, parse: UrlParser) {
    if HasPrefix(url, "/") then exists path :: PathIs(url, path, parse) && t == TemplatizePath(path)
    else if url != "" && parse(url).Some? && parse(url).value.scheme != "" && parse(url).value.host != "" then
      t == parse(url).value.scheme + "://" + parse(url).value.host + TemplatizePath(parse(url).value.path)
    else t == url
  }

  lemma UrlIsTemplated(url: string, parse: UrlParser)
    ensures UrlTemplated(url, TemplatizeUrl(url, parse), parse)
  {
    if HasPrefix(url, "/") {
      PathIff(url, WithoutQuery(url), parse);
    }
  }

  /** What the two attributes become, and that no other changes. */
  lemma AttrsBecome(m: map<string, string>, parse: UrlParser)
    ensures var t := TemplatizeAttrs(m, parse);
            && t.Keys == m.Keys
            && ("url.full" in m ==> t["url.full"] == TemplatizeUrl(m["url.full"], parse))
            && ("span.name" in m ==> t["span.name"] == TemplatizeSpanName(m["span.name"]))
            && forall k | k in m && k != "url.full" && k != "span.name" :: t[k] == m[k]
  {
  }

  /** Ingest templates the URL and the span name of a datapoint and leaves every other attribute. */
  lemma Ingested(m: map<string, string>, parse: UrlParser)
    ensures var t := TemplatizeAttrs(m, parse);
            && t.Keys == m.Keys
            && ("url.full" in m ==> UrlTemplated(m["url.full"], t["url.full"], parse))
            && ("span.name" in m ==> ActionIs(m["span.name"], t["span.name"]))
            && forall k | k in m && k != "url.full" && k != "span.name" :: t[k] == m[k]
  {
    AttrsBecome(m, parse);
    if "url.full" in m {
      UrlIsTemplated(m["url.full"], parse);
    }
    if "span.name" in m {
      ActionIff(m["span.name"], TemplatizeSpanName(m["span.name"]));
    }
  }

  // ----- what a record means

  ghost predicate KindIs(r: Record, kind: string) {
    exists text :: Reads(r.series, "span.kind", text) && SpanKindIs(text, kind)
  }

  lemma KindIff(r: Record, kind: string)
    requires SpanKind(kind)
    ensures KindIs(r, kind) <==> NormalizeSpanKind(Lookup(r.series, "span.kind")) == kind
  {
    SpanKindIff(Lookup(r.series, "span.kind"), kind);
    LookupReads(r.series, "span.kind", Lookup(r.series, "span.kind"));
    forall text | Reads(r.series, "span.kind", text) ensures text == Lookup(r.series, "span.kind") {
      LookupReads(r.series, "span.kind", text);
    }
  }

  /** A server's own service, named by the datapoint or else by its resource. */
  predicate Serves(r: Record, svc: string) {
    svc != "" && (|| Reads(r.series, "service.name", svc)
                  || (Reads(r.series, "service.name", "") && Reads(r.attrs, "service.name", svc)))
  }

  /** The service a client calls: its peer, or else the host of the address. */
  ghost predicate CallsService(r: Record, svc: string) {
    svc != "" && (|| Reads(r.series, "peer.service", svc)
                  || (Reads(r.series, "peer.service", "") &&
                      exists address :: Reads(r.series, "server.address", address) && WithoutPort(address, svc)))
  }

  ghost predicate RequestsPath(r: Record, path: string, parse: UrlParser) {
    path != "" && exists url :: url != "" && Reads(r.series, "url.full", url) && PathIs(url, path, parse)
  }

  ghost predicate MeansServer(r: Record, svc: string, verb: string, route: string) {
    && KindIs(r, "SERVER") && Serves(r, svc)
    && verb != "" && Reads(r.series, "http.request.method", verb)
    && route != "" && Reads(r.series, "http.route", route)
  }

  ghost predicate MeansClient(r: Record, svc: string, verb: string, path: string, parse: UrlParser) {
    && KindIs(r, "CLIENT") && CallsService(r, svc)
    && verb != "" && Reads(r.series, "http.request.method", verb)
    && RequestsPath(r, path, parse)
  }

  function EndpointRelationship(forward: EdgeKind, svc: string, verb: string, route: string): Relationship {
    var normalized := NormalizeRoute(route);
    Relationship(forward, "endpoint:" + (svc + "/" + verb + normalized), "endpoint", verb + " " + normalized, "")
  }

  lemma ServesIff(r: Record, svc: string)
    ensures Serves(r, svc) <==> svc != "" && ServiceOf(r, "SERVER") == svc
  {
  }

  lemma CallsIff(r: Record, svc: string)
    ensures CallsService(r, svc) <==> svc != "" && ServiceOf(r, "CLIENT") == svc
  {
    var address := Lookup(r.series, "server.address");
    StripPortIff(address, svc);
    forall a ensures Reads(r.series, "server.address", a) <==> a == address {
      LookupReads(r.series, "server.address", a);
    }
  }

  lemma RequestsIff(r: Record, path: string, parse: UrlParser)
    ensures RequestsPath(r, path, parse) <==> path != "" && RouteOf(r, "CLIENT", parse) == path
  {
    var url := Lookup(r.series, "url.full");
    PathIff(url, path, parse);
    forall u ensures Reads(r.series, "url.full", u) <==> u == url {
      LookupReads(r.series, "url.full", u);
    }
  }

  lemma EndpointForm(forward: EdgeKind, svc: string, verb: string, route: string)
    ensures ToEndpoint(forward, svc, verb, route) == EndpointRelationship(forward, svc, verb, route)
  {
    NormalizeIsRooted(route);
  }

  lemma ServerMeans(r: Record, svc: string, verb: string, route: string, parse: UrlParser)
    requires MeansServer(r, svc, verb, route)
    ensures EndpointOf(r, parse) == Some(EndpointRelationship(Exposes, svc, verb, route))
  {
    KindIff(r, "SERVER");
    ServesIff(r, svc);
    LookupReads(r.series, "http.request.method", verb);
    LookupReads(r.series, "http.route", route);
    EndpointFound(r, parse, "SERVER", svc, verb, route);
    EndpointForm(Exposes, svc, verb, route);
  }

  lemma ClientMeans(r: Record, svc: string, verb: string, path: string, parse: UrlParser)
    requires MeansClient(r, svc, verb, path, parse)
    ensures EndpointOf(r, parse) == Some(EndpointRelationship(Calls, svc, verb, path))
  {
    KindIff(r, "CLIENT");
    CallsIff(r, svc);
    RequestsIff(r, path, parse);
    LookupReads(r.series, "http.request.method", verb);
    EndpointFound(r, parse, "CLIENT", svc, verb, path);
    EndpointForm(Calls, svc, verb, path);
  }

  ghost predicate MeansEndpoint(r: Record, parse: UrlParser, rel: Relationship) {
    exists svc, verb, route ::
      || (MeansServer(r, svc, verb, route) && rel == EndpointRelationship(Exposes, svc, verb, route))
      || (MeansClient(r, svc, verb, route, parse) && rel == EndpointRelationship(Calls, svc, verb, route))
  }

  lemma EndpointIff(r: Record, parse: UrlParser, rel: Relationship)
    ensures EndpointOf(r, parse) == Some(rel) <==> MeansEndpoint(r, parse, rel)
  {
    if EndpointOf(r, parse) == Some(rel) {
      EndpointIsMeant(r, parse, rel);
    }
    if MeansEndpoint(r, parse, rel) {
      var svc, verb, route :|
        || (MeansServer(r, svc, verb, route) && rel == EndpointRelationship(Exposes, svc, verb, route))
        || (MeansClient(r, svc, verb, route, parse) && rel == EndpointRelationship(Calls, svc, verb, route));
      if MeansServer(r, svc, verb, route) && rel == EndpointRelationship(Exposes, svc, verb, route) {
        ServerMeans(r, svc, verb, route, parse);
      } else {
        ClientMeans(r, svc, verb, route, parse);
      }
    }
  }

  lemma EndpointIsMeant(r: Record, parse: UrlParser, rel: Relationship)
    requires EndpointOf(r, parse) == Some(rel)
    ensures MeansEndpoint(r, parse, rel)
  {
    var spanKind := NormalizeSpanKind(Lookup(r.series, "span.kind"));
    var svc, verb := ServiceOf(r, spanKind), Lookup(r.series, "http.request.method");
    var route := RouteOf(r, spanKind, parse);
    KindIff(r, spanKind);
    LookupReads(r.series, "http.request.method", verb);
    if spanKind == "SERVER" {
      ServesIff(r, svc);
      LookupReads(r.series, "http.route", route);
      EndpointForm(Exposes, svc, verb, route);
      assert MeansServer(r, svc, verb, route);
    } else {
      CallsIff(r, svc);
      RequestsIff(r, route, parse);
      EndpointForm(Calls, svc, verb, route);
      assert MeansClient(r, svc, verb, route, parse);
    }
  }

  /** A producer publishes to, a consumer consumes from the topic its span name starts with. */
  ghost predicate MeansTopic(r: Record, rel: Relationship) {
    exists spanName, topic :: Reads(r.series, "span.name", spanName) && TopicAs(r, rel, spanName, topic)
  }

  ghost predicate TopicAs(r: Record, rel: Relationship, spanName: string, topic: string) {
    && TopicIs(spanName, topic)
    && (|| (KindIs(r, "PRODUCER") && rel == Relationship(Publishes, "topic:" + topic, "topic", topic, ""))
        || (KindIs(r, "CONSUMER") && rel == Relationship(Consumes, "topic:" + topic, "topic", topic, "")))
  }

  lemma TopicAsIff(r: Record, rel: Relationship, topic: string)
    requires topic != ""
    ensures TopicAs(r, rel, Lookup(r.series, "span.name"), topic) <==>
            TopicOfSpan(Lookup(r.series, "span.name")) == topic && TopicOf(r) == Some(rel)
  {
    KindIff(r, "PRODUCER");
    KindIff(r, "CONSUMER");
    TopicIff(Lookup(r.series, "span.name"), topic);
    TopicForm(topic);
  }

  lemma TopicForm(topic: string)
    ensures TopicId(topic) == "topic:" + topic && TOPIC == "topic"
  {
    assert TOPIC + ":" == "topic:";
  }

  lemma TopicMeant(r: Record, rel: Relationship)
    ensures TopicOf(r) == Some(rel) <==> MeansTopic(r, rel)
  {
    var name := Lookup(r.series, "span.name");
    LookupReads(r.series, "span.name", name);
    if TopicOf(r) == Some(rel) {
      TopicAsIff(r, rel, TopicOfSpan(name));
      assert TopicAs(r, rel, name, TopicOfSpan(name));
    }
    if MeansTopic(r, rel) {
      var spanName, topic :| Reads(r.series, "span.name", spanName) && TopicAs(r, rel, spanName, topic);
      LookupReads(r.series, "span.name", spanName);
      TopicAsIff(r, rel, topic);
    }
  }

  /** A client queries the database of its system at the host and, if given, the port. */
  ghost predicate MeansDatabase(r: Record, rel: Relationship) {
    exists system, host, port, spanName ::
      && Reads(r.series, "db.system", system) && Reads(r.series, "server.address", host)
      && Reads(r.series, "server.port", port) && Reads(r.series, "span.name", spanName)
      && DatabaseAs(r, rel, system, host, port, spanName)
  }

  ghost predicate DatabaseAs(r: Record, rel: Relationship, system: string, host: string, port: string,
                             spanName: string) {
    && KindIs(r, "CLIENT") && system != "" && host != "" && ActionIs(spanName, rel.action)
    && rel == DatabaseRelationship(system, if port == "" then host else host + ":" + port, rel.action)
  }

  function DatabaseRelationship(system: string, at: string, action: string): Relationship {
    Relationship(Queries, "database:" + (system + "/" + at), "database", system + "@" + at, action)
  }

  lemma DatabaseAsIff(r: Record, rel: Relationship)
    ensures DatabaseAs(r, rel, Lookup(r.series, "db.system"), Lookup(r.series, "server.address"),
                       Lookup(r.series, "server.port"), Lookup(r.series, "span.name")) <==>
            DatabaseOf(r) == Some(rel)
  {
    var system, host, port := Lookup(r.series, "db.system"), Lookup(r.series, "server.address"),
                              Lookup(r.series, "server.port");
    KindIff(r, "CLIENT");
    ActionIff(Lookup(r.series, "span.name"), rel.action);
    DatabaseForm(system, host, port);
  }

  lemma DatabaseForm(system: string, host: string, port: string)
    ensures var at := if port == "" then host else host + ":" + port;
            DatabaseId(system, host, port) == "database:" + (system + "/" + at) &&
            DatabaseName(system, host, port) == system + "@" + at
  {
    assert DATABASE + ":" == "database:";
  }

  lemma DatabaseMeant(r: Record, rel: Relationship)
    ensures DatabaseOf(r) == Some(rel) <==> MeansDatabase(r, rel)
  {
    DatabaseAsIff(r, rel);
    LookupReads(r.series, "db.system", Lookup(r.series, "db.system"));
    LookupReads(r.series, "server.address", Lookup(r.series, "server.address"));
    LookupReads(r.series, "server.port", Lookup(r.series, "server.port"));
    LookupReads(r.series, "span.name", Lookup(r.series, "span.name"));
    if MeansDatabase(r, rel) {
      var system, host, port, spanName :|
        && Reads(r.series, "db.system", system) && Reads(r.series, "server.address", host)
        && Reads(r.series, "server.port", port) && Reads(r.series, "span.name", spanName)
        && DatabaseAs(r, rel, system, host, port, spanName);
      LookupReads(r.series, "db.system", system);
      LookupReads(r.series, "server.address", host);
      LookupReads(r.series, "server.port", port);
      LookupReads(r.series, "span.name", spanName);
    }
  }

  /** The record is about this relationship, by how it is written. */
  ghost predicate Means(r: Record, parse: UrlParser, rel: Relationship) {
    MeansEndpoint(r, parse, rel) || MeansTopic(r, rel) || MeansDatabase(r, rel)
  }

  lemma AboutIff(r: Record, parse: UrlParser, rel: Relationship)
    ensures rel in About(r, parse) <==> Means(r, parse, rel)
  {
    EndpointIff(r, parse, rel);
    TopicMeant(r, rel);
    DatabaseMeant(r, rel);
  }

  /** The counterpart of every kind of edge. */
  lemma Counterparts()
    ensures Contains.Reverse() == RunsIn && Manages.Reverse() == ManagedBy && Scales.Reverse() == ScaledBy
    ensures Exposes.Reverse() == ExposedBy && Calls.Reverse() == CalledBy && Queries.Reverse() == QueriedBy
    ensures Publishes.Reverse() == PublishedBy && Consumes.Reverse() == ConsumedBy
  {
  }
}
