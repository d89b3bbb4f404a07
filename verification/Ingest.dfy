/** Templating at ingest: what a second application changes, and how it lets the client's URL and
    the server's route template derive the same endpoint. */
module Ingest {
  import opened Wrappers
  import opened Strings
  import opened Graph
  import opened Routes
  import opened Builder
  import opened Escapes
  import Decimal

  // ----- URLs

  predicate Absolute(u: Url) {
    u.scheme != "" && u.host != ""
  }

  /** An absolute URL put together again after templating its path. */
  function Rebuilt(u: Url): string {
    u.scheme + "://" + u.host + TemplatizePath(u.path)
  }

  /** A parser that accepts a rebuilt URL finds scheme and host as they were, and reads the path. */
  predicate Rereads(u: Url, parse: UrlParser) {
    && !HasPrefix(u.scheme, "/")
    && match parse(Rebuilt(u))
       case None => true
       case Some(v) => v.scheme == u.scheme && v.host == u.host && PathRead(TemplatizePath(u.path)) == Some(v.path)
  }

  /** What holds of the URL if it is absolute. */
  predicate IfAbsolute(s: string, parse: UrlParser, p: Url -> bool) {
    s == "" || HasPrefix(s, "/") || parse(s) == None || !Absolute(parse(s).value) || p(parse(s).value)
  }

  /** The text is no absolute URL, or one whose path is plain or whose rebuilt form is refused. */
  predicate Settled(s: string, parse: UrlParser) {
    IfAbsolute(s, parse, (u: Url) => Plain(u.path) || parse(Rebuilt(u)) == None)
  }

  lemma BarePath(s: string, parse: UrlParser)
    requires HasPrefix(s, "/")
    ensures var t := TemplatizeUrl(s, parse);
            && t == TemplatizePath(WithoutQuery(s)) && HasPrefix(t, "/") && WithoutQuery(t) == t
  {
    var bare := WithoutQuery(s);
    TemplatizeKeepsRoot(bare);
    TemplatizeFree(bare, '?');
    TemplatizeFree(bare, '#');
  }

  lemma RebuiltShape(u: Url)
    requires Absolute(u) && !HasPrefix(u.scheme, "/")
    ensures Rebuilt(u) != "" && !HasPrefix(Rebuilt(u), "/")
  {
    assert Rebuilt(u)[0] == u.scheme[0];
    assert u.scheme[..1] == [u.scheme[0]];
  }

  lemma SamePath(origin: string, x: string, y: string)
    ensures origin + x == origin + y <==> x == y
  {
    assert (origin + x)[|origin|..] == x && (origin + y)[|origin|..] == y;
  }

  lemma AbsoluteSettledIff(u: Url, parse: UrlParser)
    requires Absolute(u) && Rereads(u, parse)
    ensures TemplatizeUrl(Rebuilt(u), parse) == Rebuilt(u) <==> Plain(u.path) || parse(Rebuilt(u)) == None
  {
    RebuiltShape(u);
    if parse(Rebuilt(u)).Some? {
      SamePath(u.scheme + "://" + u.host, TemplatizePath(parse(Rebuilt(u)).value.path), TemplatizePath(u.path));
      ReadTwiceIff(u.path);
      TemplatizePlainIff(u.path);
    }
  }

  /** For every text: templating it a second time changes nothing if and only if it is not an
      absolute URL, its path, as first read, holds no percent sign, question mark or hash, or the
      rebuilt URL is refused by the parser. */
  lemma UrlIdempotentIff(s: string, parse: UrlParser)
    requires IfAbsolute(s, parse, u => Rereads(u, parse))
    ensures TemplatizeUrl(TemplatizeUrl(s, parse), parse) == TemplatizeUrl(s, parse) <==> Settled(s, parse)
  {
    if HasPrefix(s, "/") {
      BarePath(s, parse);
      TemplatizeIdempotent(WithoutQuery(s));
    } else if s != "" && parse(s).Some? && Absolute(parse(s).value) {
      AbsoluteSettledIff(parse(s).value, parse);
    }
  }

  lemma PlainPath(p: string, parts: seq<string>)
    requires |parts| >= 1 && Segments(parts) && Join(parts) == p
    ensures TemplatizePath(p) == Join(Rewrite(parts, TemplatizeSegment))
  {
    SplitJoin(parts);
    if p == "" || p == "/" {
      TemplatizeSegments(p);
      JoinSplit(TemplatizePath(p));
    }
  }

  lemma EscapedPath()
    ensures TemplatizePath("/%31") == "/%31"
  {
    PlainPath("/%31", ["", "%31"]);
    assert !Decimal.IsDigit("%31"[0]);
    assert Rewrite(["", "%31"], TemplatizeSegment) == ["", "%31"];
  }

  lemma DecodedPath()
    ensures TemplatizePath("/1") == "/{n}"
  {
    PlainPath("/1", ["", "1"]);
    assert Rewrite(["", "1"], TemplatizeSegment) == ["", "{n}"];
  }

  lemma UrlOf(s: string, path: string, parse: UrlParser)
    requires s != "" && !HasPrefix(s, "/") && parse(s) == Some(Url("http", "h", path))
    ensures TemplatizeUrl(s, parse) == "http://h" + TemplatizePath(path)
  {
    assert "http" + "://" + "h" == "http://h";
  }

  /** An escaped digit is decoded by each application: the second one changes the URL again. */
  lemma EscapedDigit(parse: UrlParser)
    requires parse("http://h/%2531") == Some(Url("http", "h", "/%31"))
    requires parse("http://h/%31") == Some(Url("http", "h", "/1"))
    ensures TemplatizeUrl("http://h/%2531", parse) == "http://h/%31"
    ensures TemplatizeUrl("http://h/%31", parse) == "http://h/{n}"
  {
    EscapedPath();
    DecodedPath();
    UrlOf("http://h/%2531", "/%31", parse);
    UrlOf("http://h/%31", "/1", parse);
  }

  // ----- attributes

  /** Templating attributes a second time changes nothing if and only if it does not change the
      URL; and no attribute but the URL and the span name is ever touched. */
  lemma AttrsIdempotentIff(m: map<string, string>, parse: UrlParser)
    requires "url.full" in m ==> IfAbsolute(m["url.full"], parse, u => Rereads(u, parse))
    ensures TemplatizeAttrs(TemplatizeAttrs(m, parse), parse) == TemplatizeAttrs(m, parse) <==>
            ("url.full" in m ==> Settled(m["url.full"], parse))
    ensures TemplatizeAttrs(m, parse).Keys == m.Keys
    ensures forall k | k in m && k != "url.full" && k != "span.name" :: TemplatizeAttrs(m, parse)[k] == m[k]
  {
    if "url.full" in m {
      UrlIdempotentIff(m["url.full"], parse);
    }
    if "span.name" in m {
      SpanNameIdempotent(m["span.name"]);
    }
    TwiceIsOnceIff(m, parse);
  }

  lemma TwiceIsOnceIff(m: map<string, string>, parse: UrlParser)
    requires "span.name" in m ==>
               TemplatizeSpanName(TemplatizeSpanName(m["span.name"])) == TemplatizeSpanName(m["span.name"])
    ensures TemplatizeAttrs(TemplatizeAttrs(m, parse), parse) == TemplatizeAttrs(m, parse) <==>
            ("url.full" in m ==>
               TemplatizeUrl(TemplatizeUrl(m["url.full"], parse), parse) == TemplatizeUrl(m["url.full"], parse))
  {
    var once := TemplatizeAttrs(m, parse);
    var twice := TemplatizeAttrs(once, parse);
    assert twice.Keys == once.Keys == m.Keys;
    assert forall k | k in m && k != "url.full" :: twice[k] == once[k];
    if "url.full" in m {
      assert once["url.full"] == TemplatizeUrl(m["url.full"], parse);
      assert twice["url.full"] == TemplatizeUrl(once["url.full"], parse);
    }
  }

  // ----- client and server meet

  /** An HTTP server record for `svc`, `verb` and the template `route`. */
  predicate ServerRecord(r: Record, svc: string, verb: string, route: string) {
    && NormalizeSpanKind(Lookup(r.series, "span.kind")) == "SERVER"
    && Lookup(r.series, "http.request.method") == verb != ""
    && Lookup(r.series, "http.route") == route != ""
    && ServiceOf(r, "SERVER") == svc != ""
  }

  /** An HTTP client datapoint, as received, for `svc`, `verb` and any `url` at all. */
  predicate ClientPoint(attrs: map<string, string>, series: map<string, string>, svc: string, verb: string,
                        url: string) {
    && NormalizeSpanKind(Lookup(series, "span.kind")) == "CLIENT"
    && Lookup(series, "http.request.method") == verb != ""
    && Lookup(series, "url.full") == url != ""
    && ServiceOf(Record(attrs, series), "CLIENT") == svc != ""
  }

  lemma NeverEmpty(p: string)
    ensures TemplatizePath(p) == "" <==> p == ""
  {
    TemplatizeSegments(p);
    if TemplatizePath(p) == "" {
      assert Split("") == [""];
      assert Split(TemplatizePath(p))[0] == TemplatizeSegment(Split(p)[0]);
      EmptySegment(Split(p)[0]);
      assert Split(p) == [""] == Split("");
      SameSegments(p, "");
    }
  }

  /** The path a client datapoint is derived with: for an absolute URL the one read out of the
      rebuilt URL, if that is accepted. */
  function SeenPath(url: string, parse: UrlParser): string {
    if HasPrefix(url, "/") then TemplatizePath(WithoutQuery(url))
    else match parse(url)
      case None => ""
      case Some(u) =>
        if !Absolute(u) then u.path
        else if parse(Rebuilt(u)) == None || PathRead(TemplatizePath(u.path)) == None then ""
        else PathRead(TemplatizePath(u.path)).value
  }

  lemma ClientPath(url: string, parse: UrlParser)
    requires url != "" && IfAbsolute(url, parse, u => Rereads(u, parse))
    ensures TemplatizeUrl(url, parse) != "" && ExtractUrlPath(TemplatizeUrl(url, parse), parse) == SeenPath(url, parse)
  {
    if HasPrefix(url, "/") {
      BarePath(url, parse);
    } else if parse(url).Some? && Absolute(parse(url).value) {
      RebuiltShape(parse(url).value);
    }
  }

  /** For all but absolute URLs, and for absolute ones with a plain path that are accepted when
      rebuilt, that is the path of the URL as received, as normalization sees it. */
  lemma SeenAsReceived(url: string, parse: UrlParser)
    requires url != "" && IfAbsolute(url, parse, (u: Url) => Plain(u.path) && parse(Rebuilt(u)) != None)
    ensures SeenPath(url, parse) == "" <==> ExtractUrlPath(url, parse) == ""
    ensures NormalizeRoute(SeenPath(url, parse)) == NormalizeRoute(ExtractUrlPath(url, parse))
  {
    if HasPrefix(url, "/") {
      NeverEmpty(WithoutQuery(url));
      NormalizeAbsorbsTemplatize(WithoutQuery(url));
    } else if url != "" && parse(url).Some? && Absolute(parse(url).value) {
      var u := parse(url).value;
      TemplatizePlainIff(u.path);
      ReadLightens(TemplatizePath(u.path));
      NeverEmpty(u.path);
      NormalizeAbsorbsTemplatize(u.path);
    }
  }

  lemma OtherAttrs(series: map<string, string>, parse: UrlParser, k: string)
    requires k != "url.full" && k != "span.name"
    ensures Lookup(TemplatizeAttrs(series, parse), k) == Lookup(series, k)
  {
  }

  lemma UrlAttr(series: map<string, string>, parse: UrlParser)
    requires Lookup(series, "url.full") != ""
    ensures Lookup(TemplatizeAttrs(series, parse), "url.full") == TemplatizeUrl(Lookup(series, "url.full"), parse)
  {
  }

  lemma ServerEndpoint(r: Record, parse: UrlParser, svc: string, verb: string, route: string)
    requires ServerRecord(r, svc, verb, route)
    ensures EndpointOf(r, parse) == Some(ToEndpoint(Exposes, svc, verb, route))
  {
  }

  lemma ClientEndpoint(attrs: map<string, string>, series: map<string, string>, parse: UrlParser, svc: string,
                       verb: string, url: string, path: string)
    requires ClientPoint(attrs, series, svc, verb, url) && TemplatizeUrl(url, parse) != ""
    requires path == ExtractUrlPath(TemplatizeUrl(url, parse), parse)
    ensures EndpointOf(Record(attrs, TemplatizeAttrs(series, parse)), parse) ==
            if path == "" then None else Some(ToEndpoint(Calls, svc, verb, path))
  {
    UrlAttr(series, parse);
    OtherAttrs(series, parse, "span.kind");
    OtherAttrs(series, parse, "http.request.method");
    OtherAttrs(series, parse, "peer.service");
    OtherAttrs(series, parse, "server.address");
    var r := Record(attrs, TemplatizeAttrs(series, parse));
    assert ServiceOf(r, "CLIENT") == svc && RouteOf(r, "CLIENT", parse) == path;
  }

  /** Rooted routes of one service and method have different IDs. */
  lemma SameIdIff(svc: string, verb: string, x: string, y: string)
    ensures EndpointId(svc, verb, NormalizeRoute(x)) == EndpointId(svc, verb, NormalizeRoute(y)) <==> RoutesMeet(x, y)
  {
    NormalizeIsRooted(x);
    NormalizeIsRooted(y);
    NormalizeEqualIff(x, y);
    SamePath(svc + "/" + verb, NormalizeRoute(x), NormalizeRoute(y));
    SamePath(ENDPOINT + ":", svc + "/" + verb + NormalizeRoute(x), svc + "/" + verb + NormalizeRoute(y));
  }

  /** The server's route template and the client's URL, templatized at ingest, derive the same
      endpoint exactly when route and path seen agree segment by segment, up to placeholders and
      numbers; any URL whatsoever derives an endpoint exactly when a path is seen. */
  lemma ClientMeetsServerIff(server: Record, attrs: map<string, string>, series: map<string, string>, parse: UrlParser,
                             svc: string, verb: string, route: string, url: string)
    requires ServerRecord(server, svc, verb, route) && ClientPoint(attrs, series, svc, verb, url)
    requires IfAbsolute(url, parse, u => Rereads(u, parse))
    ensures
      var client, path := Record(attrs, TemplatizeAttrs(series, parse)), SeenPath(url, parse);
      var exposed, called := EndpointOf(server, parse), EndpointOf(client, parse);
      && exposed.Some? && exposed.value.forward == Exposes
      && (called.Some? <==> path != "")
      && (called.Some? ==> called.value.forward == Calls)
      && (called.Some? ==> (exposed.value.id == called.value.id <==> RoutesMeet(route, path)))
  {
    ClientPath(url, parse);
    ServerEndpoint(server, parse, svc, verb, route);
    ClientEndpoint(attrs, series, parse, svc, verb, url, SeenPath(url, parse));
    SameIdIff(svc, verb, route, SeenPath(url, parse));
  }
}
