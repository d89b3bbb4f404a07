/** Which services and methods can share an endpoint ID: exactly when the text before the route
    in one ID continues that in the other, with segments that normalization leaves alone. */
module EndpointIds {
  import opened Strings
  import opened Graph
  import opened Routes
  import opened Builder

  /** The part of an endpoint ID between the kind and the text after the route's first slash. */
  function Stem(svc: string, verb: string): string {
    svc + "/" + verb + "/"
  }

  /** Routes as they go into an ID. */
  predicate Normal(route: string) {
    NormalizeRoute(route) == route
  }

  lemma IdShape(svc: string, verb: string, rest: string)
    ensures EndpointId(svc, verb, "/" + rest) == ENDPOINT + ":" + (Stem(svc, verb) + rest)
  {
    Slashed(svc + "/" + verb, rest);
  }

  lemma Slashed(head: string, rest: string)
    ensures head + ("/" + rest) == head + "/" + rest
  {
  }

  lemma SameAfterKind(x: string, y: string)
    requires ENDPOINT + ":" + x == ENDPOINT + ":" + y
    ensures x == y
  {
    assert (ENDPOINT + ":" + x)[|ENDPOINT| + 1..] == x;
    assert (ENDPOINT + ":" + y)[|ENDPOINT| + 1..] == y;
  }

  lemma RootedRest(route: string)
    requires HasPrefix(route, "/")
    ensures route == "/" + route[1..]
  {
  }

  /** Of two texts with the same continuation into one text, the shorter begins the longer. */
  lemma ShorterBegins(a: string, x: string, b: string, y: string)
    requires a + x == b + y && |a| <= |b|
    ensures a <= b && x == b[|a|..] + y
  {
    assert a == (a + x)[..|a|] == (b + y)[..|a|] == b[..|a|];
    assert x == (a + x)[|a|..] == (b + y)[|a|..];
  }

  /** Equal IDs, read after the kind. */
  lemma SameTexts(svc: string, verb: string, r: string, svc': string, verb': string, r': string)
    requires HasPrefix(r, "/") && HasPrefix(r', "/")
    ensures EndpointId(svc, verb, r) == EndpointId(svc', verb', r') <==>
            Stem(svc, verb) + r[1..] == Stem(svc', verb') + r'[1..]
  {
    RootedRest(r);
    RootedRest(r');
    IdShape(svc, verb, r[1..]);
    IdShape(svc', verb', r'[1..]);
    if EndpointId(svc, verb, r) == EndpointId(svc', verb', r') {
      SameAfterKind(Stem(svc, verb) + r[1..], Stem(svc', verb') + r'[1..]);
    }
  }

  /** Some rooted routes give the two services and methods one ID. */
  ghost predicate Collide(svc: string, verb: string, svc': string, verb': string) {
    exists r, r' :: HasPrefix(r, "/") && HasPrefix(r', "/") && EndpointId(svc, verb, r) == EndpointId(svc', verb', r')
  }

  lemma PrefixCollides(svc: string, verb: string, svc': string, verb': string)
    requires Stem(svc, verb) <= Stem(svc', verb')
    ensures EndpointId(svc, verb, "/" + Stem(svc', verb')[|Stem(svc, verb)|..]) == EndpointId(svc', verb', "/")
  {
    var a, b := Stem(svc, verb), Stem(svc', verb');
    IdShape(svc, verb, b[|a|..]);
    IdShape(svc', verb', "");
    assert a + b[|a|..] == b == b + "" && "/" + "" == "/";
  }

  /** Two services and methods can share an endpoint ID exactly when one's `service/method/`
      begins the other's. */
  lemma CollideIff(svc: string, verb: string, svc': string, verb': string)
    ensures Collide(svc, verb, svc', verb') <==>
            Stem(svc, verb) <= Stem(svc', verb') || Stem(svc', verb') <= Stem(svc, verb)
  {
    var a, b := Stem(svc, verb), Stem(svc', verb');
    if Collide(svc, verb, svc', verb') {
      var r, r' :| HasPrefix(r, "/") && HasPrefix(r', "/") && EndpointId(svc, verb, r) == EndpointId(svc', verb', r');
      SameTexts(svc, verb, r, svc', verb', r');
      if |a| <= |b| {
        ShorterBegins(a, r[1..], b, r'[1..]);
      } else {
        ShorterBegins(b, r'[1..], a, r[1..]);
      }
    }
    if a <= b {
      PrefixCollides(svc, verb, svc', verb');
      assert HasPrefix("/" + b[|a|..], "/") && HasPrefix("/", "/");
    }
    if b <= a {
      PrefixCollides(svc', verb', svc, verb);
      assert HasPrefix("/" + a[|b|..], "/") && HasPrefix("/", "/");
    }
  }

  // ----- with normalized routes, the only ones that go into IDs

  predicate Fixed(parts: seq<string>) {
    forall part | part in parts :: NormalizeSegment(part) == part
  }

  lemma FixedRewrite(parts: seq<string>)
    ensures Fixed(parts) <==> Rewrite(parts, NormalizeSegment) == parts
  {
    if Rewrite(parts, NormalizeSegment) == parts {
      forall part | part in parts ensures NormalizeSegment(part) == part {
        var i :| 0 <= i < |parts| && parts[i] == part;
        assert Rewrite(parts, NormalizeSegment)[i] == parts[i];
      }
    }
  }

  lemma NormalIff(rest: string)
    ensures Normal("/" + rest) <==> Fixed(Split(rest))
  {
    var p := "/" + rest;
    SplitSlash(rest);
    NormalizeSegments(p);
    FixedRewrite(Split(p));
    EmptySegment("");
    assert Fixed(Split(p)) <==> Fixed(Split(rest));
    if Fixed(Split(rest)) {
      SameSegments(NormalizeRoute(p), p);
    }
  }

  /** What the longer stem has in addition ends with a slash. */
  lemma LeftoverShape(a: string, svc: string, verb: string) returns (z: string)
    requires a <= Stem(svc, verb) && |a| < |Stem(svc, verb)|
    ensures Stem(svc, verb)[|a|..] == z + "/"
  {
    var rest := Stem(svc, verb)[|a|..];
    z := rest[..|rest| - 1];
    assert rest[|rest| - 1] == '/';
  }

  lemma LeftoverNormal(z: string, y: string)
    requires Normal("/" + (z + "/" + y))
    ensures Normal("/" + (z + "/"))
  {
    NormalIff(z + "/" + y);
    SplitAround(z, y);
    NormalIff(z + "/" + "");
    SplitAround(z, "");
    EmptySegment("");
    assert z + "/" + "" == z + "/";
    assert Split("") == [""];
  }

  ghost predicate NormalCollide(svc: string, verb: string, svc': string, verb': string) {
    exists r, r' :: Normal(r) && Normal(r') && EndpointId(svc, verb, r) == EndpointId(svc', verb', r')
  }

  /** One stem begins the other and normalization leaves the rest alone. */
  predicate Continues(a: string, b: string) {
    a <= b && Normal("/" + b[|a|..])
  }

  lemma RootIsNormal()
    ensures Normal("/")
  {
    NormalIff("");
    assert "/" + "" == "/";
    EmptySegment("");
    assert Split("") == [""];
  }

  lemma NormalCollisionContinues(svc: string, verb: string, r: string, svc': string, verb': string, r': string)
    requires Normal(r) && Normal(r') && EndpointId(svc, verb, r) == EndpointId(svc', verb', r')
    requires |Stem(svc, verb)| <= |Stem(svc', verb')|
    ensures Continues(Stem(svc, verb), Stem(svc', verb'))
  {
    var a, b := Stem(svc, verb), Stem(svc', verb');
    NormalizeIsRooted(r);
    NormalizeIsRooted(r');
    SameTexts(svc, verb, r, svc', verb', r');
    ShorterBegins(a, r[1..], b, r'[1..]);
    RootIsNormal();
    if |a| < |b| {
      var z := LeftoverShape(a, svc', verb');
      RootedRest(r);
      LeftoverNormal(z, r'[1..]);
    } else {
      assert "/" + b[|a|..] == "/";
    }
  }

  /** Two services and methods share the ID of some endpoints, as they are derived, exactly when
      one's `service/method/` begins the other's and the segments it leaves over are neither
      placeholders nor numbers. */
  lemma NormalCollideIff(svc: string, verb: string, svc': string, verb': string)
    ensures NormalCollide(svc, verb, svc', verb') <==>
            Continues(Stem(svc, verb), Stem(svc', verb')) || Continues(Stem(svc', verb'), Stem(svc, verb))
  {
    var a, b := Stem(svc, verb), Stem(svc', verb');
    RootIsNormal();
    if NormalCollide(svc, verb, svc', verb') {
      var r, r' :| Normal(r) && Normal(r') && EndpointId(svc, verb, r) == EndpointId(svc', verb', r');
      if |a| <= |b| {
        NormalCollisionContinues(svc, verb, r, svc', verb', r');
      } else {
        NormalCollisionContinues(svc', verb', r', svc, verb, r);
      }
    }
    if Continues(a, b) {
      PrefixCollides(svc, verb, svc', verb');
    }
    if Continues(b, a) {
      PrefixCollides(svc', verb', svc, verb);
    }
  }

  /** Slash-free services and methods never share an ID with others. */
  lemma SlashFreeNeverCollide(svc: string, verb: string, svc': string, verb': string)
    requires Free(svc, '/') && Free(verb, '/') && Free(svc', '/') && Free(verb', '/')
    ensures Collide(svc, verb, svc', verb') <==> svc == svc' && verb == verb'
  {
    CollideIff(svc, verb, svc', verb');
    if Stem(svc, verb) <= Stem(svc', verb') {
      SlashFreeStems(svc, verb, svc', verb');
    }
    if Stem(svc', verb') <= Stem(svc, verb) {
      SlashFreeStems(svc', verb', svc, verb);
    }
  }

  lemma SlashFreeStems(svc: string, verb: string, svc': string, verb': string)
    requires Free(svc, '/') && Free(verb, '/') && Free(svc', '/') && Free(verb', '/')
    requires Stem(svc, verb) <= Stem(svc', verb')
    ensures svc == svc' && verb == verb'
  {
    var a, b := Stem(svc, verb), Stem(svc', verb');
    SlashesIn(svc, verb);
    SlashesIn(svc', verb');
    assert a[|svc|] == b[|svc|] && a[|svc'|] == b[|svc'|];
    assert svc == a[..|svc|] == b[..|svc|] && svc' == b[..|svc'|];
    assert |svc| == |svc'|;
    var n := |svc| + 1;
    assert verb == a[n..][..|verb|] && verb' == b[n..][..|verb'|];
    assert a[n + |verb|] == b[n + |verb|] && |verb| == |verb'|;
  }

  /** Where the slashes of a stem are. */
  lemma SlashesIn(svc: string, verb: string)
    requires Free(svc, '/') && Free(verb, '/')
    ensures var a := Stem(svc, verb);
            forall i | 0 <= i < |a| :: a[i] == '/' <==> i == |svc| || i == |svc| + 1 + |verb|
  {
  }
}
