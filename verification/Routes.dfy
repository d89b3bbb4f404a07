/** Route and path normalization: the segment rewriting that lets client-side URLs and
    server-side route templates meet. */
module Routes {
  import opened Wrappers
  import opened Strings
  import Decimal

  predicate IsAllDigits(s: string) {
    s != "" && Decimal.AllDigits(s)
  }

  /** A whole segment of the form :x, {x} or <x>. */
  predicate IsPlaceholder(seg: string) {
    var n := |seg|;
    Free(seg, '/') &&
    ((n >= 2 && seg[0] == ':') ||
     (n >= 3 && seg[0] == '{' && seg[n - 1] == '}') ||
     (n >= 3 && seg[0] == '<' && seg[n - 1] == '>'))
  }

  const WILD := "{n}"

  function TemplatizeSegment(seg: string): string {
    if IsAllDigits(seg) then WILD else seg
  }

  function NormalizeSegment(seg: string): string {
    if IsPlaceholder(seg) || IsAllDigits(seg) then WILD else seg
  }

  function Rewrite(parts: seq<string>, f: string -> string): (r: seq<string>)
    ensures |r| == |parts|
    ensures forall i | 0 <= i < |parts| :: r[i] == f(parts[i])
  {
    seq(|parts|, i requires 0 <= i < |parts| => f(parts[i]))
  }

  /** The text with a leading '/'. */
  function Rooted(p: string): string {
    if HasPrefix(p, "/") then p else "/" + p
  }

  function TemplatizePath(p: string): string {
    if p == "" || p == "/" then p else Join(Rewrite(Split(p), TemplatizeSegment))
  }

  function NormalizeRoute(p: string): string {
    if p == "" then "/" else Join(Rewrite(Split(Rooted(p)), NormalizeSegment))
  }

  function TemplatizeSpanName(s: string): string {
    if s == "" then s
    else if HasPrefix(s, "/") then TemplatizePath(s)
    else
      var sp := IndexOf(s, ' ');
      if sp == -1 then s
      else
        var verb, rest := s[..sp], s[sp + 1..];
        if !HasPrefix(rest, "/") then s else verb + " " + TemplatizePath(rest)
  }

  /** strings.IndexAny(s, "?#"). */
  function QueryStart(s: string): (i: int)
    ensures i == -1 || 0 <= i < |s|
    ensures i >= 0 ==> (s[i] == '?' || s[i] == '#') && Free(s[..i], '?') && Free(s[..i], '#')
    ensures i == -1 ==> Free(s, '?') && Free(s, '#')
  {
    var q, h := IndexOf(s, '?'), IndexOf(s, '#');
    if q < 0 then h else if h < 0 then q else if q < h then q else h
  }

  function WithoutQuery(s: string): string {
    var i := QueryStart(s);
    if i >= 0 then s[..i] else s
  }

  /** What net/url makes of an absolute URL; its parser is a parameter. */
  datatype Url = Url(scheme: string, host: string, path: string)
  type UrlParser = string -> Option<Url>

  function TemplatizeUrl(s: string, parse: UrlParser): string {
    if s == "" then s
    else if HasPrefix(s, "/") then TemplatizePath(WithoutQuery(s))
    else match parse(s)
      case None => s
      case Some(u) => if u.scheme == "" || u.host == "" then s else u.scheme + "://" + u.host + TemplatizePath(u.path)
  }

  function ExtractUrlPath(s: string, parse: UrlParser): string {
    if HasPrefix(s, "/") then WithoutQuery(s)
    else match parse(s)
      case None => ""
      case Some(u) => u.path
  }

  // ----- the loops

  method AllDigitsLoop(s: string) returns (r: bool)
    ensures r == IsAllDigits(s)
  {
    if s == "" {
      return false;
    }
    for i := 0 to |s|
      invariant forall k | 0 <= k < i :: Decimal.IsDigit(s[k])
    {
      var c := s[i];
      if c < '0' || c > '9' {
        return false;
      }
    }
    return true;
  }

  method TemplatizePathLoop(p: string) returns (r: string)
    ensures r == TemplatizePath(p)
  {
    if p == "" || p == "/" {
      return p;
    }
    var was := Split(p);
    var parts, changed := was, false;
    for i := 0 to |was|
      invariant |parts| == |was|
      invariant forall k | 0 <= k < i :: parts[k] == TemplatizeSegment(was[k])
      invariant forall k | i <= k < |was| :: parts[k] == was[k]
      invariant !changed ==> parts == was
    {
      var digits := AllDigitsLoop(was[i]);
      if digits {
        parts, changed := parts[i := WILD], true;
      }
    }
    assert parts == Rewrite(was, TemplatizeSegment);
    if !changed {
      JoinSplit(p);
      return p;
    }
    return Join(parts);
  }

  method NormalizeRouteLoop(route: string) returns (r: string)
    ensures r == NormalizeRoute(route)
  {
    if route == "" {
      return "/";
    }
    var p := if HasPrefix(route, "/") then route else "/" + route;
    var was := Split(p);
    var parts, changed := was, false;
    for i := 0 to |was|
      invariant |parts| == |was|
      invariant forall k | 0 <= k < i :: parts[k] == NormalizeSegment(was[k])
      invariant forall k | i <= k < |was| :: parts[k] == was[k]
      invariant !changed ==> parts == was
    {
      var digits := AllDigitsLoop(was[i]);
      if IsPlaceholder(was[i]) || digits {
        parts, changed := parts[i := WILD], true;
      }
    }
    assert parts == Rewrite(was, NormalizeSegment);
    if !changed {
      JoinSplit(p);
      return p;
    }
    return Join(parts);
  }

  // ----- segments of the results

  lemma RewriteSegments(parts: seq<string>, f: string -> string)
    requires Segments(parts) && forall x | Free(x, '/') :: Free(f(x), '/')
    ensures Segments(Rewrite(parts, f))
  {
    forall y | y in Rewrite(parts, f) ensures Free(y, '/') {
      var i :| 0 <= i < |parts| && y == f(parts[i]);
      assert parts[i] in parts;
    }
  }

  lemma SplitRoot()
    ensures Split("/") == ["", ""]
  {
    SplitSlash("");
    assert "/" + "" == "/";
  }

  /** The segments of a templatized path are the templatized segments. */
  lemma TemplatizeSegments(p: string)
    ensures Split(TemplatizePath(p)) == Rewrite(Split(p), TemplatizeSegment)
  {
    var parts := Split(p);
    if p == "" {
      assert parts == [""] == Rewrite(parts, TemplatizeSegment);
    } else if p == "/" {
      SplitRoot();
      assert Rewrite(parts, TemplatizeSegment) == ["", ""];
    } else {
      RewriteSegments(parts, TemplatizeSegment);
      SplitJoin(Rewrite(parts, TemplatizeSegment));
    }
  }

  lemma NormalizeSegments(p: string)
    ensures Split(NormalizeRoute(p)) == Rewrite(Split(Rooted(p)), NormalizeSegment)
  {
    if p == "" {
      SplitRoot();
      assert Rooted(p) == "/" && Rewrite(["", ""], NormalizeSegment) == ["", ""];
    } else {
      RewriteSegments(Split(Rooted(p)), NormalizeSegment);
      SplitJoin(Rewrite(Split(Rooted(p)), NormalizeSegment));
    }
  }

  /** Texts with the same segments are the same. */
  lemma SameSegments(x: string, y: string)
    requires Split(x) == Split(y)
    ensures x == y
  {
    JoinSplit(x);
    JoinSplit(y);
  }

  /** Rewriting keeps the number of segments and every segment that is not all digits. */
  lemma TemplatizeKeepsSegments(p: string, i: nat)
    requires i < |Split(p)|
    ensures |Split(TemplatizePath(p))| == |Split(p)|
    ensures Split(TemplatizePath(p))[i] == if IsAllDigits(Split(p)[i]) then WILD else Split(p)[i]
  {
    TemplatizeSegments(p);
  }

  lemma NormalizeKeepsSegments(p: string, i: nat)
    requires i < |Split(Rooted(p))|
    ensures |Split(NormalizeRoute(p))| == |Split(Rooted(p))|
    ensures Split(NormalizeRoute(p))[i] ==
            var seg := Split(Rooted(p))[i]; if IsAllDigits(seg) || IsPlaceholder(seg) then WILD else seg
  {
    NormalizeSegments(p);
  }

  /** Only the empty segment is rewritten to the empty segment. */
  lemma EmptySegment(seg: string)
    ensures NormalizeSegment(seg) == "" <==> seg == ""
    ensures TemplatizeSegment(seg) == "" <==> seg == ""
  {
  }

  lemma TemplatizeKeepsRoot(p: string)
    ensures HasPrefix(TemplatizePath(p), "/") <==> HasPrefix(p, "/")
  {
    TemplatizeSegments(p);
    LeadingSlash(p);
    LeadingSlash(TemplatizePath(p));
    assert Split(TemplatizePath(p))[0] == TemplatizeSegment(Split(p)[0]);
    EmptySegment(Split(p)[0]);
  }

  lemma NormalizeIsRooted(p: string)
    ensures HasPrefix(NormalizeRoute(p), "/")
  {
    NormalizeSegments(p);
    LeadingSlash(Rooted(p));
    LeadingSlash(NormalizeRoute(p));
    assert Split(NormalizeRoute(p))[0] == NormalizeSegment(Split(Rooted(p))[0]);
    EmptySegment(Split(Rooted(p))[0]);
  }

  lemma RootedSegments(p: string)
    ensures Split(Rooted(p)) == if HasPrefix(p, "/") then Split(p) else [""] + Split(p)
  {
    if !HasPrefix(p, "/") {
      SplitSlash(p);
    }
  }

  // ----- idempotence

  lemma TemplatizeIdempotent(p: string)
    ensures TemplatizePath(TemplatizePath(p)) == TemplatizePath(p)
  {
    TemplatizeSegments(p);
    TemplatizeSegments(TemplatizePath(p));
    assert Rewrite(Rewrite(Split(p), TemplatizeSegment), TemplatizeSegment) == Rewrite(Split(p), TemplatizeSegment);
    SameSegments(TemplatizePath(TemplatizePath(p)), TemplatizePath(p));
  }

  lemma NormalizeIdempotent(p: string)
    ensures NormalizeRoute(NormalizeRoute(p)) == NormalizeRoute(p)
  {
    NormalizeIsRooted(p);
    NormalizeSegments(p);
    NormalizeSegments(NormalizeRoute(p));
    var parts := Split(Rooted(p));
    assert Rewrite(Rewrite(parts, NormalizeSegment), NormalizeSegment) == Rewrite(parts, NormalizeSegment);
    SameSegments(NormalizeRoute(NormalizeRoute(p)), NormalizeRoute(p));
  }

  lemma SpanPathIdempotent(s: string)
    requires HasPrefix(s, "/")
    ensures TemplatizeSpanName(TemplatizeSpanName(s)) == TemplatizeSpanName(s)
  {
    TemplatizeIdempotent(s);
    TemplatizeKeepsRoot(s);
  }

  lemma SpanVerbIdempotent(verb: string, path: string)
    requires Free(verb, ' ') && !HasPrefix(verb, "/") && HasPrefix(path, "/")
    ensures TemplatizeSpanName(TemplatizeSpanName(verb + " " + path)) == TemplatizeSpanName(verb + " " + path)
  {
    TemplatizeIdempotent(path);
    TemplatizeKeepsRoot(path);
    SpanNameParts(verb, path);
    SpanNameParts(verb, TemplatizePath(path));
  }

  lemma CutAtSpace(s: string, n: nat)
    requires n < |s| && s[n] == ' '
    ensures s == s[..n] + " " + s[n + 1..]
  {
  }

  /** So applying it at ingest and again in the database deriver changes nothing. */
  lemma SpanNameIdempotent(s: string)
    ensures TemplatizeSpanName(TemplatizeSpanName(s)) == TemplatizeSpanName(s)
  {
    var sp := IndexOf(s, ' ');
    if HasPrefix(s, "/") {
      SpanPathIdempotent(s);
    } else if sp >= 0 && HasPrefix(s[sp + 1..], "/") {
      NoLeadingSlash(s, sp);
      CutAtSpace(s, sp);
      SpanVerbIdempotent(s[..sp], s[sp + 1..]);
    }
  }

  lemma NoLeadingSlash(s: string, n: nat)
    requires !HasPrefix(s, "/") && n <= |s|
    ensures !HasPrefix(s[..n], "/")
  {
    assert s != "" && s[0] == '/' ==> HasPrefix(s, "/");
  }

  /** A span name of the shape METHOD path is rewritten in its path. */
  lemma SpanNameParts(verb: string, path: string)
    requires Free(verb, ' ') && !HasPrefix(verb, "/") && HasPrefix(path, "/")
    ensures TemplatizeSpanName(verb + " " + path) == verb + " " + TemplatizePath(path)
  {
    var t := verb + " " + path;
    IndexOfAt(verb, ' ', path);
    assert t == verb + [' '] + path;
    assert t[..|verb|] == verb && t[|verb| + 1..] == path;
    assert t[0] == if verb == "" then ' ' else verb[0];
  }

  lemma {:induction false} JoinFree(parts: seq<string>, c: char)
    requires |parts| >= 1 && c != '/' && forall x | x in parts :: Free(x, c)
    ensures Free(Join(parts), c)
  {
    assert parts[0] in parts;
    if |parts| > 1 {
      JoinFree(parts[1..], c);
    }
  }

  lemma {:induction false} SplitFree(s: string, c: char)
    requires Free(s, c)
    ensures forall x | x in Split(s) :: Free(x, c)
    decreases |s|
  {
    var i := IndexOf(s, '/');
    if i >= 0 {
      SplitFree(s[i + 1..], c);
    }
  }

  lemma TemplatizeFree(p: string, c: char)
    requires Free(p, c) && c != '/' && c !in WILD
    ensures Free(TemplatizePath(p), c)
  {
    if p != "" && p != "/" {
      SplitFree(p, c);
      forall y | y in Rewrite(Split(p), TemplatizeSegment) ensures Free(y, c) {
        var i :| 0 <= i < |Split(p)| && y == TemplatizeSegment(Split(p)[i]);
        assert Split(p)[i] in Split(p);
      }
      JoinFree(Rewrite(Split(p), TemplatizeSegment), c);
    }
  }

  // ----- client and server meet

  /** Numeric templating at ingest is absorbed by the normalization of the route. */
  lemma NormalizeAbsorbsTemplatize(p: string)
    ensures NormalizeRoute(TemplatizePath(p)) == NormalizeRoute(p)
  {
    RootedTemplatize(p);
    NormalizeSegments(p);
    NormalizeSegments(TemplatizePath(p));
    SegmentsAbsorb(Split(Rooted(p)));
    SameSegments(NormalizeRoute(TemplatizePath(p)), NormalizeRoute(p));
  }

  lemma RootedTemplatize(p: string)
    ensures Split(Rooted(TemplatizePath(p))) == Rewrite(Split(Rooted(p)), TemplatizeSegment)
  {
    TemplatizeSegments(p);
    TemplatizeKeepsRoot(p);
    RootedSegments(p);
    RootedSegments(TemplatizePath(p));
    if !HasPrefix(p, "/") {
      EmptySegment("");
      PrependEmpty(Split(p));
    }
  }

  lemma PrependEmpty(parts: seq<string>)
    requires TemplatizeSegment("") == ""
    ensures Rewrite([""] + parts, TemplatizeSegment) == [""] + Rewrite(parts, TemplatizeSegment)
  {
  }

  lemma SegmentsAbsorb(parts: seq<string>)
    ensures Rewrite(Rewrite(parts, TemplatizeSegment), NormalizeSegment) == Rewrite(parts, NormalizeSegment)
  {
    forall i | 0 <= i < |parts|
      ensures NormalizeSegment(TemplatizeSegment(parts[i])) == NormalizeSegment(parts[i])
    {
      SegmentAbsorbs(parts[i]);
    }
  }

  lemma SegmentAbsorbs(seg: string)
    ensures NormalizeSegment(TemplatizeSegment(seg)) == NormalizeSegment(seg)
  {
  }

  /** Two segments name the same route position. */
  predicate Meet(x: string, y: string) {
    x == y || ((IsPlaceholder(x) || IsAllDigits(x)) && (IsPlaceholder(y) || IsAllDigits(y)))
  }

  lemma MeetIff(x: string, y: string)
    ensures NormalizeSegment(x) == NormalizeSegment(y) <==> Meet(x, y)
  {
    assert IsPlaceholder(WILD);
  }

  ghost predicate RoutesMeet(x: string, y: string) {
    && |Split(Rooted(x))| == |Split(Rooted(y))|
    && forall i | 0 <= i < |Split(Rooted(x))| :: Meet(Split(Rooted(x))[i], Split(Rooted(y))[i])
  }

  /** Two routes normalize to the same text exactly when they have as many segments and at
      every position the same segment, or on both sides a placeholder or a number. */
  lemma NormalizeEqualIff(x: string, y: string)
    ensures NormalizeRoute(x) == NormalizeRoute(y) <==> RoutesMeet(x, y)
  {
    NormalizeSegments(x);
    NormalizeSegments(y);
    var px, py := Split(Rooted(x)), Split(Rooted(y));
    forall i | 0 <= i < |px| && i < |py|
      ensures NormalizeSegment(px[i]) == NormalizeSegment(py[i]) <==> Meet(px[i], py[i])
    {
      MeetIff(px[i], py[i]);
    }
    if RoutesMeet(x, y) {
      assert Rewrite(px, NormalizeSegment) == Rewrite(py, NormalizeSegment);
      SameSegments(NormalizeRoute(x), NormalizeRoute(y));
    }
  }
}
