/** Which segments of a route and of a path are rewritten, said by how they are written. */
module Styles {
  import opened Strings
  import opened Routes
  import Decimal

  /** A non-empty text of decimal digits. */
  predicate Number(seg: string) {
    seg != "" && forall c | c in seg :: c in "0123456789"
  }

  /** One of the three placeholder styles around a non-empty name: `:x`, `{x}`, `<x>`. */
  ghost predicate Placeholder(seg: string) {
    exists x :: x != "" && (seg == ":" + x || seg == "{" + x + "}" || seg == "<" + x + ">")
  }

  lemma NumberIff(seg: string)
    ensures IsAllDigits(seg) <==> Number(seg)
  {
    forall c ensures Decimal.IsDigit(c) <==> c in "0123456789" {
      DigitIff(c);
    }
    if Number(seg) {
      forall i | 0 <= i < |seg| ensures Decimal.IsDigit(seg[i]) {
        assert seg[i] in seg;
      }
    }
  }

  lemma DigitIff(c: char)
    ensures Decimal.IsDigit(c) <==> c in "0123456789"
  {
    var digits := "0123456789";
    if Decimal.IsDigit(c) {
      assert digits[c as int - '0' as int] == c;
    }
  }

  /** Every printed natural number is one. */
  lemma PrintedIsNumber(n: nat)
    ensures Number(Decimal.Digits(n))
  {
    NumberIff(Decimal.Digits(n));
  }

  lemma PlaceholderIff(seg: string)
    requires Free(seg, '/')
    ensures IsPlaceholder(seg) <==> Placeholder(seg)
  {
    var n := |seg|;
    if IsPlaceholder(seg) {
      if seg[0] == ':' {
        assert seg == ":" + seg[1..];
      } else {
        var x := seg[1..n - 1];
        assert seg == [seg[0]] + x + [seg[n - 1]];
        assert x != "" && (seg == "{" + x + "}" || seg == "<" + x + ">");
      }
    }
    if Placeholder(seg) {
      var x :| x != "" && (seg == ":" + x || seg == "{" + x + "}" || seg == "<" + x + ">");
      assert n == |x| + 1 || n == |x| + 2;
    }
  }

  /** A route is normalized segment by segment: a placeholder or a number becomes {n}, nothing else
      changes, and a missing leading slash is added. */
  lemma NormalizedSegments(p: string, rooted: string, i: nat)
    requires rooted == (if p != "" && p[0] == '/' then p else "/" + p) && i < |Split(rooted)|
    ensures |Split(NormalizeRoute(p))| == |Split(rooted)|
    ensures Split(NormalizeRoute(p))[i] ==
            var seg := Split(rooted)[i]; if Placeholder(seg) || Number(seg) then "{n}" else seg
  {
    assert HasPrefix(p, "/") <==> p != "" && p[0] == '/';
    var seg := Split(rooted)[i];
    assert seg in Split(rooted);
    PlaceholderIff(seg);
    NumberIff(seg);
    NormalizeKeepsSegments(p, i);
  }

  /** A path is templated segment by segment: a number becomes {n}, nothing else changes. */
  lemma TemplatedSegments(p: string, i: nat)
    requires i < |Split(p)|
    ensures |Split(TemplatizePath(p))| == |Split(p)|
    ensures Split(TemplatizePath(p))[i] == var seg := Split(p)[i]; if Number(seg) then "{n}" else seg
  {
    NumberIff(Split(p)[i]);
    TemplatizeKeepsSegments(p, i);
  }

  /** A segment in the middle of a path. */
  lemma SegmentAt(x: string, seg: string, y: string)
    requires Free(seg, '/')
    ensures Split(x + "/" + (seg + "/" + y)) == Split(x) + [seg] + Split(y)
  {
    SplitAround(seg, y);
    SplitAround(x, seg + "/" + y);
    SplitOne(seg);
    assert Split(x) + ([seg] + Split(y)) == Split(x) + [seg] + Split(y);
  }

  lemma SplitOne(seg: string)
    requires Free(seg, '/')
    ensures Split(seg) == [seg]
  {
    assert IndexOf(seg, '/') < 0;
  }

  /** Written out: for any slash-free name in any of the three styles, and for any number, the route
      normalizes as with {n} in that place. */
  lemma EveryStyleMeets(x: string, name: string, y: string, n: nat, seg: string)
    requires name != "" && Free(name, '/')
    requires seg in {":" + name, "{" + name + "}", "<" + name + ">", Decimal.Digits(n)}
    ensures NormalizeRoute("/" + x + "/" + (seg + "/" + y)) == NormalizeRoute("/" + x + "/" + ("{n}" + "/" + y))
  {
    var p, q := "/" + x + "/" + (seg + "/" + y), "/" + x + "/" + ("{n}" + "/" + y);
    PrintedIsNumber(n);
    assert Free(seg, '/') by {
      SlashFreeStyles(name, n, seg);
    }
    SegmentAt("/" + x, seg, y);
    SegmentAt("/" + x, "{n}", y);
    assert Split(p)[|Split("/" + x)|] == seg && HasPrefix(p, "/") && HasPrefix(q, "/");
    assert Placeholder(seg) || Number(seg);
    Absorbed(p, q, |Split("/" + x)|, seg);
  }

  lemma SlashFreeStyles(name: string, n: nat, seg: string)
    requires Free(name, '/')
    requires seg in {":" + name, "{" + name + "}", "<" + name + ">", Decimal.Digits(n)}
    ensures Free(seg, '/')
  {
  }

  lemma Absorbed(p: string, q: string, k: nat, seg: string)
    requires HasPrefix(p, "/") && HasPrefix(q, "/") && k < |Split(p)| == |Split(q)|
    requires Split(q)[k] == "{n}" && Split(p)[k] == seg && (Placeholder(seg) || Number(seg))
    requires forall i | 0 <= i < |Split(p)| && i != k :: Split(p)[i] == Split(q)[i]
    ensures NormalizeRoute(p) == NormalizeRoute(q)
  {
    assert seg in Split(p);
    PlaceholderIff(seg);
    NumberIff(seg);
    assert IsPlaceholder("{n}");
    assert RoutesMeet(p, q);
    NormalizeEqualIff(p, q);
  }
}
