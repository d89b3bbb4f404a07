/** String helpers the repository takes from Go's `strings` package: searching for a
    byte, splitting on '/' and joining again, and the byte order `sort.Slice` uses. */
module Strings {

  predicate HasPrefix(s: string, p: string) {
    p <= s
  }

  predicate Free(s: string, c: char) {
    forall k | 0 <= k < |s| :: s[k] != c
  }

  /** strings.IndexByte: the first position of `c`, or -1. */
  function IndexOf(s: string, c: char): (i: int)
    ensures -1 <= i < |s|
    ensures i >= 0 ==> s[i] == c && forall k | 0 <= k < i :: s[k] != c
    ensures i < 0 ==> Free(s, c)
  {
    IndexFrom(s, c, 0)
  }

  function IndexFrom(s: string, c: char, from: nat): (i: int)
    requires from <= |s|
    ensures i == -1 || from <= i < |s|
    ensures i >= 0 ==> s[i] == c && forall k | from <= k < i :: s[k] != c
    ensures i < 0 ==> forall k | from <= k < |s| :: s[k] != c
    decreases |s| - from
  {
    if from == |s| then -1
    else if s[from] == c then from
    else IndexFrom(s, c, from + 1)
  }

  /** The position found is the only one with a `c`-free text before it. */
  lemma IndexOfAt(a: string, c: char, b: string)
    requires Free(a, c)
    ensures IndexOf(a + [c] + b, c) == |a|
  {
    var s := a + [c] + b;
    assert s[|a|] == c;
    assert forall k | 0 <= k < |a| :: s[k] == a[k];
  }

  /** strings.LastIndexByte: the last position of `c`, or -1. */
  function LastIndexOf(s: string, c: char): (i: int)
    ensures -1 <= i < |s|
    ensures i >= 0 ==> s[i] == c && forall k | i < k < |s| :: s[k] != c
    ensures i < 0 ==> Free(s, c)
  {
    LastIndexUpTo(s, c, |s|)
  }

  function LastIndexUpTo(s: string, c: char, end: nat): (i: int)
    requires end <= |s|
    ensures -1 <= i < end
    ensures i >= 0 ==> s[i] == c
    ensures forall k | i < k < end :: s[k] != c
  {
    if end == 0 then -1
    else if s[end - 1] == c then end - 1
    else LastIndexUpTo(s, c, end - 1)
  }

  lemma LastIndexOfAt(a: string, c: char, b: string)
    requires Free(b, c)
    ensures LastIndexOf(a + [c] + b, c) == |a|
  {
    var s := a + [c] + b;
    assert s[|a|] == c;
    assert forall k | |a| < k < |s| :: s[k] == b[k - |a| - 1];
  }

  // ----- splitting a path into segments

  predicate Segments(parts: seq<string>) {
    forall part | part in parts :: Free(part, '/')
  }

  /** strings.Split(s, "/"). */
  function Split(s: string): (parts: seq<string>)
    ensures |parts| >= 1
    ensures Segments(parts)
    decreases |s|
  {
    var i := IndexOf(s, '/');
    if i < 0 then [s]
    else
      var head, tail := s[..i], Split(s[i + 1..]);
      assert Free(head, '/');
      [head] + tail
  }

  /** strings.Join(parts, "/"). */
  function Join(parts: seq<string>): string
    requires |parts| >= 1
  {
    if |parts| == 1 then parts[0] else parts[0] + "/" + Join(parts[1..])
  }

  lemma JoinCons(head: string, tail: seq<string>)
    requires |tail| >= 1
    ensures Join([head] + tail) == head + "/" + Join(tail)
  {
    assert ([head] + tail)[1..] == tail;
  }

  lemma {:induction false} JoinSplit(s: string)
    ensures Join(Split(s)) == s
    decreases |s|
  {
    var i := IndexOf(s, '/');
    if i >= 0 {
      CutAt(s, i);
      JoinSplit(s[i + 1..]);
      JoinCons(s[..i], Split(s[i + 1..]));
    }
  }

  lemma CutAt(s: string, i: nat)
    requires i < |s| && s[i] == '/'
    ensures s == s[..i] + "/" + s[i + 1..]
  {
  }

  lemma {:induction false} SplitJoin(parts: seq<string>)
    requires |parts| >= 1
    requires Segments(parts)
    ensures Split(Join(parts)) == parts
  {
    assert parts[0] in parts;
    if |parts| == 1 {
      assert parts == [parts[0]];
    } else {
      var rest := Join(parts[1..]);
      IndexOfAt(parts[0], '/', rest);
      assert Join(parts) == parts[0] + ['/'] + rest;
      assert Join(parts)[..|parts[0]|] == parts[0];
      assert Join(parts)[|parts[0]| + 1..] == rest;
      SplitJoin(parts[1..]);
    }
  }

  lemma {:induction false} JoinConcat(x: seq<string>, y: seq<string>)
    requires |x| >= 1 && |y| >= 1
    ensures Join(x + y) == Join(x) + "/" + Join(y)
  {
    assert x + y == [x[0]] + (x[1..] + y);
    JoinCons(x[0], x[1..] + y);
    if |x| == 1 {
      assert x[1..] + y == y;
    } else {
      JoinConcat(x[1..], y);
      Regroup(x[0], Join(x[1..]), Join(y));
    }
  }

  lemma Regroup(a: string, b: string, c: string)
    ensures a + "/" + (b + "/" + c) == (a + "/" + b) + "/" + c
  {
  }

  lemma SplitAround(a: string, b: string)
    ensures Split(a + "/" + b) == Split(a) + Split(b)
  {
    JoinSplit(a);
    JoinSplit(b);
    JoinConcat(Split(a), Split(b));
    SplitJoin(Split(a) + Split(b));
  }

  lemma SplitSlash(s: string)
    ensures Split("/" + s) == [""] + Split(s)
  {
    IndexOfAt("", '/', s);
    assert "" + ['/'] + s == "/" + s;
    assert ("/" + s)[1..] == s;
  }

  /** A text starts with '/' exactly when its first segment is empty and is not the only one. */
  lemma LeadingSlash(s: string)
    ensures HasPrefix(s, "/") <==> Split(s)[0] == "" && |Split(s)| >= 2
  {
    if HasPrefix(s, "/") {
      SplitSlash(s[1..]);
      assert s == "/" + s[1..];
    } else {
      var i := IndexOf(s, '/');
      assert s != "" ==> s[..1] == [s[0]];
      assert i > 0 ==> Split(s)[0] == s[..i];
    }
  }

  // ----- the order of sort.Slice on IDs

  predicate Before(a: string, b: string) {
    if b == "" then false
    else if a == "" then true
    else a[0] < b[0] || (a[0] == b[0] && Before(a[1..], b[1..]))
  }

  predicate AtMost(a: string, b: string) {
    !Before(b, a)
  }

  lemma BeforeAsymmetric(a: string, b: string)
    requires Before(a, b)
    ensures !Before(b, a)
  {
  }

  lemma {:induction false} AtMostTransitive(a: string, b: string, c: string)
    requires AtMost(a, b) && AtMost(b, c)
    ensures AtMost(a, c)
  {
    if a != "" && b != "" && c != "" && a[0] == b[0] && b[0] == c[0] {
      AtMostTransitive(a[1..], b[1..], c[1..]);
    }
  }

  lemma {:induction false} AtMostAntisymmetric(a: string, b: string)
    requires AtMost(a, b) && AtMost(b, a)
    ensures a == b
  {
    if a != "" && b != "" {
      AtMostAntisymmetric(a[1..], b[1..]);
      assert a == [a[0]] + a[1..] && b == [b[0]] + b[1..];
    }
  }

  /** Byte order said outright: `a` begins `b`, or at the first difference has the smaller character. */
  ghost predicate Earlier(a: string, b: string) {
    exists n :: 0 <= n <= |a| && n <= |b| && DiffersAt(a, b, n)
  }

  predicate DiffersAt(a: string, b: string, n: nat)
    requires n <= |a| && n <= |b|
  {
    a[..n] == b[..n] && n < |b| && (n == |a| || a[n] < b[n])
  }

  lemma {:induction false} BeforeIsEarlier(a: string, b: string)
    requires Before(a, b)
    ensures Earlier(a, b)
  {
    if a == "" {
      assert DiffersAt(a, b, 0);
    } else if a[0] < b[0] {
      assert DiffersAt(a, b, 0);
    } else {
      BeforeIsEarlier(a[1..], b[1..]);
      var n :| 0 <= n <= |a[1..]| && n <= |b[1..]| && DiffersAt(a[1..], b[1..], n);
      assert a[..n + 1] == [a[0]] + a[1..][..n] && b[..n + 1] == [b[0]] + b[1..][..n];
      assert DiffersAt(a, b, n + 1);
    }
  }

  lemma {:induction false} EarlierIsBefore(a: string, b: string, n: nat)
    requires n <= |a| && n <= |b| && DiffersAt(a, b, n)
    ensures Before(a, b)
  {
    if n > 0 {
      assert a[0] == a[..n][0] == b[..n][0] == b[0];
      assert a[1..][..n - 1] == a[..n][1..] && b[1..][..n - 1] == b[..n][1..];
      EarlierIsBefore(a[1..], b[1..], n - 1);
    }
  }

  lemma BeforeIff(a: string, b: string)
    ensures Before(a, b) <==> Earlier(a, b)
  {
    if Before(a, b) {
      BeforeIsEarlier(a, b);
    }
    if Earlier(a, b) {
      var n :| 0 <= n <= |a| && n <= |b| && DiffersAt(a, b, n);
      EarlierIsBefore(a, b, n);
    }
  }

  /** Texts compare at their first difference, and a proper beginning comes first. */
  lemma FirstDifference(p: string, c: char, x: string, d: char, y: string)
    ensures c < d ==> Before(p + [c] + x, p + [d] + y)
    ensures Before(p, p + [c] + x)
  {
    var n := |p|;
    assert (p + [c] + x)[..n] == p == (p + [d] + y)[..n] == p[..n];
    if c < d {
      assert DiffersAt(p + [c] + x, p + [d] + y, n);
      EarlierIsBefore(p + [c] + x, p + [d] + y, n);
    }
    assert DiffersAt(p, p + [c] + x, n);
    EarlierIsBefore(p, p + [c] + x, n);
  }
}
