/** Reachability in the stored graph: the entities within so many hops of a root, through
    edges whose target exists. */
module Reach {
  import opened Graph
  import opened GraphStore

  /** The existing targets of an entity's edges. */
  function Successors(st: Store, id: string): set<string> {
    set p | p in st.edges && p.0 == id && p.1.to in st.core :: p.1.to
  }

  function Hop(st: Store, from: set<string>): set<string> {
    set p | p in st.edges && p.0 in from && p.1.to in st.core :: p.1.to
  }

  function Within(st: Store, root: string, n: nat): set<string> {
    if n == 0 then {root} else Within(st, root, n - 1) + Hop(st, Within(st, root, n - 1))
  }

  lemma {:induction false} WithinGrows(st: Store, root: string, m: nat, n: nat)
    requires m <= n
    ensures Within(st, root, m) <= Within(st, root, n)
  {
    if m < n {
      WithinGrows(st, root, m, n - 1);
    }
  }

  lemma {:induction false} WithinExists(st: Store, root: string, n: nat)
    requires root in st.core
    ensures Within(st, root, n) <= st.core.Keys
  {
    if n > 0 {
      WithinExists(st, root, n - 1);
    }
  }

  lemma OneMoreHop(st: Store, root: string, n: nat, id: string, next: string)
    requires id in Within(st, root, n) && next in Successors(st, id)
    ensures next in Within(st, root, n + 1)
  {
    var p :| p in st.edges && p.0 == id && p.1.to in st.core && p.1.to == next;
    assert next in Hop(st, Within(st, root, n));
  }

  lemma HopFrom(st: Store, root: string, n: nat, next: string) returns (id: string)
    requires next in Within(st, root, n + 1) && next !in Within(st, root, n)
    ensures id in Within(st, root, n) && next in Successors(st, id)
  {
    var p :| p in st.edges && p.0 in Within(st, root, n) && p.1.to in st.core && p.1.to == next;
    id := p.0;
  }

  // ----- the same by paths

  predicate Linked(st: Store, a: string, b: string) {
    exists p :: p in st.edges && p.0 == a && p.1.to == b
  }

  predicate Path(st: Store, p: seq<string>) {
    && |p| > 0
    && (forall i | 0 <= i < |p| :: p[i] in st.core)
    && (forall i | 0 < i < |p| :: Linked(st, p[i - 1], p[i]))
  }

  predicate PathTo(st: Store, p: seq<string>, root: string, id: string) {
    Path(st, p) && p[0] == root && p[|p| - 1] == id
  }

  lemma {:induction false} PathStaysWithin(st: Store, root: string, p: seq<string>, id: string)
    requires PathTo(st, p, root, id)
    ensures id in Within(st, root, |p| - 1)
  {
    if |p| > 1 {
      var init := p[..|p| - 1];
      assert Path(st, init);
      PathStaysWithin(st, root, init, p[|p| - 2]);
      assert Linked(st, p[|p| - 1 - 1], p[|p| - 1]);
      var q :| q in st.edges && q.0 == p[|p| - 2] && q.1.to == id;
      assert id in Successors(st, p[|p| - 2]);
      OneMoreHop(st, root, |p| - 2, p[|p| - 2], id);
    }
  }

  lemma {:induction false} WithinHasPath(st: Store, root: string, n: nat, id: string) returns (p: seq<string>)
    requires root in st.core && id in Within(st, root, n)
    ensures PathTo(st, p, root, id) && |p| <= n + 1
  {
    if n == 0 {
      p := [root];
    } else if id in Within(st, root, n - 1) {
      p := WithinHasPath(st, root, n - 1, id);
    } else {
      var before := HopFrom(st, root, n - 1, id);
      var init := WithinHasPath(st, root, n - 1, before);
      var q :| q in st.edges && q.0 == before && q.1.to in st.core && q.1.to == id;
      assert Linked(st, before, id);
      p := init + [id];
      assert p[|p| - 2] == before;
    }
  }

  /** Within n hops means: at the end of a path of existing entities with at most n edges. */
  lemma WithinIffPath(st: Store, root: string, n: nat, id: string)
    requires root in st.core
    ensures id in Within(st, root, n) <==> exists p :: PathTo(st, p, root, id) && |p| <= n + 1
  {
    if id in Within(st, root, n) {
      var p := WithinHasPath(st, root, n, id);
    }
    if p :| PathTo(st, p, root, id) && |p| <= n + 1 {
      PathStaysWithin(st, root, p, id);
      WithinGrows(st, root, |p| - 1, n);
    }
  }

  // ----- as many hops as there are entities are enough

  lemma SameNext(st: Store, root: string, m: nat, k: nat, n: nat)
    requires Within(st, root, k) == Within(st, root, m) == Within(st, root, m + 1) && n == k + 1
    ensures Within(st, root, n) == Within(st, root, m)
  {
    assert Hop(st, Within(st, root, k)) == Hop(st, Within(st, root, m));
  }

  lemma {:induction false} Saturated(st: Store, root: string, m: nat, n: nat)
    requires m <= n && Within(st, root, m + 1) == Within(st, root, m)
    ensures Within(st, root, n) == Within(st, root, m)
  {
    if m < n {
      var k := n - 1;
      Saturated(st, root, m, k);
      SameNext(st, root, m, k, n);
    }
  }

  lemma SubsetSmaller(a: set<string>, b: set<string>)
    requires a <= b
    ensures |a| <= |b| && (a != b ==> |a| < |b|)
  {
    assert b == a + (b - a);
    assert |b| == |a| + |b - a|;
    if a != b {
      assert b - a != {};
    }
  }

  lemma {:induction false} GrowsOrStops(st: Store, root: string, n: nat)
    ensures |Within(st, root, n)| > n || exists m :: 0 <= m < n && Within(st, root, m + 1) == Within(st, root, m)
  {
    if n > 0 {
      GrowsOrStops(st, root, n - 1);
      WithinGrows(st, root, n - 1, n);
      SubsetSmaller(Within(st, root, n - 1), Within(st, root, n));
      if |Within(st, root, n - 1)| > n - 1 && Within(st, root, n) == Within(st, root, n - 1) {
        assert Within(st, root, n - 1 + 1) == Within(st, root, n - 1);
      }
    }
  }

  lemma {:induction false} StopsEarly(st: Store, root: string, m: nat, bound: nat, n: nat)
    requires m <= bound <= n && Within(st, root, m + 1) == Within(st, root, m)
    ensures Within(st, root, n) == Within(st, root, bound)
  {
    Saturated(st, root, m, n);
    Saturated(st, root, m, bound);
  }

  /** A bound of at least the number of entities besides the root loses nothing: it reaches
      whatever any number of hops reaches. */
  lemma EnoughHops(st: Store, root: string, bound: nat, n: nat)
    requires root in st.core && |st.core| <= bound + 1
    ensures Within(st, root, n) <= Within(st, root, bound)
  {
    if n <= bound {
      WithinGrows(st, root, n, bound);
    } else if m :| 0 <= m < bound && Within(st, root, m + 1) == Within(st, root, m) {
      StopsEarly(st, root, m, bound, n);
    } else {
      AllWithin(st, root, bound);
      WithinExists(st, root, n);
    }
  }

  lemma AllWithin(st: Store, root: string, bound: nat)
    requires root in st.core && |st.core| <= bound + 1
    requires forall m | 0 <= m < bound :: Within(st, root, m + 1) != Within(st, root, m)
    ensures Within(st, root, bound) == st.core.Keys
  {
    GrowsOrStops(st, root, bound);
    WithinExists(st, root, bound);
    SubsetSmaller(Within(st, root, bound), st.core.Keys);
    assert |st.core.Keys| == |st.core|;
  }

  // ----- breadth-first search

  /** `n` is the length of a shortest path to `id`. */
  predicate Distance(st: Store, root: string, id: string, n: nat) {
    id in Within(st, root, n) && (n > 0 ==> id !in Within(st, root, n - 1))
  }

  /** Recorded depths are shortest distances, within the bound. */
  ghost predicate Measured(st: Store, root: string, max: nat, visited: map<string, nat>) {
    && root in st.core && root in visited
    && (forall id | id in visited :: id in st.core && visited[id] <= max)
    && (forall id {:trigger Distance(st, root, id, visited[id])} | id in visited :: Distance(st, root, id, visited[id]))
  }

  ghost predicate Closed(st: Store, max: nat, visited: map<string, nat>, done: set<string>) {
    forall id {:trigger Successors(st, id)} | id in done && id in visited && visited[id] < max ::
      Successors(st, id) <= visited.Keys
  }

  /** `d` is the depth being worked on: nothing done is deeper, nothing waiting is shallower
      or more than one deeper, and everything within `d` hops is known. */
  ghost predicate Frontier(st: Store, root: string, visited: map<string, nat>, waiting: set<string>,
                           done: set<string>, d: nat) {
    && Within(st, root, d) <= visited.Keys
    && (forall x {:trigger visited[x]} | x in done && x in visited :: visited[x] <= d)
    && (forall x {:trigger visited[x]} | x in waiting && x in visited :: d <= visited[x] <= d + 1)
  }

  /** The state of the search: the visited entities are waiting on the queue or done. */
  ghost predicate Explored(st: Store, root: string, max: nat, visited: map<string, nat>, waiting: set<string>,
                           done: set<string>, d: nat) {
    && Measured(st, root, max, visited) && visited.Keys == waiting + done && waiting !! done
    && Closed(st, max, visited, done) && Frontier(st, root, visited, waiting, done, d)
  }

  lemma Start(st: Store, root: string, max: nat)
    requires root in st.core
    ensures Explored(st, root, max, map[root := 0], {root}, {}, 0)
  {
    assert Distance(st, root, root, 0);
  }

  /** What the expansion of an entity at depth `d` discovers. */
  function Discovered(st: Store, max: nat, visited: map<string, nat>, id: string, d: nat): set<string> {
    if d < max then Successors(st, id) - visited.Keys else {}
  }

  function Marked(visited: map<string, nat>, found: set<string>, depth: nat): map<string, nat> {
    map id | id in visited.Keys + found :: if id in visited then visited[id] else depth
  }

  lemma MeasuredNext(st: Store, root: string, max: nat, visited: map<string, nat>, id: string)
    requires Measured(st, root, max, visited) && id in visited
    requires Within(st, root, visited[id]) <= visited.Keys
    ensures Measured(st, root, max, Marked(visited, Discovered(st, max, visited, id, visited[id]), visited[id] + 1))
  {
    var found := Discovered(st, max, visited, id, visited[id]);
    assert Distance(st, root, id, visited[id]);
    forall x | x in found ensures x in st.core && Distance(st, root, x, visited[id] + 1) {
      OneMoreHop(st, root, visited[id], id, x);
    }
  }

  lemma ClosedNext(st: Store, max: nat, visited: map<string, nat>, done: set<string>, id: string)
    requires id in visited && done <= visited.Keys && Closed(st, max, visited, done)
    ensures Closed(st, max, Marked(visited, Discovered(st, max, visited, id, visited[id]), visited[id] + 1),
                   done + {id})
  {
    var visited' := Marked(visited, Discovered(st, max, visited, id, visited[id]), visited[id] + 1);
    assert Successors(st, id) <= visited.Keys + (Successors(st, id) - visited.Keys);
    forall x | x in done + {id} && visited'[x] < max ensures Successors(st, x) <= visited'.Keys {
    }
  }

  lemma FrontierNext(st: Store, root: string, visited: map<string, nat>, waiting: set<string>, done: set<string>,
                     id: string, found: set<string>, d: nat)
    requires Frontier(st, root, visited, waiting, done, d) && visited.Keys == waiting + done
    requires id in waiting && visited[id] == d && found !! visited.Keys
    ensures Frontier(st, root, Marked(visited, found, d + 1), waiting - {id} + found, done + {id}, d)
  {
  }

  lemma DividedNext(visited: map<string, nat>, waiting: set<string>, done: set<string>, id: string,
                    found: set<string>, depth: nat)
    requires visited.Keys == waiting + done && waiting !! done && id in waiting && found !! visited.Keys
    ensures Marked(visited, found, depth).Keys == (waiting - {id} + found) + (done + {id})
    ensures (waiting - {id} + found) !! (done + {id})
  {
  }

  /** Expanding an entity at the current depth. */
  lemma Expand(st: Store, root: string, max: nat, visited: map<string, nat>, waiting: set<string>, done: set<string>,
               id: string, d: nat)
    requires Explored(st, root, max, visited, waiting, done, d) && id in waiting && visited[id] == d
    ensures var found := Discovered(st, max, visited, id, d);
            Explored(st, root, max, Marked(visited, found, d + 1), waiting - {id} + found, done + {id}, d)
  {
    var found := Discovered(st, max, visited, id, d);
    MeasuredNext(st, root, max, visited, id);
    ClosedNext(st, max, visited, done, id);
    FrontierNext(st, root, visited, waiting, done, id, found, d);
    DividedNext(visited, waiting, done, id, found, d + 1);
  }

  lemma DistanceWithin(st: Store, root: string, id: string, n: nat, d: nat)
    requires Distance(st, root, id, n)
    ensures id in Within(st, root, d) <==> n <= d
  {
    if n <= d {
      WithinGrows(st, root, n, d);
    } else {
      WithinGrows(st, root, d, n - 1);
    }
  }

  /** Once everything at depth `d` is done, the next layer is visited. */
  lemma NextLayer(st: Store, root: string, max: nat, visited: map<string, nat>, done: set<string>, d: nat)
    requires d < max && Measured(st, root, max, visited) && Within(st, root, d) <= visited.Keys
    requires (forall id | id in visited && visited[id] <= d :: id in done) && Closed(st, max, visited, done)
    ensures Within(st, root, d + 1) <= visited.Keys
  {
    forall x | x in Within(st, root, d + 1) ensures x in visited {
      if x !in Within(st, root, d) {
        var id := HopFrom(st, root, d, x);
        assert Distance(st, root, id, visited[id]);
        DistanceWithin(st, root, id, visited[id], d);
        assert Successors(st, id) <= visited.Keys;
      }
    }
  }

  /** Moving on to the next depth when only entities of that depth are waiting. */
  lemma Advance(st: Store, root: string, max: nat, visited: map<string, nat>, waiting: set<string>, done: set<string>,
                d: nat)
    requires Explored(st, root, max, visited, waiting, done, d) && waiting != {}
    requires forall x | x in waiting && x in visited :: visited[x] == d + 1
    ensures Explored(st, root, max, visited, waiting, done, d + 1)
  {
    var x :| x in waiting;
    assert x in visited && visited[x] <= max;
    NextLayer(st, root, max, visited, done, d);
  }

  lemma {:induction false} SearchComplete(st: Store, root: string, max: nat, visited: map<string, nat>, n: nat)
    requires Measured(st, root, max, visited) && Closed(st, max, visited, visited.Keys) && n <= max
    ensures Within(st, root, n) <= visited.Keys
  {
    if n > 0 {
      SearchComplete(st, root, max, visited, n - 1);
      NextLayer(st, root, max, visited, visited.Keys, n - 1);
    }
  }

  /** When nothing is waiting, the visited entities are those within the bound. */
  lemma SearchResult(st: Store, root: string, max: nat, visited: map<string, nat>, done: set<string>, d: nat)
    requires Explored(st, root, max, visited, {}, done, d)
    ensures visited.Keys == Within(st, root, max)
  {
    assert done == visited.Keys;
    SearchComplete(st, root, max, visited, max);
    forall id | id in visited ensures id in Within(st, root, max) {
      assert Distance(st, root, id, visited[id]);
      DistanceWithin(st, root, id, visited[id], max);
    }
  }

  // ----- the queue as a list

  predicate Distinct(q: seq<string>) {
    forall i, j | 0 <= i < j < |q| :: q[i] != q[j]
  }

  /** A queue of visited entities, each once, in the order of their depths. */
  predicate InOrder(visited: map<string, nat>, queue: seq<string>) {
    && Distinct(queue) && (forall i | 0 <= i < |queue| :: queue[i] in visited)
    && forall i, j | 0 <= i < j < |queue| :: visited[queue[i]] <= visited[queue[j]]
  }

  function Elements(q: seq<string>): set<string> {
    set i | 0 <= i < |q| :: q[i]
  }

  lemma HeadIsShallowest(visited: map<string, nat>, queue: seq<string>)
    requires InOrder(visited, queue) && queue != []
    ensures queue[0] in Elements(queue)
    ensures forall x | x in Elements(queue) && x in visited :: visited[queue[0]] <= visited[x]
  {
    assert queue[0] == queue[0];
  }

  lemma QueueNext(visited: map<string, nat>, queue: seq<string>, found: seq<string>, d: nat)
    requires InOrder(visited, queue) && queue != [] && Distinct(found) &&
             forall i | 0 <= i < |found| :: found[i] !in visited
    requires forall i | 0 <= i < |queue| :: visited[queue[i]] <= d + 1
    ensures InOrder(Marked(visited, Elements(found), d + 1), queue[1..] + found)
    ensures Elements(queue[1..] + found) == Elements(queue) - {queue[0]} + Elements(found)
  {
    var q, visited' := queue[1..] + found, Marked(visited, Elements(found), d + 1);
    forall i | 0 <= i < |q|
      ensures q[i] in visited' && (if i < |queue| - 1 then q[i] == queue[i + 1] else q[i] == found[i - (|queue| - 1)])
      ensures visited'[q[i]] == if i < |queue| - 1 then visited[queue[i + 1]] else d + 1
    {
    }
    forall x ensures x in Elements(q) <==> x in Elements(queue) - {queue[0]} + Elements(found) {
      if x in Elements(queue) - {queue[0]} {
        var i :| 0 <= i < |queue| && queue[i] == x;
        assert q[i - 1] == x;
      }
      if x in Elements(found) {
        var i :| 0 <= i < |found| && found[i] == x;
        assert q[|queue| - 1 + i] == x;
      }
    }
  }

  /** The depth being worked on moves on when the head of the queue is deeper. */
  lemma NextDepth(st: Store, root: string, max: nat, visited: map<string, nat>, queue: seq<string>, done: set<string>,
                  d: nat)
    requires Explored(st, root, max, visited, Elements(queue), done, d) && InOrder(visited, queue) && queue != []
    requires visited[queue[0]] > d
    ensures Explored(st, root, max, visited, Elements(queue), done, d + 1) && visited[queue[0]] == d + 1
  {
    HeadIsShallowest(visited, queue);
    Advance(st, root, max, visited, Elements(queue), done, d);
  }

  lemma Singleton(x: string)
    ensures Elements([x]) == {x} && Distinct([x])
  {
    assert [x][0] == x;
  }

  lemma FoundMore(before: map<string, nat>, found: seq<string>, x: string, depth: nat)
    requires Distinct(found) && x !in Marked(before, Elements(found), depth)
    ensures Distinct(found + [x]) && Elements(found + [x]) == Elements(found) + {x}
    ensures Marked(before, Elements(found + [x]), depth) == Marked(before, Elements(found), depth)[x := depth]
  {
    ElementsConcat(found, [x]);
    Singleton(x);
    forall i | 0 <= i < |found| ensures found[i] != x {
      assert found[i] in Elements(found);
    }
  }

  lemma ElementsConcat(p: seq<string>, q: seq<string>)
    ensures Elements(p + q) == Elements(p) + Elements(q)
  {
    forall x ensures x in Elements(p + q) <==> x in Elements(p) || x in Elements(q) {
      if x in Elements(p) {
        var i :| 0 <= i < |p| && p[i] == x;
        assert (p + q)[i] == x;
      }
      if x in Elements(q) {
        var i :| 0 <= i < |q| && q[i] == x;
        assert (p + q)[|p| + i] == x;
      }
    }
  }

  lemma DistinctConcat(p: seq<string>, q: seq<string>)
    requires Distinct(p) && Distinct(q) && Elements(p) !! Elements(q)
    ensures Distinct(p + q)
  {
    forall i, j | 0 <= i < j < |p + q| ensures (p + q)[i] != (p + q)[j] {
      if i < |p| <= j {
        assert p[i] in Elements(p) && q[j - |p|] in Elements(q);
      }
    }
  }
}
