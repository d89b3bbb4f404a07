/** The cap of an unbounded search, which is the number of indexed entities: when it is enough
    whatever the edges are. */
module SearchCap {
  import opened Graph
  import opened GraphStore
  import opened Reach

  function WithEdges(st: Store, edges: set<(string, Edge)>): Store {
    st.(edges := edges)
  }

  /** Whatever edges are stored, everything any number of hops reaches is within the bound. */
  ghost predicate AlwaysEnough(st: Store, root: string, bound: nat) {
    forall edges, n :: Within(WithEdges(st, edges), root, n) <= Within(WithEdges(st, edges), root, bound)
  }

  lemma {:induction false} Listed(ids: set<string>) returns (order: seq<string>)
    ensures Distinct(order) && Elements(order) == ids && |order| == |ids|
    decreases |ids|
  {
    if ids == {} {
      order := [];
    } else {
      var id :| id in ids;
      var rest := Listed(ids - {id});
      order := [id] + rest;
      Singleton(id);
      ElementsConcat([id], rest);
      DistinctConcat([id], rest);
    }
  }

  /** One edge from each entity of the list to the next. */
  function ChainEdges(order: seq<string>): set<(string, Edge)> {
    set i | 0 <= i < |order| - 1 :: ChainEdge(order, i)
  }

  function ChainEdge(order: seq<string>, i: nat): (string, Edge)
    requires i < |order| - 1
  {
    (order[i], Edge(Calls, order[i + 1], ""))
  }

  lemma ChainHop(st: Store, order: seq<string>, k: nat, next: nat)
    requires Distinct(order) && Elements(order) == st.core.Keys && st.edges == ChainEdges(order)
    requires next < |order| && next == k + 1
    ensures Elements(order[..next]) + Hop(st, Elements(order[..next])) == Elements(order[..next + 1])
  {
    var near, far := Elements(order[..next]), Elements(order[..next + 1]);
    assert order[..next + 1] == order[..next] + [order[next]];
    ElementsConcat(order[..next], [order[next]]);
    Singleton(order[next]);
    assert order[next] in Elements(order);
    var p := ChainEdge(order, k);
    assert p in st.edges;
    assert order[..next][k] in near;
    assert p.1.to in Hop(st, near);
    forall x | x in Hop(st, near) ensures x in far {
      var q :| q in st.edges && q.0 in near && q.1.to in st.core && q.1.to == x;
      FollowChain(order, q, next);
    }
  }

  /** An edge of the chain that starts within the first entities ends within one more. */
  lemma FollowChain(order: seq<string>, q: (string, Edge), next: nat)
    requires Distinct(order) && next < |order| && q in ChainEdges(order) && q.0 in Elements(order[..next])
    ensures q.1.to in Elements(order[..next + 1])
  {
    var i :| 0 <= i < |order| - 1 && q == ChainEdge(order, i);
    var j :| 0 <= j < next && order[..next][j] == q.0;
    assert order[j] == order[i];
    assert order[..next + 1][i + 1] == q.1.to;
  }

  /** In a chain, as many hops reach as many entities and no more. */
  lemma {:induction false} ChainWithin(st: Store, order: seq<string>, k: nat)
    requires Distinct(order) && Elements(order) == st.core.Keys && st.edges == ChainEdges(order) && k < |order|
    ensures Within(st, order[0], k) == Elements(order[..k + 1])
  {
    if k == 0 {
      assert order[..1] == [order[0]];
      Singleton(order[0]);
    } else {
      var before := k - 1;
      ChainWithin(st, order, before);
      ChainHop(st, order, before, k);
    }
  }

  lemma LastIsMissed(order: seq<string>, n: nat)
    requires Distinct(order) && 0 < n < |order|
    ensures order[n] in Elements(order[..n + 1]) && order[n] !in Elements(order[..n])
  {
    assert order[..n + 1][n] == order[n];
  }

  lemma ListedFrom(st: Store, root: string) returns (order: seq<string>)
    requires root in st.core
    ensures Distinct(order) && Elements(order) == st.core.Keys && |order| == |st.core| && order[0] == root
  {
    var others := Listed(st.core.Keys - {root});
    order := [root] + others;
    Singleton(root);
    ElementsConcat([root], others);
    DistinctConcat([root], others);
    assert |st.core.Keys| == |st.core|;
  }

  lemma ChainIsCut(chained: Store, order: seq<string>, bound: nat, n: nat)
    requires Distinct(order) && Elements(order) == chained.core.Keys && chained.edges == ChainEdges(order)
    requires n == bound + 1 && n < |order|
    ensures order[n] in Within(chained, order[0], n) && order[n] !in Within(chained, order[0], bound)
  {
    ChainWithin(chained, order, bound);
    ChainWithin(chained, order, n);
    LastIsMissed(order, n);
  }

  lemma TooSmall(st: Store, root: string, bound: nat)
    requires root in st.core && |st.core| > bound + 1
    ensures !AlwaysEnough(st, root, bound)
  {
    var order := ListedFrom(st, root);
    var chained, n := WithEdges(st, ChainEdges(order)), bound + 1;
    ChainIsCut(chained, order, bound, n);
    assert !(Within(chained, root, n) <= Within(chained, root, bound));
  }

  /** The cap loses nothing, whatever the edges, if and only if at most one entity besides those
      counted by the index is stored. */
  lemma CapLosesNothingIff(st: Store, root: string)
    requires root in st.core
    ensures AlwaysEnough(st, root, |st.ids|) <==> |st.core| <= |st.ids| + 1
  {
    if |st.core| <= |st.ids| + 1 {
      forall edges, n: nat
        ensures Within(WithEdges(st, edges), root, n) <= Within(WithEdges(st, edges), root, |st.ids|)
      {
        EnoughHops(WithEdges(st, edges), root, |st.ids|, n);
      }
    } else {
      TooSmall(st, root, |st.ids|);
    }
  }

  /** Without the index the cap cuts the answer off: an unindexed neighbour is not reached. */
  lemma CapLosesUnindexed(root: Core, other: Core, e: Edge)
    requires root.id != other.id && e.to == other.id
    ensures var st := Store(map[root.id := root, other.id := other], map[], {(root.id, e)}, {}, {});
            other.id in Within(st, root.id, 1) && other.id !in Within(st, root.id, |st.ids|)
  {
    var st := Store(map[root.id := root, other.id := other], map[], {(root.id, e)}, {}, {});
    assert (root.id, e).1.to in Successors(st, root.id);
    OneMoreHop(st, root.id, 0, root.id, other.id);
  }
}
