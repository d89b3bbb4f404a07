/** Graph queries over the stored keys: one entity, and the entities around a root. */
module Query {
  import opened Wrappers
  import opened Strings
  import opened Graph
  import opened GraphStore
  import opened Index
  import opened Reach
  import Decimal

  /** An entity as returned to callers; the last-seen time is absent when it does not parse. */
  datatype Entity = Entity(
    id: string, kind: string, name: string, lastSeen: Option<int>, edges: set<Edge>, metadata: map<string, string>)

  function Outgoing(st: Store, id: string): set<Edge> {
    set p | p in st.edges && p.0 == id :: p.1
  }

  function SeenTime(text: string): Option<int> {
    if text == "" then None else Decimal.Parse(text)
  }

  function Assemble(st: Store, id: string): Entity
    requires id in st.core
  {
    var c := st.core[id];
    Entity(c.id, c.kind, c.name, SeenTime(c.lastSeen), Outgoing(st, id), if id in st.meta then st.meta[id] else map[])
  }

  lemma SuccessorsFromEdges(st: Store, id: string)
    ensures forall x :: x in Successors(st, id) <==> x in st.core && exists e :: e in Outgoing(st, id) && e.to == x
  {
    forall x ensures x in Successors(st, id) <==> x in st.core && exists e :: e in Outgoing(st, id) && e.to == x {
      if x in Successors(st, id) {
        var p :| p in st.edges && p.0 == id && p.1.to in st.core && p.1.to == x;
        assert p.1 in Outgoing(st, id);
      }
      if x in st.core && exists e :: e in Outgoing(st, id) && e.to == x {
        var e :| e in Outgoing(st, id) && e.to == x;
        assert (id, e) in st.edges;
        assert (id, e).1.to in Successors(st, id);
      }
    }
  }

  // ----- lists of entities

  predicate AllStored(st: Store, order: seq<string>) {
    forall i | 0 <= i < |order| :: order[i] in st.core
  }

  function Loaded(st: Store, order: seq<string>): seq<Entity>
    requires AllStored(st, order)
  {
    seq(|order|, i requires 0 <= i < |order| => Assemble(st, order[i]))
  }

  predicate Ascending(out: seq<Entity>) {
    forall i, j | 0 <= i < j < |out| :: AtMost(out[i].id, out[j].id)
  }

  /** The list in byte order of the IDs: of two entities the first one's ID is the same, begins the
      other's, or has the smaller character where they first differ. */
  ghost predicate InByteOrder(out: seq<Entity>) {
    forall i, j | 0 <= i < j < |out| :: out[i].id == out[j].id || Earlier(out[i].id, out[j].id)
  }

  lemma AscendingIsByteOrder(out: seq<Entity>)
    requires Ascending(out)
    ensures InByteOrder(out)
  {
    forall i, j | 0 <= i < j < |out| ensures out[i].id == out[j].id || Earlier(out[i].id, out[j].id) {
      if Before(out[i].id, out[j].id) {
        BeforeIff(out[i].id, out[j].id);
      } else {
        AtMostAntisymmetric(out[i].id, out[j].id);
      }
    }
  }

  /** `out` holds the assembled entities of `ids`, each exactly once. */
  ghost predicate Lists(st: Store, out: seq<Entity>, ids: set<string>) {
    exists order :: AllStored(st, order) && Distinct(order) && Elements(order) == ids &&
      multiset(out) == multiset(Loaded(st, order))
  }

  function InsertById(e: Entity, sorted: seq<Entity>): (r: seq<Entity>)
    ensures multiset(r) == multiset(sorted) + multiset{e}
  {
    if sorted == [] then [e]
    else if AtMost(e.id, sorted[0].id) then [e] + sorted
    else
      assert sorted == [sorted[0]] + sorted[1..];
      [sorted[0]] + InsertById(e, sorted[1..])
  }

  lemma {:induction false} InsertKeepsOrder(e: Entity, sorted: seq<Entity>)
    requires Ascending(sorted)
    ensures Ascending(InsertById(e, sorted))
  {
    if sorted != [] {
      if AtMost(e.id, sorted[0].id) {
        forall j | 0 <= j < |sorted| ensures AtMost(e.id, sorted[j].id) {
          if j > 0 {
            AtMostTransitive(e.id, sorted[0].id, sorted[j].id);
          }
        }
      } else {
        BeforeAsymmetric(sorted[0].id, e.id);
        InsertKeepsOrder(e, sorted[1..]);
        var r := InsertById(e, sorted[1..]);
        forall j | 0 <= j < |r| ensures AtMost(sorted[0].id, r[j].id) {
          assert r[j] in multiset(r);
          if r[j] != e {
            assert r[j] in sorted[1..];
          }
        }
      }
    }
  }

  /** What the library sort does to the result list. */
  method SortById(out: seq<Entity>) returns (sorted: seq<Entity>)
    ensures Ascending(sorted) && multiset(sorted) == multiset(out)
  {
    sorted := [];
    for i := 0 to |out|
      invariant Ascending(sorted) && multiset(sorted) == multiset(out[..i])
    {
      InsertKeepsOrder(out[i], sorted);
      sorted := InsertById(out[i], sorted);
      assert out[..i + 1] == out[..i] + [out[i]];
    }
    assert out[..|out|] == out;
  }

  // ----- the answer under the index invariant

  ghost predicate Identified(st: Store) {
    forall id | id in st.core :: st.core[id].id == id
  }

  lemma {:induction false} LoadedOnce(st: Store, order: seq<string>, e: Entity)
    requires Identified(st) && AllStored(st, order) && Distinct(order)
    ensures multiset(Loaded(st, order))[e] <= 1
    ensures e in multiset(Loaded(st, order)) <==> e.id in Elements(order) && e == Assemble(st, e.id)
  {
    if order != [] {
      var init, last := order[..|order| - 1], order[|order| - 1];
      LoadedOnce(st, init, e);
      assert Loaded(st, order) == Loaded(st, init) + [Assemble(st, last)];
      assert order == init + [last];
      assert last !in Elements(init);
      assert forall x :: x in Elements(order) <==> x in Elements(init) || x == last by {
        forall x | x in Elements(init) ensures x in Elements(order) {
          var i :| 0 <= i < |init| && init[i] == x;
          assert order[i] == x;
        }
        assert order[|order| - 1] == last;
      }
    }
  }

  /** When core hashes carry their own ID, the answer is determined: strictly ascending, and
      exactly the stored entities asked for. */
  lemma AnswerDetermined(st: Store, out: seq<Entity>, ids: set<string>)
    requires Identified(st) && Ascending(out) && Lists(st, out, ids)
    ensures forall e :: e in out <==> e.id in ids && e.id in st.core && e == Assemble(st, e.id)
    ensures forall i, j | 0 <= i < j < |out| :: Earlier(out[i].id, out[j].id)
  {
    var order :| AllStored(st, order) && Distinct(order) && Elements(order) == ids &&
      multiset(out) == multiset(Loaded(st, order));
    forall e ensures e in out <==> e.id in ids && e.id in st.core && e == Assemble(st, e.id) {
      LoadedOnce(st, order, e);
      assert e in out <==> e in multiset(out);
    }
    forall i, j | 0 <= i < j < |out| ensures Earlier(out[i].id, out[j].id) {
      if Before(out[i].id, out[j].id) {
        BeforeIff(out[i].id, out[j].id);
      } else {
        AtMostAntisymmetric(out[i].id, out[j].id);
        assert out[i] in out && out[j] in out;
        LoadedOnce(st, order, out[i]);
        TwiceInMultiset(out, i, j);
        assert false;
      }
    }
  }

  lemma TwiceInMultiset(out: seq<Entity>, i: nat, j: nat)
    requires i < j < |out| && out[i] == out[j]
    ensures multiset(out)[out[i]] >= 2
  {
    assert out == out[..j] + [out[j]] + out[j + 1..];
    assert out[i] in out[..j];
  }

  // ----- the queries, on the server's contents `st`

  method Size(st: Store) returns (n: nat)
    ensures n == |st.ids|
  {
    n := |st.ids|;
  }

  /** Follows the edges of one entity, in any order, to the entities not seen before. */
  method Follow(st: Store, edges: set<Edge>, id: string, depth: nat, before: map<string, nat>,
                loadedBefore: map<string, Entity>)
    returns (visited: map<string, nat>, found: seq<string>, loaded: seq<Entity>, frontier: map<string, Entity>)
    requires edges == Outgoing(st, id) && TableOf(st, loadedBefore, loadedBefore.Keys)
    ensures Distinct(found) && Elements(found) == Successors(st, id) - before.Keys
    ensures visited == Marked(before, Elements(found), depth)
    ensures AllStored(st, found) && loaded == Loaded(st, found)
    ensures TableOf(st, frontier, loadedBefore.Keys + Elements(found))
  {
    visited, found, loaded, frontier := before, [], [], loadedBefore;
    ghost var seen := {};
    var todo := edges;
    FollowStart(st, before, depth, loadedBefore);
    while todo != {}
      invariant forall e :: e in edges <==> e in seen || e in todo
      invariant FollowState(st, seen, before, depth, loadedBefore, visited, found, loaded, frontier)
      decreases todo
    {
      var e :| e in todo;
      todo := todo - {e};
      ghost var seen0 := seen;
      seen := seen + {e};
      if e.to in visited || e.to !in st.core {
        FollowSkip(st, seen0, before, depth, visited, found, e);
        continue;
      }
      FollowStep(st, seen0, before, depth, loadedBefore, visited, found, loaded, frontier, e);
      visited, found := visited[e.to := depth], found + [e.to];
      loaded, frontier := loaded + [Assemble(st, e.to)], frontier[e.to := Assemble(st, e.to)];
    }
    assert seen == edges;
    Followed(st, id, before, depth, visited, found);
  }

  /** The entities around a root, breadth first, up to a depth; a depth of zero or less
      stands for the number of indexed entities. */
  method Subgraph(st: Store, root: string, maxDepth: int) returns (out: Option<seq<Entity>>,
                  ghost depths: map<string, nat>)
    ensures root !in st.core ==> out == None
    ensures root in st.core ==>
              var bound := if maxDepth <= 0 then |st.ids| else maxDepth;
              && out.Some? && InByteOrder(out.value) && Ascending(out.value)
              && Lists(st, out.value, Within(st, root, bound))
              && depths.Keys == Within(st, root, bound)
              && forall id | id in depths :: Distance(st, root, id, depths[id])
  {
    depths := map[];
    if root !in st.core {
      return None, depths;
    }
    var limit: nat := 0;
    if maxDepth <= 0 {
      limit := Size(st);
    } else {
      limit := maxDepth;
    }
    var visited: map<string, nat> := map[root := 0];
    var queue, entities := [root], [Assemble(st, root)];
    var frontier := map[root := Assemble(st, root)];
    ghost var order, done, d := [root], {}, 0;
    SearchStart(st, root, limit);
    while queue != []
      invariant Searching(st, root, limit, visited, queue, done, d, order, entities, frontier)
      decreases st.core.Keys - done
    {
      ghost var before := Turn(visited, queue, done, order, entities, frontier);
      d := SearchAt(st, root, limit, visited, queue, done, d, order, entities, frontier);
      var id := queue[0];
      queue, done := queue[1..], done + {queue[0]};
      var depth := visited[id];
      if depth >= limit {
        Skipped(st, root, limit, before, queue, done, d);
        continue;
      }
      var next := depth + 1;
      var more, found, loaded, table := Follow(st, frontier[id].edges, id, next, visited, frontier);
      queue, visited, frontier := queue + found, more, table;
      order, entities := order + found, entities + loaded;
      Advanced(st, root, limit, before, visited, queue, done, found, loaded, frontier, next, d);
    }
    var sorted := SortById(entities);
    SearchEnd(st, root, limit, visited, queue, done, d, order, entities, frontier, sorted);
    AscendingIsByteOrder(sorted);
    return Some(sorted), visited;
  }

  /** `found` lists the existing targets of the edges in `seen` that `before` lacks. */
  ghost predicate Following(st: Store, seen: set<Edge>, before: map<string, nat>, depth: nat,
                            visited: map<string, nat>, found: seq<string>) {
    && Distinct(found) && visited == Marked(before, Elements(found), depth)
    && (forall x | x in Elements(found) :: x !in before && x in st.core && exists e :: e in seen && e.to == x)
    && (forall e | e in seen && e.to in st.core :: e.to in visited)
  }

  lemma FollowMore(st: Store, seen: set<Edge>, before: map<string, nat>, depth: nat, visited: map<string, nat>,
                   found: seq<string>, e: Edge)
    requires Following(st, seen, before, depth, visited, found) && e.to in st.core && e.to !in visited
    ensures Following(st, seen + {e}, before, depth, visited[e.to := depth], found + [e.to])
    ensures Elements(found + [e.to]) == Elements(found) + {e.to}
  {
    FoundMore(before, found, e.to, depth);
    assert e in seen + {e};
  }

  ghost predicate FollowState(st: Store, seen: set<Edge>, before: map<string, nat>, depth: nat,
                              loadedBefore: map<string, Entity>,
                              visited: map<string, nat>, found: seq<string>, loaded: seq<Entity>,
                              frontier: map<string, Entity>) {
    && Following(st, seen, before, depth, visited, found)
    && AllStored(st, found) && loaded == Loaded(st, found)
    && TableOf(st, frontier, loadedBefore.Keys + Elements(found))
  }

  lemma FollowStart(st: Store, before: map<string, nat>, depth: nat, loadedBefore: map<string, Entity>)
    requires TableOf(st, loadedBefore, loadedBefore.Keys)
    ensures FollowState(st, {}, before, depth, loadedBefore, before, [], [], loadedBefore)
  {
    MarkedNothing(before, depth);
    assert loadedBefore.Keys + Elements([]) == loadedBefore.Keys;
  }

  lemma FollowStep(st: Store, seen: set<Edge>, before: map<string, nat>, depth: nat, loadedBefore: map<string, Entity>,
                   visited: map<string, nat>, found: seq<string>, loaded: seq<Entity>, frontier: map<string, Entity>,
                   e: Edge)
    requires FollowState(st, seen, before, depth, loadedBefore, visited, found, loaded, frontier)
    requires e.to in st.core && e.to !in visited
    ensures FollowState(st, seen + {e}, before, depth, loadedBefore, visited[e.to := depth], found + [e.to],
                        loaded + [Assemble(st, e.to)], frontier[e.to := Assemble(st, e.to)])
  {
    FollowMore(st, seen, before, depth, visited, found, e);
    LoadedOne(st, found, e.to);
    TableMore(st, frontier, loadedBefore.Keys + Elements(found), e.to, loadedBefore.Keys + Elements(found + [e.to]));
  }

  lemma FollowSkip(st: Store, seen: set<Edge>, before: map<string, nat>, depth: nat, visited: map<string, nat>,
                   found: seq<string>, e: Edge)
    requires Following(st, seen, before, depth, visited, found) && (e.to in st.core ==> e.to in visited)
    ensures Following(st, seen + {e}, before, depth, visited, found)
  {
  }

  lemma LoadedOne(st: Store, found: seq<string>, x: string)
    requires AllStored(st, found) && x in st.core
    ensures AllStored(st, found + [x]) && Loaded(st, found + [x]) == Loaded(st, found) + [Assemble(st, x)]
  {
  }

  lemma Followed(st: Store, id: string, before: map<string, nat>, depth: nat, visited: map<string, nat>,
                 found: seq<string>)
    requires Following(st, Outgoing(st, id), before, depth, visited, found)
    ensures Elements(found) == Successors(st, id) - before.Keys
  {
    SuccessorsFromEdges(st, id);
  }

  /** The loaded entities, by ID. */
  predicate TableOf(st: Store, table: map<string, Entity>, ids: set<string>) {
    table.Keys == ids && forall id | id in table :: id in st.core && table[id] == Assemble(st, id)
  }

  lemma TableMore(st: Store, table: map<string, Entity>, ids: set<string>, id: string, ids': set<string>)
    requires TableOf(st, table, ids) && id in st.core && ids' == ids + {id}
    ensures TableOf(st, table[id := Assemble(st, id)], ids')
  {
  }

  lemma LoadedMore(st: Store, order: seq<string>, found: seq<string>)
    requires AllStored(st, order) && AllStored(st, found)
    ensures AllStored(st, order + found) && Loaded(st, order + found) == Loaded(st, order) + Loaded(st, found)
  {
  }

  /** `order` lists the visited entities as they were found, `entities` what was loaded. */
  ghost predicate Collected(st: Store, order: seq<string>, entities: seq<Entity>, ids: set<string>) {
    AllStored(st, order) && Distinct(order) && Elements(order) == ids && entities == Loaded(st, order)
  }

  lemma CollectedMore(st: Store, order: seq<string>, entities: seq<Entity>, ids: set<string>, found: seq<string>)
    requires Collected(st, order, entities, ids) && AllStored(st, found) && Distinct(found) && Elements(found) !! ids
    ensures Collected(st, order + found, entities + Loaded(st, found), ids + Elements(found))
  {
    ElementsConcat(order, found);
    DistinctConcat(order, found);
    LoadedMore(st, order, found);
  }

  // ----- one turn of the search loop

  /** The variables of the loop at the start of a turn. */
  datatype Turn = Turn(
    visited: map<string, nat>, queue: seq<string>, done: set<string>,
    order: seq<string>, entities: seq<Entity>, frontier: map<string, Entity>)

  ghost predicate Searching(st: Store, root: string, max: nat, visited: map<string, nat>, queue: seq<string>,
                            done: set<string>,
                            d: nat, order: seq<string>, entities: seq<Entity>, frontier: map<string, Entity>) {
    && Explored(st, root, max, visited, Elements(queue), done, d) && InOrder(visited, queue)
    && Collected(st, order, entities, visited.Keys) && TableOf(st, frontier, visited.Keys)
  }

  /** The same, with the depth being worked on that of the head of the queue. */
  ghost predicate Ready(st: Store, root: string, max: nat, t: Turn, d: nat) {
    && Searching(st, root, max, t.visited, t.queue, t.done, d, t.order, t.entities, t.frontier)
    && t.queue != [] && t.visited[t.queue[0]] == d
  }

  lemma SearchStart(st: Store, root: string, max: nat)
    requires root in st.core
    ensures Searching(st, root, max, map[root := 0], [root], {}, 0, [root], [Assemble(st, root)],
                      map[root := Assemble(st, root)])
  {
    Start(st, root, max);
    Singleton(root);
  }

  lemma SearchEnd(st: Store, root: string, max: nat, visited: map<string, nat>, queue: seq<string>, done: set<string>,
                  d: nat, order: seq<string>, entities: seq<Entity>, frontier: map<string, Entity>, sorted: seq<Entity>)
    requires Searching(st, root, max, visited, queue, done, d, order, entities, frontier) && queue == []
    requires multiset(sorted) == multiset(entities)
    ensures Lists(st, sorted, Within(st, root, max)) && visited.Keys == Within(st, root, max)
    ensures forall id | id in visited :: Distance(st, root, id, visited[id])
  {
    SearchResult(st, root, max, visited, done, d);
    forall id | id in visited ensures Distance(st, root, id, visited[id]) {
    }
  }

  lemma DepthOfHead(st: Store, root: string, max: nat, visited: map<string, nat>, queue: seq<string>,
                    done: set<string>, d: nat)
    returns (d': nat)
    requires Explored(st, root, max, visited, Elements(queue), done, d) && InOrder(visited, queue) && queue != []
    ensures Explored(st, root, max, visited, Elements(queue), done, d') && visited[queue[0]] == d'
    ensures queue[0] in visited && queue[0] in st.core && queue[0] !in done
  {
    d' := d;
    HeadIsShallowest(visited, queue);
    if visited[queue[0]] > d {
      NextDepth(st, root, max, visited, queue, done, d);
      d' := d + 1;
    }
  }

  lemma SearchAt(st: Store, root: string, max: nat, visited: map<string, nat>, queue: seq<string>, done: set<string>,
                 d: nat, order: seq<string>, entities: seq<Entity>, frontier: map<string, Entity>) returns (d': nat)
    requires Searching(st, root, max, visited, queue, done, d, order, entities, frontier) && queue != []
    ensures Ready(st, root, max, Turn(visited, queue, done, order, entities, frontier), d')
    ensures queue[0] in visited && queue[0] in frontier && frontier[queue[0]].edges == Outgoing(st, queue[0])
    ensures queue[0] in st.core && queue[0] !in done
  {
    d' := DepthOfHead(st, root, max, visited, queue, done, d);
  }

  lemma Turned(st: Store, root: string, max: nat, visited: map<string, nat>, queue: seq<string>, done: set<string>,
               found: seq<string>, d: nat)
    requires Explored(st, root, max, visited, Elements(queue), done, d) && InOrder(visited, queue) && queue != []
    requires visited[queue[0]] == d && Distinct(found) && Elements(found) == Discovered(st, max, visited, queue[0], d)
    ensures var visited' := Marked(visited, Elements(found), d + 1);
            && Explored(st, root, max, visited', Elements(queue[1..] + found), done + {queue[0]}, d)
            && InOrder(visited', queue[1..] + found)
  {
    HeadIsShallowest(visited, queue);
    forall i | 0 <= i < |queue| ensures visited[queue[i]] <= d + 1 {
      assert queue[i] in Elements(queue);
    }
    forall i | 0 <= i < |found| ensures found[i] !in visited {
      assert found[i] in Elements(found);
    }
    Expand(st, root, max, visited, Elements(queue), done, queue[0], d);
    QueueNext(visited, queue, found, d);
  }

  lemma MarkedNothing(visited: map<string, nat>, depth: nat)
    ensures Elements([]) == {} && Marked(visited, {}, depth) == visited
  {
  }

  lemma SkippedCore(st: Store, root: string, max: nat, visited: map<string, nat>, queue: seq<string>,
                    queue': seq<string>,
                    done: set<string>, done': set<string>, d: nat)
    requires Explored(st, root, max, visited, Elements(queue), done, d) && InOrder(visited, queue) && queue != []
    requires visited[queue[0]] == d && d >= max
    requires queue' == queue[1..] && done' == done + {queue[0]}
    ensures Explored(st, root, max, visited, Elements(queue'), done', d) && InOrder(visited, queue')
  {
    Turned(st, root, max, visited, queue, done, [], d);
    MarkedNothing(visited, d + 1);
    assert queue[1..] + [] == queue';
  }

  lemma AdvancedCore(st: Store, root: string, max: nat, visited: map<string, nat>, visited': map<string, nat>,
                     queue: seq<string>, queue': seq<string>, done: set<string>, done': set<string>,
                     found: seq<string>, next: nat, d: nat)
    requires Explored(st, root, max, visited, Elements(queue), done, d) && InOrder(visited, queue) && queue != []
    requires visited[queue[0]] == d < max && next == d + 1
    requires Distinct(found) && Elements(found) == Successors(st, queue[0]) - visited.Keys
    requires visited' == Marked(visited, Elements(found), next) && queue' == queue[1..] + found &&
             done' == done + {queue[0]}
    ensures Explored(st, root, max, visited', Elements(queue'), done', d) && InOrder(visited', queue')
    ensures visited'.Keys == visited.Keys + Elements(found)
  {
    Turned(st, root, max, visited, queue, done, found, d);
  }

  lemma Skipped(st: Store, root: string, max: nat, t: Turn, queue': seq<string>, done': set<string>, d: nat)
    requires Ready(st, root, max, t, d) && d >= max
    requires queue' == t.queue[1..] && done' == t.done + {t.queue[0]}
    ensures Searching(st, root, max, t.visited, queue', done', d, t.order, t.entities, t.frontier)
  {
    SkippedCore(st, root, max, t.visited, t.queue, queue', t.done, done', d);
  }

  lemma Advanced(st: Store, root: string, max: nat, t: Turn, visited': map<string, nat>, queue': seq<string>,
                 done': set<string>,
                 found: seq<string>, loaded: seq<Entity>, frontier': map<string, Entity>, next: nat, d: nat)
    requires Ready(st, root, max, t, d) && d < max && next == d + 1
    requires Distinct(found) && Elements(found) == Successors(st, t.queue[0]) - t.visited.Keys
    requires visited' == Marked(t.visited, Elements(found), next) && queue' == t.queue[1..] + found &&
             done' == t.done + {t.queue[0]}
    requires AllStored(st, found) && loaded == Loaded(st, found)
    requires TableOf(st, frontier', t.frontier.Keys + Elements(found))
    ensures Searching(st, root, max, visited', queue', done', d, t.order + found, t.entities + loaded, frontier')
  {
    AdvancedCore(st, root, max, t.visited, visited', t.queue, queue', t.done, done', found, next, d);
    CollectedMore(st, t.order, t.entities, t.visited.Keys, found);
  }

  // ----- reading what was written

  /** The entity a logical operation is about: the one it stores, deletes or hangs an edge on. */
  function Target(op: Op): string {
    if op.Upsert? || op.Delete? then op.id else op.from
  }

  predicate FactOf(a: Atom, id: string) {
    a == CoreOf(id) || a == MetaOf(id) || (a.EdgeMember? && a.from == id)
  }

  lemma {:induction false} OthersLeaveFacts(ops: seq<Op>, id: string, a: Atom, cell: Cell)
    requires FactOf(a, id) && forall op | op in ops :: Target(op) != id
    ensures ActOps(ops, a, cell) == cell
  {
    if ops != [] {
      OthersLeaveFacts(ops[..|ops| - 1], id, a, cell);
      assert ops[|ops| - 1] in ops;
    }
  }

  lemma FactAfterWrite(st: Store, op: Op, later: seq<Op>, id: string, a: Atom)
    requires FactOf(a, id) && forall other | other in later :: Target(other) != id
    ensures Look(ApplyOps([op] + later, st), a) == ActOp(op, a, Look(st, a))
  {
    LookOps([op] + later, st, a);
    ActOpsConcat([op], later, a, Look(st, a));
    assert [op][..0] == [];
    OthersLeaveFacts(later, id, a, ActOp(op, a, Look(st, a)));
  }

  function MetaAt(st: Store, id: string): map<string, string> {
    if id in st.meta then st.meta[id] else map[]
  }

  lemma SameOutgoing(s: Store, t: Store, id: string)
    requires forall e :: Look(s, EdgeMember(id, e)) == Look(t, EdgeMember(id, e))
    ensures Outgoing(s, id) == Outgoing(t, id)
  {
    forall e ensures e in Outgoing(s, id) <==> e in Outgoing(t, id) {
      assert Look(s, EdgeMember(id, e)) == Look(t, EdgeMember(id, e));
      assert (id, e) in s.edges ==> (id, e).1 in Outgoing(s, id);
      assert (id, e) in t.edges ==> (id, e).1 in Outgoing(t, id);
    }
  }

  /** An entity written by one writer is read back as it was written, whatever is written about
      other entities meanwhile: its time parses to the time given, its metadata is added to what
      it had, its edges are those it had. */
  lemma ReadYourWrite(st: Store, id: string, kind: string, name: string, ms: int, md: map<string, string>,
                      later: seq<Op>)
    requires Decimal.IsInt64(ms) && forall op | op in later :: Target(op) != id
    ensures var after := ApplyOps([Upsert(id, kind, name, ms, md)] + later, st);
            && id in after.core
            && Assemble(after, id) == Entity(id, kind, name, Some(ms), Outgoing(st, id), MetaAt(st, id) + md)
            && forall e :: e in Assemble(after, id).edges <==> (id, e) in st.edges
  {
    var op := Upsert(id, kind, name, ms, md);
    var after := ApplyOps([op] + later, st);
    CoreAfterWrite(st, op, later, after);
    forall e ensures Look(after, EdgeMember(id, e)) == Look(st, EdgeMember(id, e)) {
      FactAfterWrite(st, op, later, id, EdgeMember(id, e));
    }
    SameOutgoing(after, st, id);
    Decimal.ParsePrint(ms);
    EdgesOf(st, id);
  }

  lemma EdgesOf(st: Store, id: string)
    ensures forall e :: e in Outgoing(st, id) <==> (id, e) in st.edges
  {
    forall e | (id, e) in st.edges ensures e in Outgoing(st, id) {
      assert (id, e).1 == e;
    }
  }

  /** The time of an entity is left out if and only if its text is empty or not an optional minus
      sign and digits. */
  lemma TimeMissingIff(st: Store, id: string)
    requires id in st.core
    ensures var text := st.core[id].lastSeen;
            Assemble(st, id).lastSeen == None <==>
            text == "" || exists i :: 0 <= i < |text| && text[i] !in "0123456789" && !(i == 0 && text[0] == '-')
  {
    var text := st.core[id].lastSeen;
    forall c ensures Decimal.IsDigit(c) <==> c in "0123456789" {
      if Decimal.IsDigit(c) {
        assert "0123456789"[c as int - '0' as int] == c;
      }
    }
    if text != "" {
      var neg := text[0] == '-';
      var digits := if neg then text[1..] else text;
      assert forall i | 0 <= i < |digits| :: digits[i] == text[if neg then i + 1 else i];
      if Decimal.AllDigits(digits) {
        forall i | 0 <= i < |text| ensures text[i] in "0123456789" || (i == 0 && text[0] == '-') {
          assert !neg || i > 0 ==> text[i] == digits[if neg then i - 1 else i];
        }
      } else {
        var k :| 0 <= k < |digits| && !Decimal.IsDigit(digits[k]);
        assert text[if neg then k + 1 else k] !in "0123456789";
      }
    }
  }

  lemma CoreAfterWrite(st: Store, op: Op, later: seq<Op>, after: Store)
    requires op.Upsert? && after == ApplyOps([op] + later, st) &&
             forall other | other in later :: Target(other) != op.id
    ensures op.id in after.core && after.core[op.id] == Core(op.id, op.kind, op.name, Decimal.Print(op.ms))
    ensures MetaAt(after, op.id) == MetaAt(st, op.id) + op.md
  {
    FactAfterWrite(st, op, later, op.id, CoreOf(op.id));
    FactAfterWrite(st, op, later, op.id, MetaOf(op.id));
    assert op.md == map[] ==> MetaAt(st, op.id) + op.md == MetaAt(st, op.id);
  }

  /** A deleted entity is not found, however much is written about others meanwhile; written
      again, it starts without edges and with the new metadata only. */
  lemma ReadAfterDelete(st: Store, id: string, kind: string, later: seq<Op>, again: Op)
    requires (forall op | op in later :: Target(op) != id) && again.Upsert? && again.id == id &&
             Decimal.IsInt64(again.ms)
    ensures var after := ApplyOps([Delete(id, kind)] + later, st);
            && id !in after.core
            && id in ApplyOps([again], after).core
            && Assemble(ApplyOps([again], after), id) ==
               Entity(id, again.kind, again.name, Some(again.ms), {}, again.md)
  {
    var op := Delete(id, kind);
    var after := ApplyOps([op] + later, st);
    FactAfterWrite(st, op, later, id, CoreOf(id));
    FactAfterWrite(st, op, later, id, MetaOf(id));
    forall e ensures Look(after, EdgeMember(id, e)) == Absent {
      FactAfterWrite(st, op, later, id, EdgeMember(id, e));
    }
    forall e ensures e !in Outgoing(after, id) {
      assert Look(after, EdgeMember(id, e)) == Absent;
    }
    assert [again] + [] == [again];
    ReadYourWrite(after, id, again.kind, again.name, again.ms, again.md, []);
    assert map[] + again.md == again.md;
  }
}
