/** The body of WriteDeltaToRedis: four loops over maps in arbitrary order, each diffing one
    snapshot against the other, and a final flush. */
module WriteDelta {
  import opened Graph
  import opened GraphStore
  import opened RedisServer
  import opened BatchSet
  import opened DeltaFlush

  datatype FlushStats = FlushStats(
    addedEntities: nat, removedEntities: nat, addedEdges: nat, removedEdges: nat, commands: nat)

  const DEFAULT_CHUNK := 1000

  function ChunkOf(chunkSize: int): (chunk: nat)
    ensures chunk == if chunkSize <= 0 then 1000 else chunkSize
  {
    if chunkSize <= 0 then DEFAULT_CHUNK else chunkSize
  }

  /** Every command issued so far belongs to the delta. */
  ghost predicate OnlyDelta(cs: seq<Command>, s: Snap, prev: Snap, now: int) {
    forall c | c in cs :: FromDelta(s, prev, now, c)
  }

  lemma OnlyDeltaOne(cs: seq<Command>, s: Snap, prev: Snap, now: int, op: Op)
    requires OnlyDelta(cs, s, prev, now) && DeltaOp(s, prev, now, op)
    ensures OnlyDelta(cs + Commands(op), s, prev, now)
  {
    forall c | c in Commands(op) ensures FromDelta(s, prev, now, c) {
    }
  }

  lemma AddCommands(s: Snap, now: int, id: string, cs: seq<Command>)
    requires id in s.entities
    requires cs == [HSetCore(id, s.entities[id].kind, s.entities[id].name, now), SAddKind(s.entities[id].kind, id),
                    SAddId(id)]
    ensures Commands(AddOp(s, now, id)) == if MetaOfId(s, id) == map[] then cs else cs + [HSetMeta(id, s.metas[id])]
  {
  }

  /** The members of one map that the other lacks. */
  function Missing<K, V, W>(m: map<K, V>, from: map<K, W>): set<K> {
    m.Keys - from.Keys
  }

  /** `xs` lists the keys in `m` but not in `from` that are already handled, each once. */
  ghost predicate Lists<K(!new)>(xs: seq<K>, m: set<K>, from: set<K>, todo: set<K>) {
    && (forall i, j | 0 <= i < j < |xs| :: xs[i] != xs[j])
    && (forall x :: x in xs <==> x in m && x !in from && x !in todo)
  }

  lemma ListsOne<K(!new)>(xs: seq<K>, m: set<K>, from: set<K>, todo: set<K>, k: K)
    requires Lists(xs, m, from, todo) && k in todo && k in m
    ensures k !in from ==> Lists(xs + [k], m, from, todo - {k})
    ensures k in from ==> Lists(xs, m, from, todo - {k})
  {
    assert k !in xs;
    assert forall x :: x in xs + [k] <==> x in xs || x == k;
  }

  lemma ListsSize<K(!new)>(xs: seq<K>, m: set<K>, from: set<K>)
    requires Lists(xs, m, from, {})
    ensures |xs| == |m - from|
  {
    DistinctSize(xs);
    assert (set x | x in xs) == m - from;
  }

  lemma {:induction false} DistinctSize<K>(xs: seq<K>)
    requires forall i, j | 0 <= i < j < |xs| :: xs[i] != xs[j]
    ensures |xs| == |set x | x in xs|
  {
    if xs != [] {
      var init, last := xs[..|xs| - 1], xs[|xs| - 1];
      DistinctSize(init);
      assert (set x | x in xs) == (set x | x in init) + {last} by {
        assert xs == init + [last];
      }
    }
  }

  method AddEntity(pipe: Pipe, s: Snap, prev: Snap, now: int, id: string) returns (ok: bool)
    requires pipe.Valid() && OnlyDelta(pipe.issued, s, prev, now) && AddedId(s, prev, id)
    modifies pipe, pipe.redis
    ensures pipe.issued == old(pipe.issued) + Commands(AddOp(s, now, id)) && OnlyDelta(pipe.issued, s, prev, now)
    ensures ok ==> pipe.Valid()
    ensures s.metas == map[] ==> pipe.commands == old(pipe.commands) + 3
    ensures !ok ==> SomeOf(pipe.issued, pipe.start, pipe.redis.log, pipe.chunk)
  {
    var e := s.entities[id];
    var cs, n := [HSetCore(id, e.kind, e.name, now), SAddKind(e.kind, id), SAddId(id)], 3;
    AddCommands(s, now, id, cs);
    if id in s.metas && |s.metas[id]| > 0 {
      cs, n := cs + [HSetMeta(id, s.metas[id])], n + 1;
    }
    OnlyDeltaOne(pipe.issued, s, prev, now, AddOp(s, now, id));
    ok := pipe.Add(cs, n, AddOp(s, now, id));
  }

  method AddedEntities(pipe: Pipe, s: Snap, prev: Snap, now: int) returns (count: nat, ok: bool, ghost cs: seq<Command>)
    requires pipe.Valid() && OnlyDelta(pipe.issued, s, prev, now)
    modifies pipe, pipe.redis
    ensures pipe.issued == old(pipe.issued) + cs && OnlyDelta(pipe.issued, s, prev, now)
    ensures ok ==> pipe.Valid() && Adds(s, prev, now, {}, cs) && count == |Missing(s.entities, prev.entities)|
    ensures s.metas == map[] ==> pipe.commands == old(pipe.commands) + 3 * count
    ensures !ok ==> SomeOf(pipe.issued, pipe.start, pipe.redis.log, pipe.chunk)
  {
    count, ok, cs := 0, true, [];
    ghost var xs: seq<string> := [];
    var todo := s.entities.Keys;
    while todo != {}
      invariant todo <= s.entities.Keys && Lists(xs, s.entities.Keys, prev.entities.Keys, todo) && count == |xs|
      invariant pipe.Valid() && OnlyDelta(pipe.issued, s, prev, now)
      invariant pipe.issued == old(pipe.issued) + cs && Adds(s, prev, now, todo, cs)
      invariant s.metas == map[] ==> pipe.commands == old(pipe.commands) + 3 * count
      decreases todo
    {
      var id :| id in todo;
      ListsOne(xs, s.entities.Keys, prev.entities.Keys, todo, id);
      AddsOne(s, prev, now, todo, cs, id);
      todo := todo - {id};
      if id in prev.entities {
        continue;
      }
      count, xs := count + 1, xs + [id];
      ok := AddEntity(pipe, s, prev, now, id);
      Assoc(old(pipe.issued), cs, Commands(AddOp(s, now, id)));
      cs := cs + Commands(AddOp(s, now, id));
      if !ok {
        return;
      }
    }
    ListsSize(xs, s.entities.Keys, prev.entities.Keys);
  }

  method RemoveEntity(pipe: Pipe, s: Snap, prev: Snap, now: int, id: string) returns (ok: bool)
    requires pipe.Valid() && OnlyDelta(pipe.issued, s, prev, now) && RemovedId(s, prev, id)
    modifies pipe, pipe.redis
    ensures pipe.issued == old(pipe.issued) + Commands(RemoveOp(prev, id)) && OnlyDelta(pipe.issued, s, prev, now)
    ensures ok ==> pipe.Valid()
    ensures pipe.commands == old(pipe.commands) + 3
    ensures !ok ==> SomeOf(pipe.issued, pipe.start, pipe.redis.log, pipe.chunk)
  {
    OnlyDeltaOne(pipe.issued, s, prev, now, RemoveOp(prev, id));
    ok := pipe.Add([DelEntity(id), SRemId(id), SRemKind(prev.entities[id].kind, id)], 3, RemoveOp(prev, id));
  }

  method RemovedEntities(pipe: Pipe, s: Snap, prev: Snap, now: int) returns (count: nat, ok: bool,
                         ghost cs: seq<Command>)
    requires pipe.Valid() && OnlyDelta(pipe.issued, s, prev, now)
    modifies pipe, pipe.redis
    ensures pipe.issued == old(pipe.issued) + cs && OnlyDelta(pipe.issued, s, prev, now)
    ensures ok ==> pipe.Valid() && Removes(s, prev, {}, cs) && count == |Missing(prev.entities, s.entities)|
    ensures pipe.commands == old(pipe.commands) + 3 * count
    ensures !ok ==> SomeOf(pipe.issued, pipe.start, pipe.redis.log, pipe.chunk)
  {
    count, ok, cs := 0, true, [];
    ghost var xs: seq<string> := [];
    var todo := prev.entities.Keys;
    while todo != {}
      invariant todo <= prev.entities.Keys && Lists(xs, prev.entities.Keys, s.entities.Keys, todo) && count == |xs|
      invariant pipe.Valid() && OnlyDelta(pipe.issued, s, prev, now)
      invariant pipe.issued == old(pipe.issued) + cs && Removes(s, prev, todo, cs)
      invariant pipe.commands == old(pipe.commands) + 3 * count
      decreases todo
    {
      var id :| id in todo;
      ListsOne(xs, prev.entities.Keys, s.entities.Keys, todo, id);
      RemovesOne(s, prev, todo, cs, id);
      todo := todo - {id};
      if id in s.entities {
        continue;
      }
      count, xs := count + 1, xs + [id];
      ok := RemoveEntity(pipe, s, prev, now, id);
      Assoc(old(pipe.issued), cs, Commands(RemoveOp(prev, id)));
      cs := cs + Commands(RemoveOp(prev, id));
      if !ok {
        return;
      }
    }
    ListsSize(xs, prev.entities.Keys, s.entities.Keys);
  }

  method AddEdge(pipe: Pipe, s: Snap, prev: Snap, now: int, k: EdgeKey) returns (ok: bool)
    requires pipe.Valid() && OnlyDelta(pipe.issued, s, prev, now) && AddedEdge(s, prev, k)
    modifies pipe, pipe.redis
    ensures pipe.issued == old(pipe.issued) + Commands(Link(k.from, EdgeOf(k))) && OnlyDelta(pipe.issued, s, prev, now)
    ensures ok ==> pipe.Valid()
    ensures pipe.commands == old(pipe.commands) + 1
    ensures !ok ==> SomeOf(pipe.issued, pipe.start, pipe.redis.log, pipe.chunk)
  {
    OnlyDeltaOne(pipe.issued, s, prev, now, Link(k.from, EdgeOf(k)));
    ok := pipe.Add([SAddEdge(k.from, Edge(k.kind, k.to, k.action))], 1, Link(k.from, EdgeOf(k)));
  }

  method AddedEdges(pipe: Pipe, s: Snap, prev: Snap, now: int) returns (count: nat, ok: bool, ghost cs: seq<Command>)
    requires pipe.Valid() && OnlyDelta(pipe.issued, s, prev, now)
    modifies pipe, pipe.redis
    ensures pipe.issued == old(pipe.issued) + cs && OnlyDelta(pipe.issued, s, prev, now)
    ensures ok ==> pipe.Valid() && Links(s, prev, {}, cs) && count == |Missing(s.edges, prev.edges)|
    ensures pipe.commands == old(pipe.commands) + count
    ensures !ok ==> SomeOf(pipe.issued, pipe.start, pipe.redis.log, pipe.chunk)
  {
    count, ok, cs := 0, true, [];
    ghost var xs: seq<EdgeKey> := [];
    var todo := s.edges.Keys;
    while todo != {}
      invariant todo <= s.edges.Keys && Lists(xs, s.edges.Keys, prev.edges.Keys, todo) && count == |xs|
      invariant pipe.Valid() && OnlyDelta(pipe.issued, s, prev, now)
      invariant pipe.issued == old(pipe.issued) + cs && Links(s, prev, todo, cs)
      invariant pipe.commands == old(pipe.commands) + count
      decreases todo
    {
      var k :| k in todo;
      ListsOne(xs, s.edges.Keys, prev.edges.Keys, todo, k);
      LinksOne(s, prev, todo, cs, k);
      todo := todo - {k};
      if k in prev.edges {
        continue;
      }
      count, xs := count + 1, xs + [k];
      ok := AddEdge(pipe, s, prev, now, k);
      Assoc(old(pipe.issued), cs, Commands(Link(k.from, EdgeOf(k))));
      cs := cs + Commands(Link(k.from, EdgeOf(k)));
      if !ok {
        return;
      }
    }
    ListsSize(xs, s.edges.Keys, prev.edges.Keys);
  }

  method RemoveEdge(pipe: Pipe, s: Snap, prev: Snap, now: int, k: EdgeKey) returns (ok: bool)
    requires pipe.Valid() && OnlyDelta(pipe.issued, s, prev, now) && RemovedEdge(s, prev, k)
    modifies pipe, pipe.redis
    ensures pipe.issued == old(pipe.issued) + Commands(Unlink(k.from, EdgeOf(k))) &&
            OnlyDelta(pipe.issued, s, prev, now)
    ensures ok ==> pipe.Valid()
    ensures pipe.commands == old(pipe.commands) + 1
    ensures !ok ==> SomeOf(pipe.issued, pipe.start, pipe.redis.log, pipe.chunk)
  {
    OnlyDeltaOne(pipe.issued, s, prev, now, Unlink(k.from, EdgeOf(k)));
    ok := pipe.Add([SRemEdge(k.from, Edge(k.kind, k.to, k.action))], 1, Unlink(k.from, EdgeOf(k)));
  }

  method RemovedEdges(pipe: Pipe, s: Snap, prev: Snap, now: int) returns (count: nat, ok: bool, ghost cs: seq<Command>)
    requires pipe.Valid() && OnlyDelta(pipe.issued, s, prev, now)
    modifies pipe, pipe.redis
    ensures pipe.issued == old(pipe.issued) + cs && OnlyDelta(pipe.issued, s, prev, now)
    ensures ok ==> pipe.Valid() && Unlinks(s, prev, {}, cs) && count == |Missing(prev.edges, s.edges)|
    ensures pipe.commands == old(pipe.commands) + count
    ensures !ok ==> SomeOf(pipe.issued, pipe.start, pipe.redis.log, pipe.chunk)
  {
    count, ok, cs := 0, true, [];
    ghost var xs: seq<EdgeKey> := [];
    var todo := prev.edges.Keys;
    while todo != {}
      invariant todo <= prev.edges.Keys && Lists(xs, prev.edges.Keys, s.edges.Keys, todo) && count == |xs|
      invariant pipe.Valid() && OnlyDelta(pipe.issued, s, prev, now)
      invariant pipe.issued == old(pipe.issued) + cs && Unlinks(s, prev, todo, cs)
      invariant pipe.commands == old(pipe.commands) + count
      decreases todo
    {
      var k :| k in todo;
      ListsOne(xs, prev.edges.Keys, s.edges.Keys, todo, k);
      UnlinksOne(s, prev, todo, cs, k);
      todo := todo - {k};
      if k in s.edges {
        continue;
      }
      count, xs := count + 1, xs + [k];
      ok := RemoveEdge(pipe, s, prev, now, k);
      Assoc(old(pipe.issued), cs, Commands(Unlink(k.from, EdgeOf(k))));
      cs := cs + Commands(Unlink(k.from, EdgeOf(k)));
      if !ok {
        return;
      }
    }
    ListsSize(xs, prev.edges.Keys, s.edges.Keys);
  }

  lemma SomeIsPartial(s: Snap, p: Snap, now: int, issued: seq<Command>, start: seq<Command>, log: seq<Command>,
                      chunk: nat, initial: Store)
    requires SomeOf(issued, start, log, chunk) && OnlyDelta(issued, s, p, now)
    ensures PartialDelta(s, p, now, ApplyAll(start, initial), ApplyAll(log, initial))
    ensures Interrupted(s, p, now, start, log, chunk)
  {
    var n, kept :| CutShort(issued, start, log, chunk, n, kept);
    SubsequenceElements(kept, issued[n..]);
    Assoc(start, issued[..n], kept);
    ApplyConcat(start, issued[..n] + kept, initial);
    forall c | c in issued[..n] + kept ensures FromDelta(s, p, now, c) {
      assert c in issued[..n] || c in issued[n..];
      assert c in issued;
    }
  }

  /** Of some commands of the delta, all batches but the last were executed, whole and in order,
      and of the last a part. */
  ghost predicate Interrupted(s: Snap, p: Snap, now: int, start: seq<Command>, log: seq<Command>, chunk: nat) {
    exists issued :: OnlyDelta(issued, s, p, now) && SomeOf(issued, start, log, chunk)
  }

  lemma DeltaSizes<K, V, W>(m: map<K, V>, p: map<K, W>)
    ensures |m| + |Missing(p, m)| == |p| + |Missing(m, p)|
  {
    var both := m.Keys * p.Keys;
    assert m.Keys == both + Missing(m, p) && p.Keys == both + Missing(p, m);
    assert |m.Keys| == |both| + |Missing(m, p)| && |p.Keys| == |both| + |Missing(p, m)|;
  }

  /** The statistics balance: what is stored now is what was stored before plus and minus
      what the flush reports. */
  ghost predicate Balances(st: FlushStats, s: Snap, p: Snap) {
    && st.addedEntities == |Missing(s.entities, p.entities)|
    && st.addedEdges == |Missing(s.edges, p.edges)|
    && |s.entities| == |p.entities| + st.addedEntities - st.removedEntities
    && |s.edges| == |p.edges| + st.addedEdges - st.removedEdges
    && (s.metas == map[] ==>
          st.commands == 3 * (st.addedEntities + st.removedEntities) + st.addedEdges + st.removedEdges)
  }

  /** The statistics as counted on the way. */
  ghost predicate Counted(st: FlushStats, s: Snap, p: Snap) {
    && st.addedEntities == |Missing(s.entities, p.entities)| && st.removedEntities == |Missing(p.entities, s.entities)|
    && st.addedEdges == |Missing(s.edges, p.edges)| && st.removedEdges == |Missing(p.edges, s.edges)|
    && (s.metas == map[] ==>
          st.commands == 3 * (st.addedEntities + st.removedEntities) + st.addedEdges + st.removedEdges)
  }

  /** Whatever the iteration orders and the chunk size, a flush without an error leaves the
      store as the full delta says and its statistics balance; with an error the earlier
      batches arrived whole and in order, and an arbitrary part of the last one. */
  method WriteDeltaToRedis(s: BatchWriteSet, redis: Redis, chunkSize: int, now: int, prev: BatchWriteSet?)
    returns (st: FlushStats, ok: bool)
    modifies redis
    ensures ok ==> FullDelta(s.Value(), PrevValue(prev), now, old(redis.Contents()), redis.Contents())
    ensures !ok ==> PartialDelta(s.Value(), PrevValue(prev), now, old(redis.Contents()), redis.Contents())
    ensures !ok ==>
              Interrupted(s.Value(), PrevValue(prev), now, old(redis.log), redis.log, ChunkOf(chunkSize))
    ensures ok ==> Balances(st, s.Value(), PrevValue(prev))
  {
    var cur, p := s.Value(), PrevValue(prev);
    var pipe := new Pipe(redis, ChunkOf(chunkSize));
    ghost var adds, removes, links, unlinks;
    st, ok, adds, removes, links, unlinks := Phases(pipe, cur, p, now);
    if ok {
      ok := pipe.Flush();
    }
    if ok {
      Complete(cur, p, now, adds, removes, links, unlinks, pipe.start, redis.initial);
    } else {
      SomeIsPartial(cur, p, now, pipe.issued, pipe.start, redis.log, pipe.chunk, redis.initial);
    }
  }

  /** The four loops, each left early when a flush fails. */
  method Phases(pipe: Pipe, cur: Snap, p: Snap, now: int)
    returns (st: FlushStats, ok: bool, ghost adds: seq<Command>, ghost removes: seq<Command>,
             ghost links: seq<Command>, ghost unlinks: seq<Command>)
    requires pipe.Valid() && pipe.issued == [] && pipe.commands == 0
    modifies pipe, pipe.redis
    ensures OnlyDelta(pipe.issued, cur, p, now)
    ensures ok ==>
              && pipe.Valid() && pipe.issued == [] + adds + removes + links + unlinks
              && Adds(cur, p, now, {}, adds) && Removes(cur, p, {}, removes)
              && Links(cur, p, {}, links) && Unlinks(cur, p, {}, unlinks)
              && Counted(st, cur, p)
    ensures !ok ==> SomeOf(pipe.issued, pipe.start, pipe.redis.log, pipe.chunk)
  {
    st := FlushStats(0, 0, 0, 0, 0);
    var n;
    adds, removes, links, unlinks := [], [], [], [];
    n, ok, adds := AddedEntities(pipe, cur, p, now);
    st := st.(addedEntities := n, commands := pipe.commands);
    if ok {
      n, ok, removes := RemovedEntities(pipe, cur, p, now);
      st := st.(removedEntities := n, commands := pipe.commands);
    }
    if ok {
      n, ok, links := AddedEdges(pipe, cur, p, now);
      st := st.(addedEdges := n, commands := pipe.commands);
    }
    if ok {
      n, ok, unlinks := RemovedEdges(pipe, cur, p, now);
      st := st.(removedEdges := n, commands := pipe.commands);
    }
  }

  lemma Complete(s: Snap, p: Snap, now: int, adds: seq<Command>, removes: seq<Command>, links: seq<Command>,
                 unlinks: seq<Command>, start: seq<Command>, initial: Store)
    requires Adds(s, p, now, {}, adds) && Removes(s, p, {}, removes)
    requires Links(s, p, {}, links) && Unlinks(s, p, {}, unlinks)
    ensures FullDelta(s, p, now, ApplyAll(start, initial),
                      ApplyAll(start + ([] + adds + removes + links + unlinks), initial))
    ensures |s.entities| == |p.entities| + |Missing(s.entities, p.entities)| - |Missing(p.entities, s.entities)|
    ensures |s.edges| == |p.edges| + |Missing(s.edges, p.edges)| - |Missing(p.edges, s.edges)|
  {
    assert [] + adds == adds;
    ApplyConcat(start, adds + removes + links + unlinks, initial);
    PhasesMakeDelta(s, p, now, ApplyAll(start, initial), adds, removes, links, unlinks);
    DeltaSizes(s.entities, p.entities);
    DeltaSizes(s.edges, p.edges);
  }

  function PrevValue(prev: BatchWriteSet?): Snap
    reads prev
  {
    if prev == null then NOTHING else prev.Value()
  }
}
