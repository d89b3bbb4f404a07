/** The in-memory accumulator of the span-metric path: entities and edges keyed by identity,
    each with the time it was last merged. */
module BatchSet {
  import opened Graph

  /** The last-seen time of entries that no Merge has stamped: Go's zero time in Unix ms. */
  const ZERO_TIME := -62135596800000

  datatype EntityVal = EntityVal(kind: string, name: string, lastSeen: int)
  datatype EdgeKey = EdgeKey(from: string, kind: EdgeKind, to: string, action: string)

  /** The contents of a BatchWriteSet. */
  datatype Snap = Snap(
    entities: map<string, EntityVal>,
    edges: map<EdgeKey, int>,
    metas: map<string, map<string, string>>)

  const NOTHING := Snap(map[], map[], map[])

  // ----- specification functions

  function Upserted(s: Snap, id: string, kind: string, name: string): Snap {
    s.(entities := s.entities[id := EntityVal(kind, name, ZERO_TIME)])
  }

  function EdgeAdded(s: Snap, k: EdgeKey): Snap {
    s.(edges := s.edges[k := ZERO_TIME])
  }

  function Key(from: string, e: Edge): EdgeKey {
    EdgeKey(from, e.kind, e.to, e.action)
  }

  function KeysOf(from: string, list: seq<Edge>): set<EdgeKey> {
    set e | e in list :: Key(from, e)
  }

  /** With the listed edges from one entity, unstamped, whether they were there or not. */
  function EdgesAdded(s: Snap, from: string, list: seq<Edge>): Snap {
    s.(edges := s.edges + map k | k in KeysOf(from, list) :: ZERO_TIME)
  }

  lemma NoEdgesAdded(s: Snap, from: string)
    ensures EdgesAdded(s, from, []) == s
  {
    assert KeysOf(from, []) == {};
  }

  lemma OneMoreKey(from: string, list: seq<Edge>, e: Edge)
    ensures KeysOf(from, list + [e]) == KeysOf(from, list) + {Key(from, e)}
  {
    forall k | k in KeysOf(from, list) + {Key(from, e)} ensures k in KeysOf(from, list + [e]) {
      var x :| (x in list || x == e) && Key(from, x) == k;
      assert x in list + [e];
    }
  }

  lemma OneMoreEdge(s: Snap, from: string, list: seq<Edge>, e: Edge)
    ensures EdgesAdded(s, from, list + [e]) == EdgeAdded(EdgesAdded(s, from, list), Key(from, e))
  {
    OneMoreKey(from, list, e);
  }

  lemma OneEdgeAdded(s: Snap, from: string, e: Edge)
    ensures EdgesAdded(s, from, [e]) == EdgeAdded(s, Key(from, e))
  {
    NoEdgesAdded(s, from);
    OneMoreEdge(s, from, [], e);
    assert [] + [e] == [e];
  }

  function MetadataSet(s: Snap, id: string, md: map<string, string>): Snap {
    if id in s.metas || NonEmpty(md) == map[] then s
    else s.(metas := s.metas[id := NonEmpty(md)])
  }

  function Stamped(m: map<string, EntityVal>, now: int): map<string, EntityVal> {
    map id | id in m :: EntityVal(m[id].kind, m[id].name, now)
  }

  function StampedEdges(m: map<EdgeKey, int>, now: int): map<EdgeKey, int> {
    map k | k in m :: now
  }

  /** The metadata of `theirs` that SetMetadata accepts next to `ours`. */
  function NewMetas(ours: map<string, map<string, string>>, theirs: map<string, map<string, string>>)
    : map<string, map<string, string>>
  {
    map id | id in theirs && id !in ours && NonEmpty(theirs[id]) != map[] :: NonEmpty(theirs[id])
  }

  /** Union with `other`, whose entries are stamped `now`; metadata keeps its first value. */
  function Merged(s: Snap, other: Snap, now: int): Snap {
    Snap(s.entities + Stamped(other.entities, now),
         s.edges + StampedEdges(other.edges, now),
         s.metas + NewMetas(s.metas, other.metas))
  }

  function StaleIds(s: Snap, cutoff: int): set<string> {
    set id | id in s.entities && s.entities[id].lastSeen < cutoff
  }

  function StaleEdges(s: Snap, cutoff: int): set<EdgeKey> {
    set k | k in s.edges && s.edges[k] < cutoff
  }

  /** What is left after dropping everything last seen before `cutoff`, and the metadata of
      the entities dropped. */
  function Expired(s: Snap, cutoff: int): Snap {
    Snap(s.entities - StaleIds(s, cutoff), s.edges - StaleEdges(s, cutoff), s.metas - StaleIds(s, cutoff))
  }

  // ----- one iteration of a loop over a map in arbitrary order

  lemma OverlayStep<K, V>(m: map<K, V>, p: map<K, V>, todo: set<K>, k: K)
    requires k in todo && k in p
    ensures (m + (p - todo))[k := p[k]] == m + (p - (todo - {k}))
  {
  }

  lemma OverlayStart<K, V>(m: map<K, V>, p: map<K, V>, todo: set<K>)
    requires p.Keys <= todo
    ensures m + (p - todo) == m
  {
  }

  lemma OverlaySkip<K, V>(p: map<K, V>, todo: set<K>, k: K)
    requires k !in p
    ensures p - todo == p - (todo - {k})
  {
  }

  lemma CopyStep<K, V>(p: map<K, V>, todo: set<K>, k: K)
    requires k in todo && k in p
    ensures (p - todo)[k := p[k]] == p - (todo - {k})
  {
  }

  lemma RemoveStep<K, V>(m: map<K, V>, gone: set<K>, k: K)
    ensures (m - gone) - {k} == m - (gone + {k})
  {
  }

  lemma RemoveNothing<K, V>(m: map<K, V>)
    ensures m - {} == m
  {
  }

  lemma RemovedCount<K, V>(m: map<K, V>, gone: set<K>)
    requires gone <= m.Keys
    ensures |gone| + |m - gone| == |m|
  {
    assert (m - gone).Keys == m.Keys - gone;
  }

  class BatchWriteSet {
    var entities: map<string, EntityVal>
    var edges: map<EdgeKey, int>
    var metas: map<string, map<string, string>>

    constructor ()
      ensures Value() == NOTHING
    {
      entities, edges, metas := map[], map[], map[];
    }

    function Value(): Snap
      reads this
    {
      Snap(entities, edges, metas)
    }

    method Upsert(id: string, kind: string, name: string)
      modifies this
      ensures Value() == Upserted(old(Value()), id, kind, name)
    {
      entities := entities[id := EntityVal(kind, name, ZERO_TIME)];
    }

    /** The edges as given, in order; the same edge twice is one edge. */
    method AddEdges(from: string, list: seq<Edge>)
      modifies this
      ensures Value() == EdgesAdded(old(Value()), from, list)
    {
      NoEdgesAdded(Value(), from);
      for i := 0 to |list|
        invariant Value() == EdgesAdded(old(Value()), from, list[..i])
      {
        OneMoreEdge(old(Value()), from, list[..i], list[i]);
        assert list[..i + 1] == list[..i] + [list[i]];
        edges := edges[Key(from, list[i]) := ZERO_TIME];
      }
      assert list[..|list|] == list;
    }

    method SetMetadata(id: string, md: map<string, string>)
      modifies this
      ensures Value() == MetadataSet(old(Value()), id, md)
    {
      if |md| == 0 {
        assert NonEmpty(md) == map[];
        return;
      }
      if id in metas {
        return;
      }
      var m: map<string, string>, todo := map[], md.Keys;
      while todo != {}
        invariant todo <= md.Keys
        invariant m == map k | k in md && k !in todo && md[k] != "" :: md[k]
        decreases |todo|
      {
        var k :| k in todo;
        todo := todo - {k};
        if md[k] == "" {
          continue;
        }
        m := m[k := md[k]];
      }
      assert m == NonEmpty(md);
      if |m| > 0 {
        metas := metas[id := m];
      }
    }

    /** The iteration order over `other` is arbitrary. */
    method Merge(other: BatchWriteSet?, now: int)
      modifies this
      ensures Value() == if other == null then old(Value()) else Merged(old(Value()), old(other.Value()), now)
    {
      if other == null {
        return;
      }
      var from := other.Value();
      MergeEntities(from.entities, now);
      MergeEdges(from.edges, now);
      MergeMetas(from.metas);
    }

    method MergeEntities(from: map<string, EntityVal>, now: int)
      modifies this`entities
      ensures entities == old(entities) + Stamped(from, now)
    {
      ghost var was, stamped := entities, Stamped(from, now);
      var todo := from.Keys;
      OverlayStart(was, stamped, todo);
      while todo != {}
        invariant todo <= from.Keys && entities == was + (stamped - todo)
        decreases |todo|
      {
        var id :| id in todo;
        OverlayStep(was, stamped, todo, id);
        todo := todo - {id};
        entities := entities[id := EntityVal(from[id].kind, from[id].name, now)];
      }
      RemoveNothing(stamped);
    }

    method MergeEdges(from: map<EdgeKey, int>, now: int)
      modifies this`edges
      ensures edges == old(edges) + StampedEdges(from, now)
    {
      ghost var was, stamped := edges, StampedEdges(from, now);
      var todo := from.Keys;
      OverlayStart(was, stamped, todo);
      while todo != {}
        invariant todo <= from.Keys && edges == was + (stamped - todo)
        decreases |todo|
      {
        var k :| k in todo;
        OverlayStep(was, stamped, todo, k);
        todo := todo - {k};
        edges := edges[k := now];
      }
      RemoveNothing(stamped);
    }

    method MergeMetas(from: map<string, map<string, string>>)
      modifies this
      ensures Value() == old(Value()).(metas := old(metas) + NewMetas(old(metas), from))
    {
      ghost var was, added := Value(), NewMetas(metas, from);
      var todo := from.Keys;
      OverlayStart(was.metas, added, todo);
      while todo != {}
        invariant todo <= from.Keys
        invariant entities == was.entities && edges == was.edges && metas == was.metas + (added - todo)
        decreases |todo|
      {
        var id :| id in todo;
        if id in added {
          OverlayStep(was.metas, added, todo, id);
        } else {
          OverlaySkip(added, todo, id);
        }
        todo := todo - {id};
        SetMetadata(id, from[id]);
      }
      RemoveNothing(added);
    }

    method Expire(cutoff: int) returns (goneEntities: nat, goneEdges: nat)
      modifies this
      ensures Value() == Expired(old(Value()), cutoff)
      ensures goneEntities + |entities| == |old(entities)|
      ensures goneEdges + |edges| == |old(edges)|
    {
      ghost var was := Value();
      goneEntities := ExpireEntities(cutoff);
      RemovedCount(was.entities, StaleIds(was, cutoff));
      goneEdges := ExpireEdges(cutoff);
      RemovedCount(was.edges, StaleEdges(was, cutoff));
    }

    method ExpireEntities(cutoff: int) returns (n: nat)
      modifies this`entities, this`metas
      ensures entities == old(entities) - StaleIds(old(Value()), cutoff)
      ensures metas == old(metas) - StaleIds(old(Value()), cutoff)
      ensures n == |StaleIds(old(Value()), cutoff)|
    {
      ghost var was, stale := Value(), StaleIds(Value(), cutoff);
      var todo := entities.Keys;
      ghost var gone := {};
      RemoveNothing(was.entities);
      RemoveNothing(was.metas);
      n := 0;
      while todo != {}
        invariant todo <= was.entities.Keys && n == |gone|
        invariant forall x :: x in gone <==> x in stale && x !in todo
        invariant entities == was.entities - gone && metas == was.metas - gone
        decreases todo
      {
        var id :| id in todo;
        todo := todo - {id};
        if entities[id].lastSeen < cutoff {
          RemoveStep(was.entities, gone, id);
          RemoveStep(was.metas, gone, id);
          entities := entities - {id};
          metas := metas - {id};
          n := n + 1;
          gone := gone + {id};
        }
      }
      assert gone == stale;
    }

    method ExpireEdges(cutoff: int) returns (n: nat)
      modifies this`edges
      ensures edges == old(edges) - StaleEdges(old(Value()), cutoff)
      ensures n == |StaleEdges(old(Value()), cutoff)|
    {
      ghost var was, stale := edges, StaleEdges(Value(), cutoff);
      var todo := edges.Keys;
      ghost var gone := {};
      n := 0;
      while todo != {}
        invariant todo <= was.Keys && n == |gone|
        invariant forall x :: x in gone <==> x in stale && x !in todo
        invariant edges == was - gone
        decreases todo
      {
        var k :| k in todo;
        todo := todo - {k};
        if edges[k] < cutoff {
          RemoveStep(was, gone, k);
          edges := edges - {k};
          n := n + 1;
          gone := gone + {k};
        }
      }
      assert gone == stale;
    }

    /** A deep copy; map values copy by value here. */
    method Snapshot() returns (cp: BatchWriteSet)
      ensures fresh(cp) && cp.Value() == Value()
    {
      cp := new BatchWriteSet();
      cp.entities := Copy(entities);
      cp.edges := Copy(edges);
      cp.metas := Copy(metas);
    }
  }

  method Copy<K, V>(m: map<K, V>) returns (cp: map<K, V>)
    ensures cp == m
  {
    cp := map[];
    var todo := m.Keys;
    assert cp == m - todo;
    while todo != {}
      invariant todo <= m.Keys && cp == m - todo
      decreases |todo|
    {
      var k :| k in todo;
      CopyStep(m, todo, k);
      todo := todo - {k};
      cp := cp[k := m[k]];
    }
    RemoveNothing(m);
  }
}
