/** The invariant that makes deltas safe: in the sets built by the span-metric path, an
    entity and its edges are always refreshed together. */
module Coherence {
  import opened Graph
  import opened BatchSet

  /** The counterpart edge: ends swapped, reverse kind, same action. */
  function Mirror(k: EdgeKey): EdgeKey {
    EdgeKey(k.to, k.kind.Reverse(), k.from, k.action)
  }

  /** The end of a relationship edge that the span-metric path owns. */
  function RelationEnd(k: EdgeKey): string {
    if IsRelation(k.from) then k.from else k.to
  }

  predicate RelationshipEdge(k: EdgeKey) {
    && !k.kind.Structural()
    && ((IsEmitter(k.from) && IsRelation(k.to)) || (IsRelation(k.from) && IsEmitter(k.to)))
  }

  /** Only relationship entities, under their own kind, and only relationship edges. */
  ghost predicate Shaped(s: Snap) {
    && (forall id :: id !in s.metas)
    && (forall id | id in s.entities :: IsRelation(id) && s.entities[id].kind == KindOf(id))
    && (forall k | k in s.edges :: RelationshipEdge(k))
  }

  /** Every edge has its counterpart, with the same last-seen time. */
  ghost predicate Paired(s: Snap) {
    forall k {:trigger Mirror(k)} | k in s.edges :: Mirror(k) in s.edges && s.edges[Mirror(k)] == s.edges[k]
  }

  /** An edge's relationship end is present and was seen no earlier than the edge. */
  ghost predicate Anchored(s: Snap) {
    forall k {:trigger RelationEnd(k)} | k in s.edges ::
      RelationEnd(k) in s.entities && s.edges[k] <= s.entities[RelationEnd(k)].lastSeen
  }

  ghost predicate LatestEdge(s: Snap, id: string, k: EdgeKey) {
    k in s.edges && k.from == id && id in s.entities && s.edges[k] == s.entities[id].lastSeen
  }

  /** An entity was seen exactly when its latest outgoing edge was. */
  ghost predicate Supported(s: Snap) {
    forall id | id in s.entities :: exists k :: LatestEdge(s, id, k)
  }

  ghost predicate Coherent(s: Snap) {
    Shaped(s) && Paired(s) && Anchored(s) && Supported(s)
  }

  /** Nothing in the set is newer than `t`. */
  ghost predicate SeenBy(s: Snap, t: int) {
    && (forall id | id in s.entities :: s.entities[id].lastSeen <= t)
    && (forall k | k in s.edges :: s.edges[k] <= t)
  }

  lemma SeenLater(s: Snap, t: int, u: int)
    requires SeenBy(s, t) && t <= u
    ensures SeenBy(s, u)
  {
  }

  lemma MirrorInvolution(k: EdgeKey)
    ensures Mirror(Mirror(k)) == k
    ensures RelationshipEdge(k) ==> RelationEnd(Mirror(k)) == RelationEnd(k)
  {
    KindsApart(k.from);
    KindsApart(k.to);
  }

  lemma KindsApart(id: string)
    ensures !(IsRelation(id) && IsEmitter(id))
  {
  }

  lemma NothingCoherent()
    ensures Coherent(NOTHING)
  {
  }

  lemma MergeShaped(s: Snap, local: Snap, now: int)
    requires Shaped(s) && Shaped(local)
    ensures Shaped(Merged(s, local, now))
  {
  }

  lemma MergePaired(s: Snap, local: Snap, now: int)
    requires Paired(s) && Paired(local)
    ensures Paired(Merged(s, local, now))
  {
    var t := Merged(s, local, now);
    forall k | k in t.edges
      ensures Mirror(k) in t.edges && t.edges[Mirror(k)] == t.edges[k]
    {
      var m := Mirror(k);
      MirrorInvolution(k);
      assert k in local.edges ==> m in local.edges;
      assert Mirror(m) == k;
      assert m in local.edges ==> k in local.edges;
    }
  }

  lemma MergeAnchored(s: Snap, local: Snap, now: int)
    requires Anchored(s) && Anchored(local) && SeenBy(s, now)
    ensures Anchored(Merged(s, local, now))
  {
  }

  lemma MergeSupportedOne(s: Snap, local: Snap, now: int, id: string, k: EdgeKey)
    requires id in local.entities ==> LatestEdge(local, id, k)
    requires id !in local.entities ==> LatestEdge(s, id, k) && k !in local.edges
    ensures LatestEdge(Merged(s, local, now), id, k)
  {
  }

  lemma NotRefreshed(local: Snap, k: EdgeKey)
    requires Anchored(local) && IsRelation(k.from) && k.from !in local.entities
    ensures k !in local.edges
  {
    assert RelationEnd(k) == k.from;
  }

  lemma MergeSupportedAt(s: Snap, local: Snap, now: int, id: string)
    requires Supported(s) && Supported(local) && Anchored(local)
    requires id in local.entities || (id in s.entities && IsRelation(id))
    ensures exists k :: LatestEdge(Merged(s, local, now), id, k)
  {
    if id in local.entities {
      var k :| LatestEdge(local, id, k);
      MergeSupportedOne(s, local, now, id, k);
    } else {
      var k :| LatestEdge(s, id, k);
      NotRefreshed(local, k);
      MergeSupportedOne(s, local, now, id, k);
    }
  }

  lemma MergeSupported(s: Snap, local: Snap, now: int)
    requires Supported(s) && Supported(local) && Anchored(local) && Shaped(s)
    ensures Supported(Merged(s, local, now))
  {
    forall id | id in Merged(s, local, now).entities
      ensures exists k :: LatestEdge(Merged(s, local, now), id, k)
    {
      MergeSupportedAt(s, local, now, id);
    }
  }

  /** Merging a request's set keeps the invariant, provided the clock does not run backwards. */
  lemma MergeKeepsCoherence(s: Snap, local: Snap, now: int)
    requires Coherent(s) && Coherent(local) && SeenBy(s, now)
    ensures Coherent(Merged(s, local, now)) && SeenBy(Merged(s, local, now), now)
  {
    MergeShaped(s, local, now);
    MergePaired(s, local, now);
    MergeAnchored(s, local, now);
    MergeSupported(s, local, now);
  }

  lemma ExpirePaired(s: Snap, cutoff: int)
    requires Paired(s)
    ensures Paired(Expired(s, cutoff))
  {
    var t := Expired(s, cutoff);
    forall k | k in t.edges
      ensures Mirror(k) in t.edges && t.edges[Mirror(k)] == t.edges[k]
    {
      var m := Mirror(k);
      assert m in s.edges && s.edges[m] == s.edges[k];
    }
  }

  lemma ExpireKeepsCoherence(s: Snap, cutoff: int, t: int)
    requires Coherent(s)
    ensures Coherent(Expired(s, cutoff))
    ensures SeenBy(s, t) ==> SeenBy(Expired(s, cutoff), t)
  {
    var e := Expired(s, cutoff);
    ExpirePaired(s, cutoff);
    forall id | id in e.entities
      ensures exists k :: LatestEdge(e, id, k)
    {
      var k :| LatestEdge(s, id, k);
      assert LatestEdge(e, id, k);
    }
  }

  /** Expiry drops an entity exactly when it drops every edge of that entity. */
  lemma EntityLeavesWithItsEdges(s: Snap, cutoff: int, id: string)
    requires Coherent(s) && id in s.entities
    ensures id !in Expired(s, cutoff).entities <==>
            forall k | k in s.edges && k.from == id :: k !in Expired(s, cutoff).edges
  {
    var k :| LatestEdge(s, id, k);
    forall k | k in s.edges && k.from == id
      ensures s.edges[k] <= s.entities[id].lastSeen
    {
      assert IsRelation(id) && RelationEnd(k) == id;
    }
  }

  /** Hence removing an entity's whole edge set never erases an edge of the new snapshot. */
  lemma RemovalErasesNoLiveEdge(prev: Snap, cur: Snap, id: string, k: EdgeKey)
    requires Coherent(prev) && Coherent(cur)
    requires id in prev.entities && id !in cur.entities && k in cur.edges
    ensures k.from != id && k.to != id
  {
    assert IsRelation(id);
    assert RelationEnd(k) in cur.entities;
    assert RelationshipEdge(k);
    KindsApart(id);
  }
}
