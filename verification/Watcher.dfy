/** Applying informer events: each handler turns an object, or an old and a new version of
    it, into writer operations. */
module Watcher {
  import opened Strings
  import opened Graph
  import opened GraphStore
  import opened RedisServer
  import opened RedisWriter
  import opened Mapper

  // ----- edge identity

  function KindText(k: EdgeKind): string {
    match k
    case Contains => "CONTAINS"      case RunsIn => "RUNS_IN"
    case Manages => "MANAGES"        case ManagedBy => "MANAGED_BY"
    case Scales => "SCALES"          case ScaledBy => "SCALED_BY"
    case Exposes => "EXPOSES"        case ExposedBy => "EXPOSED_BY"
    case Calls => "CALLS"            case CalledBy => "CALLED_BY"
    case Publishes => "PUBLISHES"    case PublishedBy => "PUBLISHED_BY"
    case Consumes => "CONSUMES"      case ConsumedBy => "CONSUMED_BY"
    case Queries => "QUERIES"        case QueriedBy => "QUERIED_BY"
  }

  /** The text edges are compared by: the four fields with NUL between them. */
  function EdgeText(ed: DesiredEdge): string {
    ed.from + "\0" + (KindText(ed.edge.kind) + "\0" + (ed.edge.to + "\0" + ed.edge.action))
  }

  predicate NulFree(ed: DesiredEdge) {
    Free(ed.from, '\0') && Free(ed.edge.to, '\0')
  }

  lemma CutAtNul(a: string, x: string, b: string, y: string)
    requires Free(a, '\0') && Free(b, '\0') && a + "\0" + x == b + "\0" + y
    ensures a == b && x == y
  {
    IndexOfAt(a, '\0', x);
    IndexOfAt(b, '\0', y);
    assert a + ['\0'] + x == a + "\0" + x && b + ['\0'] + y == b + "\0" + y;
    assert a == (a + "\0" + x)[..|a|] && b == (b + "\0" + y)[..|b|];
    assert x == (a + "\0" + x)[|a| + 1..] && y == (b + "\0" + y)[|b| + 1..];
  }

  lemma KindTextFree(k: EdgeKind)
    ensures Free(KindText(k), '\0') && |KindText(k)| >= 5
  {
  }

  lemma KindTextInjective(j: EdgeKind, k: EdgeKind)
    requires KindText(j) == KindText(k)
    ensures j == k
  {
    var s, t := KindText(j), KindText(k);
    assert |s| == |t| && s[0] == t[0] && s[1] == t[1] && s[2] == t[2];
    assert s[|s| - 1] == t[|t| - 1];
  }

  /** Without NULs inside names, edges with the same text are the same edge. */
  lemma EdgeTextInjective(x: DesiredEdge, y: DesiredEdge)
    requires NulFree(x) && NulFree(y) && EdgeText(x) == EdgeText(y)
    ensures x == y
  {
    var restX, restY := x.edge.to + "\0" + x.edge.action, y.edge.to + "\0" + y.edge.action;
    CutAtNul(x.from, KindText(x.edge.kind) + "\0" + restX, y.from, KindText(y.edge.kind) + "\0" + restY);
    KindTextFree(x.edge.kind);
    KindTextFree(y.edge.kind);
    CutAtNul(KindText(x.edge.kind), restX, KindText(y.edge.kind), restY);
    KindTextInjective(x.edge.kind, y.edge.kind);
    CutAtNul(x.edge.to, x.edge.action, y.edge.to, y.edge.action);
  }

  function EdgeIndex(edges: seq<DesiredEdge>): map<string, DesiredEdge> {
    if edges == [] then map[]
    else EdgeIndex(edges[..|edges| - 1])[EdgeText(edges[|edges| - 1]) := edges[|edges| - 1]]
  }

  method IndexEdges(edges: seq<DesiredEdge>) returns (m: map<string, DesiredEdge>)
    ensures m == EdgeIndex(edges)
  {
    m := map[];
    for i := 0 to |edges|
      invariant m == EdgeIndex(edges[..i])
    {
      m := m[EdgeText(edges[i]) := edges[i]];
      assert edges[..i + 1][..i] == edges[..i];
    }
    assert edges[..|edges|] == edges;
  }

  lemma {:induction false} IndexSound(edges: seq<DesiredEdge>)
    ensures forall k | k in EdgeIndex(edges) :: EdgeIndex(edges)[k] in edges && EdgeText(EdgeIndex(edges)[k]) == k
    ensures forall ed | ed in edges :: EdgeText(ed) in EdgeIndex(edges)
  {
    if edges != [] {
      var init := edges[..|edges| - 1];
      IndexSound(init);
      assert edges == init + [edges[|edges| - 1]];
    }
  }

  // ----- what the handlers issue

  function UpsertFor(ent: DesiredEntity, ms: int): Op {
    Upsert(ent.id, ent.kind, ent.name, ms, NonEmpty(ent.md))
  }

  /** One upsert per entity, in order, each with the clock of its own moment. */
  ghost predicate UpsertsOf(ents: seq<DesiredEntity>, ops: seq<Op>) {
    && |ops| == |ents|
    && forall i | 0 <= i < |ops| :: ops[i].Upsert? && ops[i] == UpsertFor(ents[i], ops[i].ms)
  }

  function LinksOf(edges: seq<DesiredEdge>): seq<Op> {
    seq(|edges|, i requires 0 <= i < |edges| => Link(edges[i].from, edges[i].edge))
  }

  function UnlinksOf(edges: seq<DesiredEdge>): seq<Op> {
    seq(|edges|, i requires 0 <= i < |edges| => Unlink(edges[i].from, edges[i].edge))
  }

  predicate Disposable(ent: DesiredEntity, kept: set<string>) {
    (ent.kind == POD || ent.kind == CONTAINER) && ent.id !in kept
  }

  /** Only pods and containers are ever deleted. */
  function DeletesOf(ents: seq<DesiredEntity>, kept: set<string>): seq<Op> {
    if ents == [] then []
    else
      var init, last := DeletesOf(ents[..|ents| - 1], kept), ents[|ents| - 1];
      if Disposable(last, kept) then init + [Delete(last.id, last.kind)] else init
  }

  function IdsOf(ents: seq<DesiredEntity>): set<string> {
    set i | 0 <= i < |ents| :: ents[i].id
  }

  /** The links of the edges, by text, that `other` lacks, each once, in any order. */
  ghost predicate LinkDiff(edges: seq<DesiredEdge>, other: seq<DesiredEdge>, ops: seq<Op>) {
    var m, o := EdgeIndex(edges), EdgeIndex(other);
    && (forall op | op in ops :: op.Link? && EdgeText(DesiredEdge(op.from, op.edge)) in m &&
                                 EdgeText(DesiredEdge(op.from, op.edge)) !in o &&
                                 m[EdgeText(DesiredEdge(op.from, op.edge))] == DesiredEdge(op.from, op.edge))
    && (forall k | k in m && k !in o :: Link(m[k].from, m[k].edge) in ops)
  }

  ghost predicate UnlinkDiff(edges: seq<DesiredEdge>, other: seq<DesiredEdge>, ops: seq<Op>) {
    var m, o := EdgeIndex(edges), EdgeIndex(other);
    && (forall op | op in ops :: op.Unlink? && EdgeText(DesiredEdge(op.from, op.edge)) in m &&
                                 EdgeText(DesiredEdge(op.from, op.edge)) !in o &&
                                 m[EdgeText(DesiredEdge(op.from, op.edge))] == DesiredEdge(op.from, op.edge))
    && (forall k | k in m && k !in o :: Unlink(m[k].from, m[k].edge) in ops)
  }

  ghost predicate AddIssues(d: Desired, ops: seq<Op>) {
    exists u :: UpsertsOf(d.entities, u) && ops == u + LinksOf(d.edges)
  }

  ghost predicate UpdateParts(before: Desired, after: Desired, u: seq<Op>, l: seq<Op>, ul: seq<Op>) {
    UpsertsOf(after.entities, u) && LinkDiff(after.edges, before.edges, l) && UnlinkDiff(before.edges, after.edges, ul)
  }

  ghost predicate UpdateIssues(before: Desired, after: Desired, ops: seq<Op>) {
    exists u, l, ul ::
      UpdateParts(before, after, u, l, ul) && ops == u + DeletesOf(before.entities, IdsOf(after.entities)) + l + ul
  }

  function DeleteIssues(d: Desired): seq<Op> {
    DeletesOf(d.entities, {}) + UnlinksOf(d.edges)
  }

  lemma UpsertsMore(ents: seq<DesiredEntity>, i: nat, u: seq<Op>, ms: int)
    requires i < |ents| && UpsertsOf(ents[..i], u)
    ensures UpsertsOf(ents[..i + 1], u + [UpsertFor(ents[i], ms)])
  {
  }

  lemma LinksMore(edges: seq<DesiredEdge>, i: nat)
    requires i < |edges|
    ensures LinksOf(edges[..i + 1]) == LinksOf(edges[..i]) + [Link(edges[i].from, edges[i].edge)]
    ensures UnlinksOf(edges[..i + 1]) == UnlinksOf(edges[..i]) + [Unlink(edges[i].from, edges[i].edge)]
  {
  }

  // ----- the handlers

  method UpsertAll(w: Writer, ents: seq<DesiredEntity>) returns (ghost u: seq<Op>)
    requires w.Valid()
    modifies w, w.redis
    ensures w.Valid() && w.ops == old(w.ops) + u && UpsertsOf(ents, u)
  {
    u := [];
    for i := 0 to |ents|
      invariant w.Valid() && w.ops == old(w.ops) + u && UpsertsOf(ents[..i], u)
    {
      var e := ents[i];
      ghost var ms := w.UpsertEntity(e.id, e.kind, e.name, e.md);
      Assoc(old(w.ops), u, [UpsertFor(e, ms)]);
      UpsertsMore(ents, i, u, ms);
      u := u + [UpsertFor(e, ms)];
    }
    assert ents[..|ents|] == ents;
  }

  method ApplyAdd(w: Writer, d: Desired) returns (ghost ops: seq<Op>)
    requires w.Valid()
    modifies w, w.redis
    ensures w.Valid() && w.ops == old(w.ops) + ops && AddIssues(d, ops)
  {
    ghost var u := UpsertAll(w, d.entities);
    ghost var l := [];
    for i := 0 to |d.edges|
      invariant w.Valid() && w.ops == old(w.ops) + (u + l) && l == LinksOf(d.edges[..i])
    {
      w.AddEdge(d.edges[i].from, d.edges[i].edge);
      ghost var op := Link(d.edges[i].from, d.edges[i].edge);
      Assoc(old(w.ops), u + l, [op]);
      Assoc(u, l, [op]);
      LinksMore(d.edges, i);
      l := l + [op];
    }
    assert d.edges[..|d.edges|] == d.edges;
    ops := u + l;
  }

  method DeleteOwned(w: Writer, ents: seq<DesiredEntity>, kept: set<string>)
    requires w.Valid()
    modifies w, w.redis
    ensures w.Valid() && w.ops == old(w.ops) + DeletesOf(ents, kept)
  {
    ghost var dels := [];
    for i := 0 to |ents|
      invariant w.Valid() && w.ops == old(w.ops) + dels && dels == DeletesOf(ents[..i], kept)
    {
      var e := ents[i];
      assert ents[..i + 1][..i] == ents[..i];
      if e.id in kept {
        continue;
      }
      if e.kind == POD || e.kind == CONTAINER {
        w.DeleteEntity(e.id, e.kind);
        Assoc(old(w.ops), dels, [Delete(e.id, e.kind)]);
        dels := dels + [Delete(e.id, e.kind)];
      }
    }
    assert ents[..|ents|] == ents;
  }

  method ApplyDelete(w: Writer, d: Desired)
    requires w.Valid()
    modifies w, w.redis
    ensures w.Valid() && w.ops == old(w.ops) + DeleteIssues(d)
  {
    DeleteOwned(w, d.entities, {});
    ghost var dels, ul := DeletesOf(d.entities, {}), [];
    for i := 0 to |d.edges|
      invariant w.Valid() && w.ops == old(w.ops) + (dels + ul) && ul == UnlinksOf(d.edges[..i])
    {
      w.RemoveEdge(d.edges[i].from, d.edges[i].edge);
      ghost var op := Unlink(d.edges[i].from, d.edges[i].edge);
      Assoc(old(w.ops), dels + ul, [op]);
      Assoc(dels, ul, [op]);
      LinksMore(d.edges, i);
      ul := ul + [op];
    }
    assert d.edges[..|d.edges|] == d.edges;
  }

  /** The edges of `edges` that `other` lacks are added, in the arbitrary order of the index. */
  method LinkMissing(w: Writer, edges: seq<DesiredEdge>, other: seq<DesiredEdge>) returns (ghost l: seq<Op>)
    requires w.Valid()
    modifies w, w.redis
    ensures w.Valid() && w.ops == old(w.ops) + l && LinkDiff(edges, other, l)
  {
    var m := IndexEdges(edges);
    var o := IndexEdges(other);
    IndexSound(edges);
    l := [];
    var todo := m.Keys;
    while todo != {}
      invariant todo <= m.Keys && w.Valid() && w.ops == old(w.ops) + l
      invariant forall op | op in l :: op.Link? && EdgeText(DesiredEdge(op.from, op.edge)) in m &&
                                       EdgeText(DesiredEdge(op.from, op.edge)) !in o &&
                                       m[EdgeText(DesiredEdge(op.from, op.edge))] == DesiredEdge(op.from, op.edge)
      invariant forall k | k in m && k !in o && k !in todo :: Link(m[k].from, m[k].edge) in l
      decreases todo
    {
      var k :| k in todo;
      todo := todo - {k};
      if k !in o {
        w.AddEdge(m[k].from, m[k].edge);
        ghost var op := Link(m[k].from, m[k].edge);
        assert DesiredEdge(op.from, op.edge) == m[k];
        Assoc(old(w.ops), l, [op]);
        l := l + [op];
      }
    }
  }

  method UnlinkMissing(w: Writer, edges: seq<DesiredEdge>, other: seq<DesiredEdge>) returns (ghost l: seq<Op>)
    requires w.Valid()
    modifies w, w.redis
    ensures w.Valid() && w.ops == old(w.ops) + l && UnlinkDiff(edges, other, l)
  {
    var m := IndexEdges(edges);
    var o := IndexEdges(other);
    IndexSound(edges);
    l := [];
    var todo := m.Keys;
    while todo != {}
      invariant todo <= m.Keys && w.Valid() && w.ops == old(w.ops) + l
      invariant forall op | op in l :: op.Unlink? && EdgeText(DesiredEdge(op.from, op.edge)) in m &&
                                       EdgeText(DesiredEdge(op.from, op.edge)) !in o &&
                                       m[EdgeText(DesiredEdge(op.from, op.edge))] == DesiredEdge(op.from, op.edge)
      invariant forall k | k in m && k !in o && k !in todo :: Unlink(m[k].from, m[k].edge) in l
      decreases todo
    {
      var k :| k in todo;
      todo := todo - {k};
      if k !in o {
        w.RemoveEdge(m[k].from, m[k].edge);
        ghost var op := Unlink(m[k].from, m[k].edge);
        assert DesiredEdge(op.from, op.edge) == m[k];
        Assoc(old(w.ops), l, [op]);
        l := l + [op];
      }
    }
  }

  method ApplyUpdate(w: Writer, before: Desired, after: Desired) returns (ghost ops: seq<Op>)
    requires w.Valid()
    modifies w, w.redis
    ensures w.Valid() && w.ops == old(w.ops) + ops && UpdateIssues(before, after, ops)
  {
    ghost var u := UpsertAll(w, after.entities);
    var kept := IdsOf(after.entities);
    DeleteOwned(w, before.entities, kept);
    ghost var l := LinkMissing(w, after.edges, before.edges);
    ghost var ul := UnlinkMissing(w, before.edges, after.edges);
    ghost var dels := DeletesOf(before.entities, kept);
    ops := u + dels + l + ul;
    FourParts(old(w.ops), u, dels, l, ul);
    assert UpdateParts(before, after, u, l, ul);
  }

  lemma FourParts<T>(p: seq<T>, a: seq<T>, b: seq<T>, c: seq<T>, d: seq<T>)
    ensures p + a + b + c + d == p + (a + b + c + d)
  {
  }
}
