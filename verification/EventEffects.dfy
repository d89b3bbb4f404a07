/** What the operations of one informer event do to single facts of the store. */
module EventEffects {
  import opened Strings
  import opened Graph
  import opened GraphStore
  import opened Mapper
  import opened Ownership
  import opened Watcher

  // ----- lists of operations of one sort

  predicate AllUpserts(ops: seq<Op>) { forall op | op in ops :: op.Upsert? }
  predicate AllDeletes(ops: seq<Op>) { forall op | op in ops :: op.Delete? }
  predicate AllLinks(ops: seq<Op>) { forall op | op in ops :: op.Link? }
  predicate AllUnlinks(ops: seq<Op>) { forall op | op in ops :: op.Unlink? }

  predicate Names(ops: seq<Op>, id: string) {
    exists op :: op in ops && (op.Upsert? || op.Delete?) && op.id == id
  }

  lemma NamesSnoc(ops: seq<Op>, id: string)
    requires |ops| > 0
    ensures Names(ops, id) <==>
            Names(ops[..|ops| - 1], id) ||
              ((ops[|ops| - 1].Upsert? || ops[|ops| - 1].Delete?) && ops[|ops| - 1].id == id)
  {
    assert ops == ops[..|ops| - 1] + [ops[|ops| - 1]];
  }

  lemma {:induction false} LinksAct(ops: seq<Op>, a: Atom, cell: Cell)
    requires AllLinks(ops)
    ensures ActOps(ops, a, cell) == if a.EdgeMember? && Link(a.from, a.edge) in ops then Member else cell
  {
    if ops != [] {
      LinksAct(ops[..|ops| - 1], a, cell);
      assert ops == ops[..|ops| - 1] + [ops[|ops| - 1]];
      assert ops[|ops| - 1].Link?;
    }
  }

  lemma {:induction false} UnlinksAct(ops: seq<Op>, a: Atom, cell: Cell)
    requires AllUnlinks(ops)
    ensures ActOps(ops, a, cell) == if a.EdgeMember? && Unlink(a.from, a.edge) in ops then Absent else cell
  {
    if ops != [] {
      UnlinksAct(ops[..|ops| - 1], a, cell);
      assert ops == ops[..|ops| - 1] + [ops[|ops| - 1]];
      assert ops[|ops| - 1].Unlink?;
    }
  }

  lemma {:induction false} DeletesActOnEdge(ops: seq<Op>, from: string, e: Edge, cell: Cell)
    requires AllDeletes(ops)
    ensures ActOps(ops, EdgeMember(from, e), cell) == if Names(ops, from) then Absent else cell
  {
    if ops != [] {
      DeletesActOnEdge(ops[..|ops| - 1], from, e, cell);
      NamesSnoc(ops, from);
    }
  }

  lemma {:induction false} UpsertsActOnEdge(ops: seq<Op>, from: string, e: Edge, cell: Cell)
    requires AllUpserts(ops)
    ensures ActOps(ops, EdgeMember(from, e), cell) == cell
  {
    if ops != [] {
      UpsertsActOnEdge(ops[..|ops| - 1], from, e, cell);
    }
  }

  /** The three facts by which an entity counts as stored. */
  predicate Presence(a: Atom, id: string) {
    a == CoreOf(id) || a == IdMember(id) || a == KindMember(KindOf(id), id)
  }

  predicate WellFormed(op: Op) {
    (op.Upsert? || op.Delete? ==> op.kind == KindOf(op.id)) && (op.Upsert? ==> op.name == ShortName(op.id))
  }

  /** A core hash, if that is what the cell holds, names its entity properly. */
  predicate ProperCore(id: string, cell: Cell) {
    cell.Hash? ==> cell.core.id == id && cell.core.kind == KindOf(id) && cell.core.name == ShortName(id)
  }

  lemma UpsertActsOnEntity(op: Op, id: string, a: Atom, cell: Cell)
    requires op.Upsert? && Presence(a, id) && WellFormed(op)
    ensures op.id == id ==> ActOp(op, a, cell) != Absent && ProperCore(id, ActOp(op, a, cell))
    ensures op.id != id ==> ActOp(op, a, cell) == cell
  {
  }

  lemma {:induction false} UpsertsActOnEntity(ops: seq<Op>, id: string, a: Atom, cell: Cell)
    requires AllUpserts(ops) && Presence(a, id) && forall op | op in ops :: WellFormed(op)
    ensures Names(ops, id) ==> ActOps(ops, a, cell) != Absent && ProperCore(id, ActOps(ops, a, cell))
    ensures !Names(ops, id) ==> ActOps(ops, a, cell) == cell
  {
    if ops != [] {
      var init, last := ops[..|ops| - 1], ops[|ops| - 1];
      UpsertsActOnEntity(init, id, a, cell);
      NamesSnoc(ops, id);
      assert last in ops;
      UpsertActsOnEntity(last, id, a, ActOps(init, a, cell));
    }
  }

  lemma {:induction false} DeletesActOnEntity(ops: seq<Op>, id: string, a: Atom, cell: Cell)
    requires AllDeletes(ops) && Presence(a, id) && forall op | op in ops :: WellFormed(op)
    ensures ActOps(ops, a, cell) == if Names(ops, id) then Absent else cell
  {
    if ops != [] {
      DeletesActOnEntity(ops[..|ops| - 1], id, a, cell);
      NamesSnoc(ops, id);
      assert WellFormed(ops[|ops| - 1]);
    }
  }

  // ----- the operations of one event

  const NO_DESIRES := Desired([], [])

  /** Upserts, deletions, links and unlinks that turn what one object implied (`b`) into what
      it implies now (`a`). */
  ghost predicate Turns(b: Desired, a: Desired, u: seq<Op>, dels: seq<Op>, l: seq<Op>, ul: seq<Op>) {
    && UpsertsOf(a.entities, u)
    && AllDeletes(dels) && AllLinks(l) && AllUnlinks(ul)
    && (forall op | op in dels :: HasEntity(b, op.id) && IsEmitter(op.id) && !HasEntity(a, op.id) && WellFormed(op))
    && (forall id | HasEntity(b, id) && IsEmitter(id) && !HasEntity(a, id) :: Names(dels, id))
    && (forall op | op in l :: HasEdge(a, op.from, op.edge) && !HasEdge(b, op.from, op.edge))
    && (forall ed | ed in a.edges && ed !in b.edges :: Link(ed.from, ed.edge) in l)
    && (forall op | op in ul :: HasEdge(b, op.from, op.edge) && !HasEdge(a, op.from, op.edge))
    && (forall ed | ed in b.edges && ed !in a.edges :: Unlink(ed.from, ed.edge) in ul)
  }

  ghost predicate Turn(b: Desired, a: Desired, ops: seq<Op>) {
    exists u, dels, l, ul :: Turns(b, a, u, dels, l, ul) && ops == u + dels + l + ul
  }

  ghost predicate EdgesNulFree(d: Desired) {
    forall ed | ed in d.edges :: NulFree(ed)
  }

  lemma IndexExact(d: Desired, ed: DesiredEdge)
    requires EdgesNulFree(d) && NulFree(ed)
    ensures EdgeText(ed) in EdgeIndex(d.edges) <==> ed in d.edges
    ensures ed in d.edges ==> EdgeIndex(d.edges)[EdgeText(ed)] == ed
  {
    IndexSound(d.edges);
    if EdgeText(ed) in EdgeIndex(d.edges) {
      EdgeTextInjective(EdgeIndex(d.edges)[EdgeText(ed)], ed);
    }
  }

  /** With names free of NUL, comparing edges by their text is comparing edges. */
  lemma LinkDiffExact(a: Desired, b: Desired, l: seq<Op>)
    requires EdgesNulFree(a) && EdgesNulFree(b) && LinkDiff(a.edges, b.edges, l)
    ensures AllLinks(l)
    ensures forall op | op in l :: HasEdge(a, op.from, op.edge) && !HasEdge(b, op.from, op.edge)
    ensures forall ed | ed in a.edges && ed !in b.edges :: Link(ed.from, ed.edge) in l
  {
    forall op | op in l ensures op.Link? && HasEdge(a, op.from, op.edge) && !HasEdge(b, op.from, op.edge) {
      var ed := DesiredEdge(op.from, op.edge);
      IndexSound(a.edges);
      assert ed in a.edges;
      IndexExact(b, ed);
    }
    forall ed | ed in a.edges && ed !in b.edges ensures Link(ed.from, ed.edge) in l {
      IndexExact(a, ed);
      IndexExact(b, ed);
    }
  }

  lemma UnlinkDiffExact(b: Desired, a: Desired, ul: seq<Op>)
    requires EdgesNulFree(a) && EdgesNulFree(b) && UnlinkDiff(b.edges, a.edges, ul)
    ensures AllUnlinks(ul)
    ensures forall op | op in ul :: HasEdge(b, op.from, op.edge) && !HasEdge(a, op.from, op.edge)
    ensures forall ed | ed in b.edges && ed !in a.edges :: Unlink(ed.from, ed.edge) in ul
  {
    forall op | op in ul ensures op.Unlink? && HasEdge(b, op.from, op.edge) && !HasEdge(a, op.from, op.edge) {
      var ed := DesiredEdge(op.from, op.edge);
      IndexSound(b.edges);
      assert ed in b.edges;
      IndexExact(a, ed);
    }
    forall ed | ed in b.edges && ed !in a.edges ensures Unlink(ed.from, ed.edge) in ul {
      IndexExact(b, ed);
      IndexExact(a, ed);
    }
  }

  ghost predicate EntitiesFine(d: Desired) {
    forall ent | ent in d.entities :: ent.kind == KindOf(ent.id) && ent.name == ShortName(ent.id)
  }

  lemma IdsAre(d: Desired, id: string)
    ensures id in IdsOf(d.entities) <==> HasEntity(d, id)
  {
    if id in IdsOf(d.entities) {
      var i :| 0 <= i < |d.entities| && d.entities[i].id == id;
      assert d.entities[i] in d.entities;
    }
  }

  lemma {:induction false} DeletesExact(ents: seq<DesiredEntity>, kept: set<string>)
    requires forall ent | ent in ents :: ent.kind == KindOf(ent.id)
    ensures forall op | op in DeletesOf(ents, kept) ::
              op.Delete? && op.kind == KindOf(op.id) && IsEmitter(op.id) && op.id !in kept &&
              exists ent :: ent in ents && ent.id == op.id
    ensures forall ent | ent in ents && Disposable(ent, kept) :: Delete(ent.id, ent.kind) in DeletesOf(ents, kept)
  {
    if ents != [] {
      var init, last := ents[..|ents| - 1], ents[|ents| - 1];
      DeletesExact(init, kept);
      assert ents == init + [last] && last in ents;
    }
  }

  lemma DeletionsTurn(b: Desired, a: Desired, kept: set<string>, dels: seq<Op>)
    requires EntitiesFine(b) && dels == DeletesOf(b.entities, kept)
    requires forall id :: id in kept <==> HasEntity(a, id)
    ensures AllDeletes(dels)
    ensures forall op | op in dels :: HasEntity(b, op.id) && IsEmitter(op.id) && !HasEntity(a, op.id) && WellFormed(op)
    ensures forall id | HasEntity(b, id) && IsEmitter(id) && !HasEntity(a, id) :: Names(dels, id)
  {
    DeletesExact(b.entities, kept);
    forall id | HasEntity(b, id) && IsEmitter(id) && !HasEntity(a, id) ensures Names(dels, id) {
      var ent :| ent in b.entities && ent.id == id;
      assert Disposable(ent, kept);
      assert Delete(ent.id, ent.kind) in dels;
    }
  }

  lemma UpdateTurns(b: Desired, a: Desired, ops: seq<Op>)
    requires EdgesNulFree(a) && EdgesNulFree(b) && EntitiesFine(b) && UpdateIssues(b, a, ops)
    ensures Turn(b, a, ops)
  {
    var u, l, ul :| UpdateParts(b, a, u, l, ul) && ops == u + DeletesOf(b.entities, IdsOf(a.entities)) + l + ul;
    var dels := DeletesOf(b.entities, IdsOf(a.entities));
    forall id ensures id in IdsOf(a.entities) <==> HasEntity(a, id) {
      IdsAre(a, id);
    }
    DeletionsTurn(b, a, IdsOf(a.entities), dels);
    LinkDiffExact(a, b, l);
    UnlinkDiffExact(b, a, ul);
    assert Turns(b, a, u, dels, l, ul);
  }

  lemma AllLinked(d: Desired)
    ensures AllLinks(LinksOf(d.edges)) && AllUnlinks(UnlinksOf(d.edges))
    ensures forall op | op in LinksOf(d.edges) :: HasEdge(d, op.from, op.edge)
    ensures forall op | op in UnlinksOf(d.edges) :: HasEdge(d, op.from, op.edge)
    ensures forall ed | ed in d.edges :: Link(ed.from, ed.edge) in LinksOf(d.edges)
    ensures forall ed | ed in d.edges :: Unlink(ed.from, ed.edge) in UnlinksOf(d.edges)
  {
    forall ed | ed in d.edges
      ensures Link(ed.from, ed.edge) in LinksOf(d.edges) && Unlink(ed.from, ed.edge) in UnlinksOf(d.edges)
    {
      var i :| 0 <= i < |d.edges| && d.edges[i] == ed;
      assert LinksOf(d.edges)[i] == Link(ed.from, ed.edge);
      assert UnlinksOf(d.edges)[i] == Unlink(ed.from, ed.edge);
    }
  }

  lemma AddTurns(a: Desired, ops: seq<Op>)
    requires AddIssues(a, ops)
    ensures Turn(NO_DESIRES, a, ops)
  {
    var u :| UpsertsOf(a.entities, u) && ops == u + LinksOf(a.edges);
    AllLinked(a);
    assert Turns(NO_DESIRES, a, u, [], LinksOf(a.edges), []);
    assert ops == u + [] + LinksOf(a.edges) + [];
  }

  lemma DeleteTurns(b: Desired, ops: seq<Op>)
    requires EntitiesFine(b) && ops == DeleteIssues(b)
    ensures Turn(b, NO_DESIRES, ops)
  {
    var dels := DeletesOf(b.entities, {});
    DeletionsTurn(b, NO_DESIRES, {}, dels);
    AllLinked(b);
    assert Turns(b, NO_DESIRES, [], dels, [], UnlinksOf(b.edges));
    assert ops == [] + dels + [] + UnlinksOf(b.edges);
  }

  // ----- their effect

  lemma UpsertsAre(a: Desired, u: seq<Op>)
    requires UpsertsOf(a.entities, u)
    ensures AllUpserts(u) && (forall id :: Names(u, id) <==> HasEntity(a, id))
    ensures EntitiesFine(a) ==> forall op | op in u :: WellFormed(op)
  {
    forall id ensures Names(u, id) <==> HasEntity(a, id) {
      if HasEntity(a, id) {
        var i :| 0 <= i < |a.entities| && a.entities[i].id == id;
        assert u[i] in u;
      }
      if Names(u, id) {
        var i :| 0 <= i < |u| && u[i].id == id;
        assert a.entities[i] in a.entities;
      }
    }
  }

  lemma FourActs(u: seq<Op>, dels: seq<Op>, l: seq<Op>, ul: seq<Op>, a: Atom, cell: Cell)
    ensures ActOps(u + dels + l + ul, a, cell) == ActOps(ul, a, ActOps(l, a, ActOps(dels, a, ActOps(u, a, cell))))
  {
    ActOpsConcat(u + dels + l, ul, a, cell);
    ActOpsConcat(u + dels, l, a, cell);
    ActOpsConcat(u, dels, a, cell);
  }

  /** The entity an edge is stored on is dropped together with its edges. */
  predicate Dropped(b: Desired, a: Desired, id: string) {
    IsEmitter(id) && HasEntity(b, id) && !HasEntity(a, id)
  }

  /** One event sets an edge its object gains, removes one its object loses or whose carrier
      it drops, and leaves every other edge as it is. */
  lemma EdgeAfterTurn(b: Desired, a: Desired, ops: seq<Op>, from: string, e: Edge, cell: Cell)
    requires Turn(b, a, ops)
    ensures ActOps(ops, EdgeMember(from, e), cell) ==
            if HasEdge(a, from, e) && !HasEdge(b, from, e) then Member
            else if Dropped(b, a, from) || (HasEdge(b, from, e) && !HasEdge(a, from, e)) then Absent
            else cell
  {
    var u, dels, l, ul :| Turns(b, a, u, dels, l, ul) && ops == u + dels + l + ul;
    var at := EdgeMember(from, e);
    FourActs(u, dels, l, ul, at, cell);
    UpsertsAre(a, u);
    UpsertsActOnEdge(u, from, e, cell);
    DeletesActOnEdge(dels, from, e, cell);
    var afterDels := ActOps(dels, at, cell);
    LinksAct(l, at, afterDels);
    UnlinksAct(ul, at, ActOps(l, at, afterDels));
    assert Link(from, e) in l <==> HasEdge(a, from, e) && !HasEdge(b, from, e);
    assert Unlink(from, e) in ul <==> HasEdge(b, from, e) && !HasEdge(a, from, e);
    assert Names(dels, from) <==> Dropped(b, a, from);
  }

  /** One event stores every entity its object implies now, drops the pods and containers it
      implies no more, and leaves every other entity as it is. */
  lemma EntityAfterTurn(b: Desired, a: Desired, ops: seq<Op>, id: string, at: Atom, cell: Cell)
    requires Turn(b, a, ops) && EntitiesFine(a) && Presence(at, id)
    ensures var after := ActOps(ops, at, cell);
            if HasEntity(a, id) then after != Absent && ProperCore(id, after)
            else if Dropped(b, a, id) then after == Absent
            else after == cell
  {
    var u, dels, l, ul :| Turns(b, a, u, dels, l, ul) && ops == u + dels + l + ul;
    FourActs(u, dels, l, ul, at, cell);
    UpsertsAre(a, u);
    UpsertsActOnEntity(u, id, at, cell);
    var afterUpserts := ActOps(u, at, cell);
    DeletesActOnEntity(dels, id, at, afterUpserts);
    var afterDels := ActOps(dels, at, afterUpserts);
    LinksAct(l, at, afterDels);
    UnlinksAct(ul, at, afterDels);
    assert Names(dels, id) <==> Dropped(b, a, id);
  }
}
