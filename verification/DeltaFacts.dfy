/** What full and partial deltas do to the facts the span-metric path owns. */
module DeltaFacts {
  import opened Graph
  import opened GraphStore
  import opened BatchSet
  import opened DeltaFlush
  import opened Coherence
  import Decimal

  /** The facts whose only writer is the flusher. */
  predicate Owned(a: Atom) {
    if a.EdgeMember? then IsRelation(a.from) || !a.edge.kind.Structural() else IsRelation(a.id)
  }

  /** How display names follow from IDs, when they do. */
  datatype Naming = AnyName | NameOf(display: string -> string)

  ghost predicate Named(naming: Naming, s: Snap) {
    naming.NameOf? ==> forall id | id in s.entities :: s.entities[id].name == naming.display(id)
  }

  /** The store says about a fact what the snapshot says. Names count only when they are a
      function of the ID; the last-seen field never does. */
  predicate Agrees(naming: Naming, s: Snap, a: Atom, cell: Cell) {
    match a
    case CoreOf(id) =>
      if id in s.entities then
        cell.Hash? && cell.core.id == id && cell.core.kind == s.entities[id].kind &&
        (naming.NameOf? ==> cell.core.name == s.entities[id].name)
      else cell == Absent
    case MetaOf(id) => cell == Absent
    case IdMember(id) => cell == if id in s.entities then Member else Absent
    case KindMember(kind, id) =>
      cell == if id in s.entities && s.entities[id].kind == kind then Member else Absent
    case EdgeMember(from, e) => cell == if Key(from, e) in s.edges then Member else Absent
  }

  /** A failing flush from `p` towards `f` may change this fact. */
  predicate Shaken(p: Snap, f: Snap, a: Atom) {
    match a
    case CoreOf(id) => (id in p.entities) != (id in f.entities)
    case MetaOf(id) => false
    case IdMember(id) => (id in p.entities) != (id in f.entities)
    case KindMember(kind, id) => kind == KindOf(id) && (id in p.entities) != (id in f.entities)
    case EdgeMember(from, e) => (Key(from, e) in p.edges) != (Key(from, e) in f.edges)
  }

  /** A complete flush from `p` to `s` sets this fact, whatever it was before. */
  predicate Rewrites(p: Snap, s: Snap, a: Atom) {
    match a
    case MetaOf(id) => RemovedId(s, p, id)
    case EdgeMember(from, e) => Shaken(p, s, a) || RemovedId(s, p, from)
    case _ => Shaken(p, s, a)
  }

  /** A complete flush makes a fact agree with the new snapshot when it rewrites it or when
      the fact agreed with the previous snapshot. */
  lemma FullDeltaAgrees(naming: Naming, p: Snap, s: Snap, now: int, a: Atom, cell: Cell)
    requires Coherent(p) && Coherent(s) && Named(naming, p) && Named(naming, s)
    requires Rewrites(p, s, a) || Agrees(naming, p, a, cell)
    ensures Agrees(naming, s, a, DeltaCell(s, p, now, a, cell))
  {
    if a.EdgeMember? {
      FullDeltaAgreesOnEdge(naming, p, s, now, a, cell);
    } else {
      FullDeltaAgreesOnEntity(naming, p, s, now, a, cell);
    }
  }

  lemma FullDeltaAgreesOnEntity(naming: Naming, p: Snap, s: Snap, now: int, a: Atom, cell: Cell)
    requires Shaped(p) && Shaped(s) && Named(naming, p) && Named(naming, s) && !a.EdgeMember?
    requires Rewrites(p, s, a) || Agrees(naming, p, a, cell)
    ensures Agrees(naming, s, a, DeltaCell(s, p, now, a, cell))
  {
    if a.CoreOf? {
      FullDeltaAgreesOnCore(naming, p, s, now, a, cell);
    } else if a.KindMember? {
      FullDeltaAgreesOnKind(naming, p, s, now, a, cell);
    } else {
      assert a.id !in s.metas;
    }
  }

  lemma FullDeltaAgreesOnCore(naming: Naming, p: Snap, s: Snap, now: int, a: Atom, cell: Cell)
    requires Shaped(p) && Shaped(s) && Named(naming, p) && Named(naming, s) && a.CoreOf?
    requires Rewrites(p, s, a) || Agrees(naming, p, a, cell)
    ensures Agrees(naming, s, a, DeltaCell(s, p, now, a, cell))
  {
    assert a.id in s.entities ==> s.entities[a.id].kind == KindOf(a.id);
    assert a.id in p.entities ==> p.entities[a.id].kind == KindOf(a.id);
  }

  lemma FullDeltaAgreesOnKind(naming: Naming, p: Snap, s: Snap, now: int, a: Atom, cell: Cell)
    requires Shaped(p) && Shaped(s) && a.KindMember?
    requires Rewrites(p, s, a) || Agrees(naming, p, a, cell)
    ensures Agrees(naming, s, a, DeltaCell(s, p, now, a, cell))
  {
    assert a.id in s.entities ==> s.entities[a.id].kind == KindOf(a.id);
    assert a.id in p.entities ==> p.entities[a.id].kind == KindOf(a.id);
  }

  lemma FullDeltaAgreesOnEdge(naming: Naming, p: Snap, s: Snap, now: int, a: Atom, cell: Cell)
    requires Coherent(p) && Coherent(s) && a.EdgeMember?
    requires Rewrites(p, s, a) || Agrees(naming, p, a, cell)
    ensures Agrees(naming, s, a, DeltaCell(s, p, now, a, cell))
  {
    var k := Key(a.from, a.edge);
    if k in s.edges && RemovedId(s, p, a.from) {
      RemovalErasesNoLiveEdge(p, s, a.from, k);
    }
  }

  /** A complete flush does not touch facts it neither owns nor rewrites. */
  lemma FullDeltaConfined(p: Snap, s: Snap, now: int, a: Atom, cell: Cell)
    requires Coherent(p) && Coherent(s) && !Owned(a)
    ensures DeltaCell(s, p, now, a, cell) == cell
  {
    if a.EdgeMember? {
      EdgeUntouched(p, s, a);
    } else {
      assert a.id !in s.entities && a.id !in p.entities;
    }
  }

  lemma EdgeUntouched(p: Snap, s: Snap, a: Atom)
    requires Shaped(p) && Shaped(s) && !Owned(a) && a.EdgeMember?
    ensures Key(a.from, a.edge) !in s.edges && Key(a.from, a.edge) !in p.edges && a.from !in p.entities
  {
    var k := Key(a.from, a.edge);
    assert k in s.edges ==> RelationshipEdge(k);
    assert k in p.edges ==> RelationshipEdge(k);
  }

  lemma EntityCommandConfined(naming: Naming, p: Snap, f: Snap, now: int, op: Op, c: Command, a: Atom, cell: Cell)
    requires Shaped(p) && Shaped(f) && DeltaOp(f, p, now, op) && c in Commands(op) && Touches(c, a)
    requires (op.Upsert? || op.Delete?) && !a.EdgeMember?
    ensures Owned(a)
    ensures !Shaken(p, f, a) && Agrees(naming, p, a, cell) ==> Agrees(naming, p, a, Effect(c, cell))
  {
    assert op.id in f.entities ==> IsRelation(op.id) && f.entities[op.id].kind == KindOf(op.id);
    assert op.id in p.entities ==> IsRelation(op.id) && p.entities[op.id].kind == KindOf(op.id);
  }

  /** Deleting an entity drops its edges: those are gone from the new snapshot as well. */
  lemma DropConfined(naming: Naming, p: Snap, f: Snap, now: int, op: Op, c: Command, a: Atom, cell: Cell)
    requires Coherent(p) && Coherent(f) && DeltaOp(f, p, now, op) && c in Commands(op) && Touches(c, a)
    requires (op.Upsert? || op.Delete?) && a.EdgeMember?
    ensures Owned(a)
    ensures !Shaken(p, f, a) && Agrees(naming, p, a, cell) ==> Agrees(naming, p, a, Effect(c, cell))
  {
    DropIsRemoval(p, f, now, op, c, a);
    assert IsRelation(a.from);
    if Key(a.from, a.edge) in f.edges {
      RemovalErasesNoLiveEdge(p, f, a.from, Key(a.from, a.edge));
    }
  }

  lemma DropIsRemoval(p: Snap, f: Snap, now: int, op: Op, c: Command, a: Atom)
    requires DeltaOp(f, p, now, op) && c in Commands(op) && Touches(c, a)
    requires (op.Upsert? || op.Delete?) && a.EdgeMember?
    ensures c == DelEntity(a.from) && RemovedId(f, p, a.from)
  {
  }

  lemma EdgeCommandConfined(naming: Naming, p: Snap, f: Snap, now: int, op: Op, c: Command, a: Atom, cell: Cell)
    requires Shaped(p) && Shaped(f) && DeltaOp(f, p, now, op) && c in Commands(op) && Touches(c, a)
    requires op.Link? || op.Unlink?
    ensures Owned(a) && Shaken(p, f, a)
  {
    var k := Key(op.from, op.edge);
    assert k in f.edges ==> RelationshipEdge(k);
    assert k in p.edges ==> RelationshipEdge(k);
  }

  /** One command of a delta towards `f`, executed on its own. */
  lemma CommandConfined(naming: Naming, p: Snap, f: Snap, now: int, op: Op, c: Command, a: Atom, cell: Cell)
    requires Coherent(p) && Coherent(f) && DeltaOp(f, p, now, op) && c in Commands(op) && Touches(c, a)
    ensures Owned(a)
    ensures !Shaken(p, f, a) && Agrees(naming, p, a, cell) ==> Agrees(naming, p, a, Effect(c, cell))
  {
    if op.Upsert? || op.Delete? {
      if a.EdgeMember? {
        DropConfined(naming, p, f, now, op, c, a, cell);
      } else {
        EntityCommandConfined(naming, p, f, now, op, c, a, cell);
      }
    } else {
      EdgeCommandConfined(naming, p, f, now, op, c, a, cell);
    }
  }

  lemma IssuedConfined(naming: Naming, p: Snap, f: Snap, now: int, c: Command, a: Atom, cell: Cell)
    requires Coherent(p) && Coherent(f) && FromDelta(f, p, now, c) && Touches(c, a)
    ensures Owned(a)
    ensures !Shaken(p, f, a) && Agrees(naming, p, a, cell) ==> Agrees(naming, p, a, Effect(c, cell))
  {
    var op :| DeltaOp(f, p, now, op) && c in Commands(op);
    CommandConfined(naming, p, f, now, op, c, a, cell);
  }

  lemma {:induction false} CommandsConfined(naming: Naming, p: Snap, f: Snap, now: int, cs: seq<Command>, a: Atom,
                                            cell: Cell)
    requires Coherent(p) && Coherent(f)
    requires forall c | c in cs :: FromDelta(f, p, now, c)
    ensures !Owned(a) ==> ActAll(cs, a, cell) == cell
    ensures !Shaken(p, f, a) && Agrees(naming, p, a, cell) ==> Agrees(naming, p, a, ActAll(cs, a, cell))
  {
    if cs != [] {
      var init, last := cs[..|cs| - 1], cs[|cs| - 1];
      CommandsConfined(naming, p, f, now, init, a, cell);
      if Touches(last, a) {
        IssuedConfined(naming, p, f, now, last, a, ActAll(init, a, cell));
      }
    }
  }

  /** A failing flush keeps every fact in agreement with the previous snapshot, except those
      on which the snapshot it tried to write differs; and it touches only owned facts. */
  lemma PartialDeltaAgrees(naming: Naming, p: Snap, f: Snap, now: int, before: Store, after: Store, a: Atom)
    requires Coherent(p) && Coherent(f) && PartialDelta(f, p, now, before, after)
    ensures !Owned(a) ==> Look(after, a) == Look(before, a)
    ensures !Shaken(p, f, a) && Agrees(naming, p, a, Look(before, a)) ==> Agrees(naming, p, a, Look(after, a))
  {
    var kept :| after == ApplyAll(kept, before) &&
                forall c | c in kept :: FromDelta(f, p, now, c);
    LookApplyAll(kept, before, a);
    CommandsConfined(naming, p, f, now, kept, a, Look(before, a));
  }

  /** A complete flush writes the metadata of every entity it adds, over what was there. */
  lemma MetadataWritten(s: Snap, p: Snap, now: int, before: Store, after: Store, id: string, k: string)
    requires FullDelta(s, p, now, before, after)
    requires id in s.entities && id !in p.entities && id in s.metas && k in s.metas[id]
    ensures id in after.meta && k in after.meta[id] && after.meta[id][k] == s.metas[id][k]
    ensures id in before.meta ==> forall j | j in before.meta[id] && j !in s.metas[id] ::
              j in after.meta[id] && after.meta[id][j] == before.meta[id][j]
  {
    assert Look(after, MetaOf(id)) == DeltaCell(s, p, now, MetaOf(id), Look(before, MetaOf(id)));
    assert MetaOfId(s, id) != map[] by {
      assert k in MetaOfId(s, id);
    }
  }
}
