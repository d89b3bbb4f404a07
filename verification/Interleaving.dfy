/** Several writers issuing commands to one server at the same time. Every fact has a home:
    one writer alone writes it, or all writers write the same value to it. */
module Interleaving {
  import opened Graph
  import opened GraphStore
  import opened Mapper
  import opened Ownership
  import opened BatchSet
  import opened DeltaFlush
  import opened Coherence

  /** The span-metric flusher; every other source is an informer, named by its object kind,
      which has no ':' in it. */
  const OTEL := "otel:"

  /** The commands in the order the server executes them, each with its source. */
  type Trace = seq<(string, Command)>

  function All(tr: Trace): seq<Command> {
    if tr == [] then [] else All(tr[..|tr| - 1]) + [tr[|tr| - 1].1]
  }

  function Project(tr: Trace, source: string): seq<Command> {
    if tr == [] then []
    else
      var init, last := Project(tr[..|tr| - 1], source), tr[|tr| - 1];
      if last.0 == source then init + [last.1] else init
  }

  lemma ActSnoc(cs: seq<Command>, c: Command, a: Atom, cell: Cell)
    ensures ActAll(cs + [c], a, cell) == Act(c, a, ActAll(cs, a, cell))
  {
    assert (cs + [c])[..|cs|] == cs;
  }

  /** When one source alone touches a fact, the others might as well not exist. */
  lemma {:induction false} SoleSource(tr: Trace, source: string, a: Atom, cell: Cell)
    requires forall p | p in tr :: Touches(p.1, a) ==> p.0 == source
    ensures ActAll(All(tr), a, cell) == ActAll(Project(tr, source), a, cell)
  {
    if tr != [] {
      var init, last := tr[..|tr| - 1], tr[|tr| - 1];
      SoleSource(init, source, a, cell);
      ActSnoc(All(init), last.1, a, cell);
      ActSnoc(Project(init, source), last.1, a, cell);
    }
  }

  // ----- homes

  datatype Home =
    | Sole(source: string)
    | Joint  // several sources write it, always the same value up to the last-seen time
    | Mixed  // a relationship edge stored on a pod or container

  function EntityHome(id: string): Home {
    if IsRelation(id) then Sole(OTEL) else if IsEmitter(id) then Sole(POD) else Joint
  }

  function MetaHome(id: string): Home {
    if IsRelation(id) then Sole(OTEL) else if IsEmitter(id) then Sole(POD) else Sole(KindOf(id))
  }

  function EdgeHome(from: string, e: Edge): Home {
    if IsRelation(from) then Sole(OTEL)
    else if !e.kind.Structural() then if IsEmitter(from) then Mixed else Sole(OTEL)
    else if IsEmitter(from) then Sole(POD)
    else if SharedEdge(from, e) then Sole(NODE)
    else Sole(KindOf(EdgeOwner(from, e)))
  }

  function HomeOf(a: Atom): Home {
    match a
    case CoreOf(id) => EntityHome(id)
    case IdMember(id) => EntityHome(id)
    case KindMember(kind, id) => EntityHome(id)
    case MetaOf(id) => MetaHome(id)
    case EdgeMember(from, e) => EdgeHome(from, e)
  }

  predicate MayWrite(source: string, home: Home) {
    home == Sole(source) || (home.Joint? && source != OTEL)
  }

  /** Commands that a source of this system issues. */
  predicate Permitted(source: string, c: Command) {
    match c
    case HSetCore(id, kind, name, _) =>
      MayWrite(source, EntityHome(id)) && kind == KindOf(id) && (!IsRelation(id) ==> name == ShortName(id))
    case HSetMeta(id, _) => MayWrite(source, MetaHome(id))
    case DelEntity(id) => EntityHome(id) == Sole(source)
    case SAddId(id) => MayWrite(source, EntityHome(id))
    case SRemId(id) => EntityHome(id) == Sole(source)
    case SAddKind(kind, id) => MayWrite(source, EntityHome(id)) && kind == KindOf(id)
    case SRemKind(kind, id) => EntityHome(id) == Sole(source) && kind == KindOf(id)
    case SAddEdge(from, e) => EdgeHome(from, e) == Sole(source) || (EdgeHome(from, e) == Mixed && source == OTEL)
    case SRemEdge(from, e) => EdgeHome(from, e) == Sole(source) || (EdgeHome(from, e) == Mixed && source == OTEL)
  }

  predicate AllPermitted(tr: Trace) {
    forall p | p in tr :: Permitted(p.0, p.1)
  }

  lemma OnlyHomeWrites(source: string, c: Command, a: Atom)
    requires Permitted(source, c) && Touches(c, a) && HomeOf(a).Sole?
    ensures HomeOf(a) == Sole(source)
  {
    if a.EdgeMember? {
      KindsApart(a.from);
    } else {
      KindsApart(a.id);
    }
  }

  /** A reading without the last-seen time. */
  function Norm(cell: Cell): Cell {
    if cell.Hash? then Hash(cell.core.(lastSeen := "")) else cell
  }

  function JointValue(a: Atom): Cell {
    if a.CoreOf? then Hash(Core(a.id, KindOf(a.id), ShortName(a.id), "")) else Member
  }

  lemma JointWrite(source: string, c: Command, a: Atom, cell: Cell)
    requires Permitted(source, c) && Touches(c, a) && HomeOf(a).Joint?
    ensures Norm(Act(c, a, cell)) == JointValue(a)
  {
  }

  predicate Touched(tr: Trace, a: Atom) {
    exists p :: p in tr && Touches(p.1, a)
  }

  lemma TouchedSnoc(tr: Trace, a: Atom)
    requires tr != []
    ensures Touched(tr, a) <==> Touched(tr[..|tr| - 1], a) || Touches(tr[|tr| - 1].1, a)
  {
    assert tr == tr[..|tr| - 1] + [tr[|tr| - 1]];
    assert tr[|tr| - 1] in tr;
  }

  lemma {:induction false} JointFact(tr: Trace, a: Atom, cell: Cell)
    requires AllPermitted(tr) && HomeOf(a).Joint?
    ensures Norm(ActAll(All(tr), a, cell)) == if Touched(tr, a) then JointValue(a) else Norm(cell)
  {
    if tr != [] {
      var init, last := tr[..|tr| - 1], tr[|tr| - 1];
      JointFact(init, a, cell);
      ActSnoc(All(init), last.1, a, cell);
      TouchedSnoc(tr, a);
      assert last in tr;
      if Touches(last.1, a) {
        JointWrite(last.0, last.1, a, ActAll(All(init), a, cell));
      }
    }
  }

  lemma {:induction false} Projected(tr: Trace, source: string, c: Command)
    ensures c in Project(tr, source) <==> (source, c) in tr
  {
    if tr != [] {
      Projected(tr[..|tr| - 1], source, c);
      assert tr == tr[..|tr| - 1] + [tr[|tr| - 1]];
    }
  }

  /** The same streams, interleaved in two ways. */
  ghost predicate SameStreams(tr: Trace, tr': Trace) {
    forall source :: Project(tr, source) == Project(tr', source)
  }

  lemma ReorderedPermitted(tr: Trace, tr': Trace)
    requires AllPermitted(tr) && SameStreams(tr, tr')
    ensures AllPermitted(tr')
  {
    forall p | p in tr' ensures Permitted(p.0, p.1) {
      Projected(tr', p.0, p.1);
      Projected(tr, p.0, p.1);
      assert (p.0, p.1) == p;
    }
  }

  lemma SameTouched(tr: Trace, tr': Trace, a: Atom)
    requires SameStreams(tr, tr') && Touched(tr, a)
    ensures Touched(tr', a)
  {
    var p :| p in tr && Touches(p.1, a);
    Projected(tr, p.0, p.1);
    Projected(tr', p.0, p.1);
    assert (p.0, p.1) == p;
  }

  lemma SoleFact(tr: Trace, a: Atom, cell: Cell)
    requires AllPermitted(tr) && HomeOf(a).Sole?
    ensures ActAll(All(tr), a, cell) == ActAll(Project(tr, HomeOf(a).source), a, cell)
  {
    forall p | p in tr && Touches(p.1, a) ensures p.0 == HomeOf(a).source {
      OnlyHomeWrites(p.0, p.1, a);
    }
    SoleSource(tr, HomeOf(a).source, a, cell);
  }

  /** However the streams are interleaved, command by command, the server ends up the same on
      every fact up to the last-seen times, relationship edges on pods and containers excepted. */
  lemma InterleavingsAgree(tr: Trace, tr': Trace, a: Atom, cell: Cell)
    requires AllPermitted(tr) && SameStreams(tr, tr') && !HomeOf(a).Mixed?
    ensures Norm(ActAll(All(tr), a, cell)) == Norm(ActAll(All(tr'), a, cell))
  {
    ReorderedPermitted(tr, tr');
    if HomeOf(a).Sole? {
      SoleFact(tr, a, cell);
      SoleFact(tr', a, cell);
    } else {
      JointFact(tr, a, cell);
      JointFact(tr', a, cell);
      if Touched(tr, a) {
        SameTouched(tr, tr', a);
      } else if Touched(tr', a) {
        SameTouched(tr', tr, a);
      }
    }
  }

  /** The exception is real: deleting a pod drops the relationship edges stored on it, and
      whether one survives depends on the order. */
  lemma MixedDependsOnOrder(pod: string, to: string)
    requires KindOf(pod) == POD
    ensures var add, del := (OTEL, SAddEdge(pod, Edge(Calls, to, ""))), (POD, DelEntity(pod));
            && AllPermitted([add, del]) && AllPermitted([del, add]) && SameStreams([add, del], [del, add])
            && ActAll(All([add, del]), EdgeMember(pod, Edge(Calls, to, "")), Absent) == Absent
            && ActAll(All([del, add]), EdgeMember(pod, Edge(Calls, to, "")), Absent) == Member
  {
    var add, del := (OTEL, SAddEdge(pod, Edge(Calls, to, ""))), (POD, DelEntity(pod));
    TwoCommands(add, del);
    TwoCommands(del, add);
    var a := EdgeMember(pod, Edge(Calls, to, ""));
    ActSnoc([add.1], del.1, a, Absent);
    ActSnoc([del.1], add.1, a, Absent);
    ActSnoc([], add.1, a, Absent);
    ActSnoc([], del.1, a, Absent);
    assert [] + [add.1] == [add.1] && [] + [del.1] == [del.1];
  }

  lemma TwoCommands(x: (string, Command), y: (string, Command))
    ensures All([x, y]) == [x.1] + [y.1]
    ensures forall source :: Project([x, y], source) ==
                             (if x.0 == source then [x.1] else []) + (if y.0 == source then [y.1] else [])
  {
    assert [x, y][..1] == [x] && [x][..0] == [];
    assert All([x]) == [x.1];
    forall source
      ensures Project([x, y], source) == (if x.0 == source then [x.1] else []) + (if y.0 == source then [y.1] else [])
    {
      assert Project([x], source) == if x.0 == source then [x.1] else [];
    }
  }

  /** A relationship edge on a pod or container follows the flusher alone as long as that
      entity is not deleted. */
  lemma MixedWithoutDeletion(tr: Trace, from: string, e: Edge, cell: Cell)
    requires AllPermitted(tr) && EdgeHome(from, e).Mixed? && forall p | p in tr :: p.1 != DelEntity(from)
    ensures ActAll(All(tr), EdgeMember(from, e), cell) == ActAll(Project(tr, OTEL), EdgeMember(from, e), cell)
  {
    SoleSource(tr, OTEL, EdgeMember(from, e), cell);
  }

  // ----- both writers keep to their permissions

  lemma RelationHome(id: string)
    requires IsRelation(id)
    ensures EntityHome(id) == MetaHome(id) == Sole(OTEL)
  {
  }

  /** Every command of an operation on a relationship entity, and on a relationship edge. */
  lemma RelationOpPermitted(op: Op, c: Command)
    requires c in Commands(op)
    requires op.Upsert? || op.Delete? ==> IsRelation(op.id) && op.kind == KindOf(op.id)
    requires op.Link? || op.Unlink? ==> RelationshipEdge(Key(op.from, op.edge))
    ensures Permitted(OTEL, c)
  {
    match op
    case Upsert(id, kind, name, ms, md) =>
      RelationHome(id);
      assert c == HSetCore(id, kind, name, ms) || c == SAddKind(kind, id) || c == SAddId(id) || c == HSetMeta(id, md);
    case Delete(id, kind) =>
      RelationHome(id);
      assert c == DelEntity(id) || c == SRemId(id) || c == SRemKind(kind, id);
    case Link(from, e) => RelationEdgeHome(from, e);
    case Unlink(from, e) => RelationEdgeHome(from, e);
  }

  lemma RelationEdgeHome(from: string, e: Edge)
    requires RelationshipEdge(Key(from, e))
    ensures EdgeHome(from, e) == Sole(OTEL) || EdgeHome(from, e) == Mixed
  {
  }

  lemma DeltaOpPermitted(s: Snap, p: Snap, now: int, op: Op, c: Command)
    requires Coherent(s) && Coherent(p) && DeltaOp(s, p, now, op) && c in Commands(op)
    ensures Permitted(OTEL, c)
  {
    assert Shaped(s) && Shaped(p);
    RelationOpPermitted(op, c);
  }

  /** Whatever part of a delta reaches the server, complete or not. */
  lemma DeltaPermitted(s: Snap, p: Snap, now: int, c: Command)
    requires Coherent(s) && Coherent(p) && FromDelta(s, p, now, c)
    ensures Permitted(OTEL, c)
  {
    var op :| DeltaOp(s, p, now, op) && c in Commands(op);
    DeltaOpPermitted(s, p, now, op, c);
  }
}
