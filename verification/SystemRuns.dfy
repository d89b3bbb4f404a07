/** The whole system: the streams of all informers and of the flusher, interleaved command by
    command on one server. */
module SystemRuns {
  import opened Strings
  import opened Graph
  import opened GraphStore
  import opened Mapper
  import opened Ownership
  import opened Desires
  import opened Watcher
  import opened EventEffects
  import opened WatcherRuns
  import opened EdgeRuns
  import opened Drift
  import opened Interleaving
  import opened Index
  import opened BatchSet
  import opened Coherence
  import DeltaFlush
  import opened DeltaFacts

  // ----- the watcher keeps to its permissions

  lemma PodOfEmitter(id: string)
    requires IsEmitter(id)
    ensures KindOf(PodOf(id)) == POD || PodOf(id) == id
  {
    var i := LastIndexOf(id, '/');
    if KindOf(id) == CONTAINER && |CONTAINER| <= i {
      assert id[|CONTAINER|] == ':';
      var rest := id[|CONTAINER| + 1..i];
      assert POD + id[|CONTAINER|..i] == POD + ":" + rest;
      KindOfPrefixed(POD, rest);
    }
  }

  /** Only a pod has emitters of its own. */
  lemma EmitterOfPod(pid: string, id: string)
    requires IsEmitter(id) && PodOf(id) == pid && KindOf(pid) != CONTAINER
    ensures KindOf(pid) == POD
  {
    PodOfEmitter(id);
  }

  predicate InformerKind(kind: string) {
    kind in {POD, NODE, NAMESPACE, DEPLOYMENT, STATEFULSET, DAEMONSET, JOB, CRONJOB, HPA, ROLLOUT, SCALEDOBJECT}
  }

  lemma UpsertPermitted(pid: string, ent: DesiredEntity, ms: int, c: Command)
    requires EntityFine(pid, ent) && InformerKind(KindOf(pid)) && c in Commands(UpsertFor(ent, ms))
    ensures Permitted(KindOf(pid), c)
  {
    if IsEmitter(ent.id) {
      EmitterOfPod(pid, ent.id);
    }
    assert ent.md == map[] ==> NonEmpty(ent.md) == map[];
  }

  lemma DeletePermitted(pid: string, id: string, c: Command)
    requires IsEmitter(id) && PodOf(id) == pid && InformerKind(KindOf(pid)) && c in Commands(Delete(id, KindOf(id)))
    ensures Permitted(KindOf(pid), c)
  {
    EmitterOfPod(pid, id);
  }

  lemma EdgePermitted(pid: string, from: string, e: Edge)
    requires EdgeFine(pid, from, e) && InformerKind(KindOf(pid))
    ensures EdgeHome(from, e) == Sole(KindOf(pid))
  {
    if IsEmitter(from) {
      EmitterOfPod(pid, from);
    }
  }

  lemma UpsertsPermitted(pid: string, a: Desired, u: seq<Op>, op: Op, c: Command)
    requires Belongs(pid, a) && InformerKind(KindOf(pid)) && UpsertsOf(a.entities, u) && op in u && c in Commands(op)
    ensures Permitted(KindOf(pid), c)
  {
    var i :| 0 <= i < |u| && u[i] == op;
    assert a.entities[i] in a.entities;
    UpsertPermitted(pid, a.entities[i], op.ms, c);
  }

  lemma TurnPermitted(pid: string, b: Desired, a: Desired, ops: seq<Op>, op: Op, c: Command)
    requires Belongs(pid, b) && Belongs(pid, a) && Turn(b, a, ops) && InformerKind(KindOf(pid))
    requires op in ops && c in Commands(op)
    ensures Permitted(KindOf(pid), c)
  {
    var u, dels, l, ul :| Turns(b, a, u, dels, l, ul) && ops == u + dels + l + ul;
    if op in u {
      UpsertsPermitted(pid, a, u, op, c);
    } else if op in dels {
      EmitterBelongs(pid, b, op.id);
      DeletePermitted(pid, op.id, c);
    } else if op in l {
      EdgeBelongs(pid, a, op.from, op.edge);
      EdgePermitted(pid, op.from, op.edge);
    } else {
      EdgeBelongs(pid, b, op.from, op.edge);
      EdgePermitted(pid, op.from, op.edge);
    }
  }

  lemma KeyKind(o: Object)
    requires ValidObject(o)
    ensures KindOf(PrimaryId(o)) == KindOfObject(o) && InformerKind(KindOfObject(o))
  {
    PrimaryParts(o);
  }

  predicate OfKind(evs: seq<Event>, kind: string) {
    forall ev | ev in evs :: KindOfObject(Subject(ev)) == kind
  }

  /** Everything the handlers of one informer issue. */
  lemma {:induction false} HistoryPermitted(evs: seq<Event>, opss: seq<seq<Op>>, kind: string, c: Command)
    requires History(evs, opss) && OfKind(evs, kind) && c in CommandsOf(Flat(opss))
    ensures Permitted(kind, c)
  {
    var init, opss', ev, ops := evs[..|evs| - 1], opss[..|evs| - 1], evs[|evs| - 1], opss[|evs| - 1];
    CommandsConcat(Flat(opss'), ops);
    if c in CommandsOf(Flat(opss')) {
      HistoryPermitted(init, opss', kind, c);
    } else {
      CommandFromOp(ops, c);
      var op :| op in ops && c in Commands(op);
      assert ev in evs;
      EventPermitted(LiveAfter(init), ev, ops, op, c);
    }
  }

  lemma EventPermitted(live: Live, ev: Event, ops: seq<Op>, op: Op, c: Command)
    requires Happens(live, ev, ops) && op in ops && c in Commands(op)
    ensures Permitted(KindOfObject(Subject(ev)), c)
  {
    EventBelongs(live, ev);
    IssuesTurn(live, ev, ops);
    KeyKind(Subject(ev));
    TurnPermitted(WatcherRuns.Key(ev), Believed(ev), Wanted(ev), ops, op, c);
  }

  // ----- the whole system

  /** The events each informer delivers, and what its handlers issue. */
  type Deliveries = string -> seq<Event>
  type Issuance = string -> seq<seq<Op>>

  ghost predicate Interleaves(tr: Trace, evs: Deliveries, opss: Issuance) {
    && (forall p | p in tr && p.0 == OTEL :: Permitted(OTEL, p.1))
    && forall kind | kind != OTEL :: OneInformer(tr, kind, evs(kind), opss(kind))
  }

  ghost predicate OneInformer(tr: Trace, kind: string, evs: seq<Event>, opss: seq<seq<Op>>) {
    History(evs, opss) && OfKind(evs, kind) && Project(tr, kind) == CommandsOf(Flat(opss))
  }

  lemma SystemPermitted(tr: Trace, evs: Deliveries, opss: Issuance)
    requires Interleaves(tr, evs, opss)
    ensures AllPermitted(tr)
  {
    forall p | p in tr ensures Permitted(p.0, p.1) {
      if p.0 != OTEL {
        Projected(tr, p.0, p.1);
        assert (p.0, p.1) == p && OneInformer(tr, p.0, evs(p.0), opss(p.0));
        HistoryPermitted(evs(p.0), opss(p.0), p.0, p.1);
      }
    }
  }

  /** What the objects of all informers that are alive imply. */
  ghost predicate ImpliedBySomeone(evs: Deliveries, from: string, e: Edge) {
    exists kind :: kind != OTEL && Implied(LiveAfter(evs(kind)), from, e)
  }

  lemma HomeStream(tr: Trace, evs: Deliveries, opss: Issuance, a: Atom, cell: Cell)
    requires Interleaves(tr, evs, opss) && HomeOf(a).Sole? && HomeOf(a).source != OTEL
    ensures ActAll(All(tr), a, cell) == ActOps(Flat(opss(HomeOf(a).source)), a, cell)
    ensures OneInformer(tr, HomeOf(a).source, evs(HomeOf(a).source), opss(HomeOf(a).source))
  {
    var kind := HomeOf(a).source;
    SystemPermitted(tr, evs, opss);
    SoleFact(tr, a, cell);
    assert OneInformer(tr, kind, evs(kind), opss(kind));
    ActCommandsOf(Flat(opss(kind)), a, cell);
  }

  lemma {:induction false} LiveKinds(evs: seq<Event>, opss: seq<seq<Op>>, kind: string)
    requires History(evs, opss) && OfKind(evs, kind)
    ensures forall k | k in LiveAfter(evs) :: KindOf(k) == kind && InformerKind(kind)
  {
    if evs != [] {
      LiveKinds(evs[..|evs| - 1], opss[..|evs| - 1], kind);
      assert evs[|evs| - 1] in evs;
      KeyKind(Subject(evs[|evs| - 1]));
    }
  }

  /** Only the informer at whose home an edge is can have objects that imply it. */
  lemma ImpliedAtHome(tr: Trace, kind: string, evs: seq<Event>, opss: seq<seq<Op>>, from: string, e: Edge)
    requires OneInformer(tr, kind, evs, opss) && Implied(LiveAfter(evs), from, e)
    ensures EdgeHome(from, e) == Sole(kind)
  {
    var live := LiveAfter(evs);
    var k :| k in live && HasEdge(live[k].d, from, e);
    LivesFine(evs, opss);
    LiveKinds(evs, opss, kind);
    EdgeBelongs(k, live[k].d, from, e);
    EdgePermitted(k, from, e);
  }

  lemma KindIsNotOtel(id: string)
    ensures KindOf(id) != OTEL
  {
    assert OTEL[4] == ':';
  }

  lemma StructuralHome(from: string, e: Edge)
    requires e.kind.Structural() && !IsRelation(from)
    ensures EdgeHome(from, e).Sole? && EdgeHome(from, e).source != OTEL
    ensures SharedEdge(from, e) ==> EdgeHome(from, e) == Sole(NODE)
  {
    KindIsNotOtel(EdgeOwner(from, e));
  }

  /** The informer that alone writes a structural edge. */
  function HomeKind(from: string, e: Edge): string
    requires e.kind.Structural() && !IsRelation(from)
  {
    StructuralHome(from, e);
    EdgeHome(from, e).source
  }

  /** With every informer and the flusher writing at once, in any interleaving of their commands
      and whatever becomes of the ReplicaSet cache: a structural edge is on the server if and
      only if the last event of its informer that gained or lost it gained it. */
  lemma SystemLastChange(tr: Trace, evs: Deliveries, opss: Issuance, from: string, e: Edge)
    requires Interleaves(tr, evs, opss) && e.kind.Structural() && !IsRelation(from)
    ensures var mine := evs(HomeKind(from, e));
            ActAll(All(tr), EdgeMember(from, e), Absent) == Shown(GainedLast(mine, |mine|, from, e))
  {
    StructuralHome(from, e);
    var kind := HomeKind(from, e);
    HomeStream(tr, evs, opss, EdgeMember(from, e), Absent);
    FinallyLastChange(evs(kind), opss(kind), from, e);
  }

  lemma FinallyLastChange(evs: seq<Event>, opss: seq<seq<Op>>, from: string, e: Edge)
    requires History(evs, opss)
    ensures ActOps(Flat(opss), EdgeMember(from, e), Absent) == Shown(GainedLast(evs, |evs|, from, e))
  {
    LastChangeDecides(evs, opss, |evs|, from, e, Absent);
    assert opss[..|evs|] == opss;
  }

  lemma OnlyPodsDrift(evs: seq<Event>, kind: string)
    requires OfKind(evs, kind) && kind != POD
    ensures OwnersAlwaysFit(evs)
  {
    NoPodNoDrift(evs);
  }

  /** As long as the owners of pods fit, in any interleaving: the structural edges on the
      server, the region-zone pairs excepted, are exactly those that the live objects imply. */
  lemma SystemEdgesExact(tr: Trace, evs: Deliveries, opss: Issuance, from: string, e: Edge)
    requires Interleaves(tr, evs, opss) && e.kind.Structural() && !IsRelation(from) && !SharedEdge(from, e)
    requires OwnersAlwaysFit(evs(POD))
    ensures ActAll(All(tr), EdgeMember(from, e), Absent) == Shown(ImpliedBySomeone(evs, from, e))
  {
    StructuralHome(from, e);
    var kind := EdgeHome(from, e).source;
    HomeStream(tr, evs, opss, EdgeMember(from, e), Absent);
    if kind != POD {
      OnlyPodsDrift(evs(kind), kind);
    }
    EdgesAreTheUnion(evs(kind), opss(kind), from, e);
    if ImpliedBySomeone(evs, from, e) {
      var k :| k != OTEL && Implied(LiveAfter(evs(k)), from, e);
      ImpliedAtHome(tr, k, evs(k), opss(k), from, e);
    }
    assert Implied(LiveAfter(evs(kind)), from, e) <==>
           EdgeOwner(from, e) in LiveAfter(evs(kind)) && HasEdge(LiveAfter(evs(kind))[EdgeOwner(from, e)].d, from, e);
  }

  lemma SharedIsNoRelation(from: string, e: Edge)
    requires SharedEdge(from, e)
    ensures !IsRelation(from)
  {
  }

  /** The shared pairs: at most what the live nodes imply. */
  lemma SystemSharedBounded(tr: Trace, evs: Deliveries, opss: Issuance, from: string, e: Edge)
    requires Interleaves(tr, evs, opss) && e.kind.Structural() && SharedEdge(from, e)
    requires ActAll(All(tr), EdgeMember(from, e), Absent) != Absent
    ensures ActAll(All(tr), EdgeMember(from, e), Absent) == Member && Implied(LiveAfter(evs(NODE)), from, e)
  {
    SharedIsNoRelation(from, e);
    StructuralHome(from, e);
    HomeStream(tr, evs, opss, EdgeMember(from, e), Absent);
    StoredEdgesAreImplied(evs(NODE), opss(NODE), from, e);
  }

  /** Pods and containers on the server are exactly those of the live pods. */
  lemma SystemEmittersExact(tr: Trace, evs: Deliveries, opss: Issuance, id: string, at: Atom)
    requires Interleaves(tr, evs, opss) && IsEmitter(id) && Presence(at, id)
    ensures ActAll(All(tr), at, Absent) != Absent <==> EntityImplied(LiveAfter(evs(POD)), id)
    ensures ProperCore(id, ActAll(All(tr), at, Absent))
  {
    EmitterHome(id, at);
    HomeStream(tr, evs, opss, at, Absent);
    EmittersExact(evs(POD), opss(POD), id, at);
  }

  lemma EmitterHome(id: string, at: Atom)
    requires IsEmitter(id) && Presence(at, id)
    ensures HomeOf(at) == Sole(POD) && POD != OTEL
  {
    KindIsNotOtel(POD);
  }

  /** What the flusher owns is as if the flusher were alone. */
  lemma SystemLeavesFlusherAlone(tr: Trace, evs: Deliveries, opss: Issuance, a: Atom, cell: Cell)
    requires Interleaves(tr, evs, opss) && HomeOf(a) == Sole(OTEL)
    ensures ActAll(All(tr), a, cell) == ActAll(Project(tr, OTEL), a, cell)
  {
    SystemPermitted(tr, evs, opss);
    SoleFact(tr, a, cell);
  }

  /** Of the facts the flusher owns, a watcher's command can change only relationship edges on
      a pod or container, and only by deleting that entity: nothing else of the flusher's is
      ever put in doubt by the watcher. */
  lemma WatcherDisturbs(source: string, c: Command, a: Atom)
    requires Permitted(source, c) && source != OTEL && Owned(a) && Touches(c, a)
    ensures HomeOf(a).Mixed? && c == DelEntity(a.from)
  {
    if HomeOf(a).Sole? {
      OnlyHomeWrites(source, c, a);
    }
  }

  // ----- entities that several informers write

  predicate Reached(cs: seq<Command>, a: Atom) {
    exists c :: c in cs && Touches(c, a)
  }

  lemma {:induction false} JointStream(cs: seq<Command>, source: string, a: Atom)
    requires HomeOf(a).Joint? && forall c | c in cs :: Permitted(source, c)
    ensures ActAll(cs, a, Absent) != Absent <==> Reached(cs, a)
  {
    if cs != [] {
      var init, last := cs[..|cs| - 1], cs[|cs| - 1];
      JointStream(init, source, a);
      assert cs == init + [last];
      assert last in cs;
      if Touches(last, a) {
        JointWrite(source, last, a, ActAll(init, a, Absent));
      }
    }
  }

  lemma PresenceIsJoint(id: string, at: Atom)
    requires Presence(at, id) && !IsEmitter(id) && !IsRelation(id)
    ensures HomeOf(at).Joint?
  {
  }

  lemma OtelSparesJoint(c: Command, a: Atom)
    requires Permitted(OTEL, c) && HomeOf(a).Joint?
    ensures !Touches(c, a)
  {
  }

  ghost predicate EverImpliedBySomeone(evs: Deliveries, id: string) {
    exists kind :: kind != OTEL && EverImplied(evs(kind), id)
  }

  lemma ReachedIffImplied(tr: Trace, evs: Deliveries, opss: Issuance, kind: string, id: string, at: Atom)
    requires Interleaves(tr, evs, opss) && kind != OTEL
    requires !IsEmitter(id) && !IsRelation(id) && Presence(at, id)
    ensures Reached(Project(tr, kind), at) <==> EverImplied(evs(kind), id)
  {
    assert OneInformer(tr, kind, evs(kind), opss(kind));
    PresenceIsJoint(id, at);
    forall c | c in Project(tr, kind) ensures Permitted(kind, c) {
      HistoryPermitted(evs(kind), opss(kind), kind, c);
    }
    JointStream(Project(tr, kind), kind, at);
    ActCommandsOf(Flat(opss(kind)), at, Absent);
    OthersAccumulate(evs(kind), opss(kind), id, at);
  }

  /** Every other structural entity is on the server, index included, if and only if some
      delivery to some informer ever implied it. */
  lemma SystemOthersAccumulate(tr: Trace, evs: Deliveries, opss: Issuance, id: string, at: Atom)
    requires Interleaves(tr, evs, opss) && !IsEmitter(id) && !IsRelation(id) && Presence(at, id)
    ensures ActAll(All(tr), at, Absent) != Absent <==> EverImpliedBySomeone(evs, id)
  {
    SystemPermitted(tr, evs, opss);
    PresenceIsJoint(id, at);
    JointFact(tr, at, Absent);
    if Touched(tr, at) {
      var p :| p in tr && Touches(p.1, at);
      if p.0 == OTEL {
        OtelSparesJoint(p.1, at);
      }
      Projected(tr, p.0, p.1);
      assert (p.0, p.1) == p;
      assert Reached(Project(tr, p.0), at);
      ReachedIffImplied(tr, evs, opss, p.0, id, at);
    }
    if EverImpliedBySomeone(evs, id) {
      var kind :| kind != OTEL && EverImplied(evs(kind), id);
      ReachedIffImplied(tr, evs, opss, kind, id, at);
      var c :| c in Project(tr, kind) && Touches(c, at);
      Projected(tr, kind, c);
      assert (kind, c) in tr && Touches((kind, c).1, at);
    }
  }

  // ----- the index at operation boundaries

  lemma TurnWellKinded(pid: string, b: Desired, a: Desired, ops: seq<Op>)
    requires Belongs(pid, b) && Belongs(pid, a) && Turn(b, a, ops)
    ensures forall op | op in ops :: WellKinded(op)
  {
    var u, dels, l, ul :| Turns(b, a, u, dels, l, ul) && ops == u + dels + l + ul;
    UpsertsAre(a, u);
    assert EntitiesFine(a);
  }

  lemma {:induction false} HistoryWellKinded(evs: seq<Event>, opss: seq<seq<Op>>)
    requires History(evs, opss)
    ensures forall op | op in Flat(opss) :: WellKinded(op)
  {
    if evs != [] {
      var live, ev, ops := LiveAfter(evs[..|evs| - 1]), evs[|evs| - 1], opss[|evs| - 1];
      HistoryWellKinded(evs[..|evs| - 1], opss[..|evs| - 1]);
      EventBelongs(live, ev);
      IssuesTurn(live, ev, ops);
      TurnWellKinded(WatcherRuns.Key(ev), Believed(ev), Wanted(ev), ops);
    }
  }

  /** The watcher keeps the index exact, whatever it is told. */
  lemma WatcherKeepsIndex(evs: seq<Event>, opss: seq<seq<Op>>, st: Store)
    requires History(evs, opss) && Indexed(st) && Kinded(st)
    ensures Indexed(ApplyOps(Flat(opss), st)) && Kinded(ApplyOps(Flat(opss), st))
  {
    HistoryWellKinded(evs, opss);
    RunKeepsIndex(Flat(opss), st);
  }

  /** So do the operations of deltas, in any number and order. */
  lemma DeltasKeepIndex(s: Snap, p: Snap, now: int, ops: seq<Op>, st: Store)
    requires Coherent(s) && Coherent(p) && Indexed(st) && Kinded(st)
    requires forall op | op in ops :: DeltaFlush.DeltaOp(s, p, now, op)
    ensures Indexed(ApplyOps(ops, st)) && Kinded(ApplyOps(ops, st))
  {
    forall op | op in ops ensures WellKinded(op) {
      assert DeltaFlush.DeltaOp(s, p, now, op) && Shaped(s) && Shaped(p);
    }
    RunKeepsIndex(ops, st);
  }
}
