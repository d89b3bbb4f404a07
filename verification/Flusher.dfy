/** Whole runs of the flusher: requests merge into the shared set, snapshots are taken and
    written as deltas against the last successful one, flushes fail, and others write to the
    same server in between. */
module Flusher {
  import opened Wrappers
  import opened Graph
  import opened GraphStore
  import opened BatchSet
  import opened DeltaFlush
  import opened Coherence
  import opened DeltaFacts
  import Decimal

  /** A snapshot on its way to the server. */
  datatype Flight = Flight(snap: Snap, now: int)

  /** `doubt` are the owned facts whose agreement with `previous` is not guaranteed any more,
      `stirred` the facts that someone else changed while the current flush was under way. */
  datatype World = World(
    shared: Snap, previous: Snap, flight: Option<Flight>, store: Store, clock: int,
    doubt: iset<Atom>, stirred: iset<Atom>)

  datatype Step =
    | Export(local: Snap, now: int)           // a request's set is merged under the lock
    // expire (cutoff = now - TTL) and copy under the lock; `now` was read before the lock was
    // taken, so a merge may already be stamped later
    | TakeSnapshot(now: int, cutoff: int)
    | FlushOk(after: Store)
    | FlushFailed(after: Store)
    | Foreign(after: Store)                   // anything else that happens to the server

  ghost predicate Enabled(naming: Naming, w: World, step: Step) {
    match step
    case Export(local, now) =>
      w.clock <= now && Coherent(local) && Named(naming, local)
    case TakeSnapshot(now, cutoff) =>
      w.flight == None
    case FlushOk(after) =>
      w.flight.Some? &&
      forall a | a !in w.stirred ::
        Look(after, a) == DeltaCell(w.flight.value.snap, w.previous, w.flight.value.now, a, Look(w.store, a))
    case FlushFailed(after) =>
      w.flight.Some? &&
      exists done :: PartialDelta(w.flight.value.snap, w.previous, w.flight.value.now, w.store, done) &&
                     forall a | a !in w.stirred :: Look(after, a) == Look(done, a)
    case Foreign(after) => true
  }

  ghost function Changed(before: Store, after: Store): iset<Atom> {
    iset a | Look(before, a) != Look(after, a)
  }

  ghost function Next(w: World, step: Step): World {
    match step
    case Export(local, now) =>
      w.(shared := Merged(w.shared, local, now), clock := now)
    case TakeSnapshot(now, cutoff) =>
      var snap := Expired(w.shared, cutoff);
      w.(shared := snap, flight := Some(Flight(snap, now)), stirred := iset{})
    case FlushOk(after) =>
      if w.flight.None? then w else
      w.(previous := w.flight.value.snap, flight := None, store := after,
         doubt := iset a | a in w.doubt && (!Rewrites(w.previous, w.flight.value.snap, a) || a in w.stirred))
    case FlushFailed(after) =>
      if w.flight.None? then w else
      w.(flight := None, store := after,
         doubt := iset a | a in w.doubt || Shaken(w.previous, w.flight.value.snap, a))
    case Foreign(after) =>
      w.(store := after, doubt := w.doubt + Changed(w.store, after), stirred := w.stirred + Changed(w.store, after))
  }

  ghost function Run(w: World, steps: seq<Step>): World {
    if steps == [] then w else Next(Run(w, steps[..|steps| - 1]), steps[|steps| - 1])
  }

  ghost predicate Possible(naming: Naming, w: World, steps: seq<Step>) {
    steps == [] ||
    (Possible(naming, w, steps[..|steps| - 1]) &&
     Enabled(naming, Run(w, steps[..|steps| - 1]), steps[|steps| - 1]))
  }

  /** A process that has just started, in front of any server: whatever the server already
      says about the facts this process owns is in doubt. */
  ghost function Fresh(store: Store, clock: int): World {
    World(NOTHING, NOTHING, None, store, clock, iset a | Look(store, a) != Absent, iset{})
  }

  ghost predicate Fine(naming: Naming, s: Snap) {
    Coherent(s) && Named(naming, s)
  }

  ghost predicate Good(naming: Naming, w: World) {
    && Fine(naming, w.shared) && SeenBy(w.shared, w.clock)
    && Fine(naming, w.previous)
    && (w.flight.Some? ==> Fine(naming, w.flight.value.snap))
    && (forall a | a in w.stirred :: a in w.doubt)
    && forall a | Owned(a) && a !in w.doubt :: Agrees(naming, w.previous, a, Look(w.store, a))
  }

  lemma FreshIsGood(naming: Naming, store: Store, clock: int)
    ensures Good(naming, Fresh(store, clock))
  {
    NothingCoherent();
  }

  lemma FlushOkIsGood(naming: Naming, w: World, after: Store)
    requires Good(naming, w) && Enabled(naming, w, FlushOk(after))
    ensures Good(naming, Next(w, FlushOk(after)))
  {
    var snap, w' := w.flight.value.snap, Next(w, FlushOk(after));
    forall a | Owned(a) && a !in w'.doubt
      ensures Agrees(naming, snap, a, Look(after, a))
    {
      FullDeltaAgrees(naming, w.previous, snap, w.flight.value.now, a, Look(w.store, a));
    }
  }

  lemma FlushFailedIsGood(naming: Naming, w: World, after: Store)
    requires Good(naming, w) && Enabled(naming, w, FlushFailed(after))
    ensures Good(naming, Next(w, FlushFailed(after)))
  {
    var snap, now := w.flight.value.snap, w.flight.value.now;
    var done :| PartialDelta(snap, w.previous, now, w.store, done) &&
                forall a | a !in w.stirred :: Look(after, a) == Look(done, a);
    forall a | Owned(a) && a !in Next(w, FlushFailed(after)).doubt
      ensures Agrees(naming, w.previous, a, Look(after, a))
    {
      PartialDeltaAgrees(naming, w.previous, snap, now, w.store, done, a);
    }
  }

  lemma MergeIsFine(naming: Naming, s: Snap, local: Snap, clock: int, now: int)
    requires Fine(naming, s) && Fine(naming, local) && SeenBy(s, clock) && clock <= now
    ensures Fine(naming, Merged(s, local, now)) && SeenBy(Merged(s, local, now), now)
  {
    SeenLater(s, clock, now);
    MergeKeepsCoherence(s, local, now);
  }

  lemma ExpireIsFine(naming: Naming, s: Snap, cutoff: int, clock: int)
    requires Fine(naming, s) && SeenBy(s, clock)
    ensures Fine(naming, Expired(s, cutoff)) && SeenBy(Expired(s, cutoff), clock)
  {
    ExpireKeepsCoherence(s, cutoff, clock);
  }

  lemma ExportIsGood(naming: Naming, w: World, local: Snap, now: int)
    requires Good(naming, w) && Enabled(naming, w, Export(local, now))
    ensures Good(naming, Next(w, Export(local, now)))
  {
    MergeIsFine(naming, w.shared, local, w.clock, now);
  }

  lemma SnapshotIsGood(naming: Naming, w: World, now: int, cutoff: int)
    requires Good(naming, w) && Enabled(naming, w, TakeSnapshot(now, cutoff))
    ensures Good(naming, Next(w, TakeSnapshot(now, cutoff)))
  {
    ExpireIsFine(naming, w.shared, cutoff, w.clock);
  }

  lemma ForeignIsGood(naming: Naming, w: World, after: Store)
    requires Good(naming, w)
    ensures Good(naming, Next(w, Foreign(after)))
  {
  }

  lemma StepIsGood(naming: Naming, w: World, step: Step)
    requires Good(naming, w) && Enabled(naming, w, step)
    ensures Good(naming, Next(w, step))
  {
    match step
    case Export(local, now) => ExportIsGood(naming, w, local, now);
    case TakeSnapshot(now, cutoff) => SnapshotIsGood(naming, w, now, cutoff);
    case FlushOk(after) => FlushOkIsGood(naming, w, after);
    case FlushFailed(after) => FlushFailedIsGood(naming, w, after);
    case Foreign(after) => ForeignIsGood(naming, w, after);
  }

  /** In every run, from any server contents, with any failures and any foreign writes: the
      server agrees with the last successfully flushed snapshot on every owned fact that is
      not in doubt. */
  lemma {:induction false} RunsAgree(naming: Naming, store: Store, clock: int, steps: seq<Step>)
    requires Possible(naming, Fresh(store, clock), steps)
    ensures Good(naming, Run(Fresh(store, clock), steps))
    decreases |steps|
  {
    if steps == [] {
      FreshIsGood(naming, store, clock);
    } else {
      RunsAgree(naming, store, clock, steps[..|steps| - 1]);
      StepIsGood(naming, Run(Fresh(store, clock), steps[..|steps| - 1]), steps[|steps| - 1]);
    }
  }

  // ----- facts that nothing puts in doubt

  /** The step neither fails half-way over this fact nor changes it from outside. */
  ghost predicate Undisturbed(w: World, step: Step, a: Atom) {
    && (step.FlushFailed? ==> w.flight.Some? && !Shaken(w.previous, w.flight.value.snap, a))
    && (step.Foreign? ==> Look(step.after, a) == Look(w.store, a))
  }

  ghost predicate AllUndisturbed(w: World, steps: seq<Step>, a: Atom) {
    steps == [] ||
    (AllUndisturbed(w, steps[..|steps| - 1], a) && Undisturbed(Run(w, steps[..|steps| - 1]), steps[|steps| - 1], a))
  }

  lemma {:induction false} NoDoubt(w: World, steps: seq<Step>, a: Atom)
    requires AllUndisturbed(w, steps, a) && a !in w.doubt
    ensures a !in Run(w, steps).doubt
    decreases |steps|
  {
    if steps != [] {
      NoDoubt(w, steps[..|steps| - 1], a);
    }
  }

  function DeltaCores(s: Snap, p: Snap, now: int, cores: map<string, Core>): map<string, Core> {
    map id | id in cores.Keys + s.entities.Keys && (AddedId(s, p, id) || (id in cores && !RemovedId(s, p, id))) ::
      if AddedId(s, p, id) then Core(id, s.entities[id].kind, s.entities[id].name, Decimal.Print(now)) else cores[id]
  }

  function DeltaMetas(s: Snap, p: Snap, metas: map<string, map<string, string>>): map<string, map<string, string>> {
    map id | id in metas.Keys + s.entities.Keys &&
             ((AddedId(s, p, id) && MetaOfId(s, id) != map[]) || (id in metas && !RemovedId(s, p, id))) ::
      (if id in metas then metas[id] else map[]) + (if AddedId(s, p, id) then MetaOfId(s, id) else map[])
  }

  /** The store that a complete flush from `p` to `s` makes of `st`. */
  function DeltaStore(s: Snap, p: Snap, now: int, st: Store): Store {
    Store(
      DeltaCores(s, p, now, st.core),
      DeltaMetas(s, p, st.meta),
      set q | q in st.edges + SnapEdges(s) &&
              (AddedEdge(s, p, Key(q.0, q.1)) ||
               (q in st.edges && !RemovedEdge(s, p, Key(q.0, q.1)) && !RemovedId(s, p, q.0))),
      set q | q in st.byKind + SnapKinds(s) &&
              ((AddedId(s, p, q.1) && q.0 == s.entities[q.1].kind) ||
               (q in st.byKind && !(RemovedId(s, p, q.1) && q.0 == p.entities[q.1].kind))),
      set id | id in st.ids + s.entities.Keys && (AddedId(s, p, id) || (id in st.ids && !RemovedId(s, p, id))))
  }

  function SnapEdges(s: Snap): set<(string, Edge)> {
    set k | k in s.edges :: (k.from, EdgeOf(k))
  }

  function SnapKinds(s: Snap): set<(string, string)> {
    set id | id in s.entities :: (s.entities[id].kind, id)
  }

  lemma DeltaMetasAt(s: Snap, p: Snap, metas: map<string, map<string, string>>, id: string)
    ensures AddedId(s, p, id) && MetaOfId(s, id) != map[] ==>
              id in DeltaMetas(s, p, metas) &&
              DeltaMetas(s, p, metas)[id] == (if id in metas then metas[id] else map[]) + MetaOfId(s, id)
    ensures RemovedId(s, p, id) ==> id !in DeltaMetas(s, p, metas)
    ensures !(AddedId(s, p, id) && MetaOfId(s, id) != map[]) && !RemovedId(s, p, id) ==>
              (id in DeltaMetas(s, p, metas) <==> id in metas) &&
              (id in metas ==> DeltaMetas(s, p, metas)[id] == metas[id])
  {
    if id in metas {
      assert metas[id] + map[] == metas[id];
    }
  }

  lemma DeltaStoreHashes(s: Snap, p: Snap, now: int, st: Store, id: string)
    ensures Look(DeltaStore(s, p, now, st), CoreOf(id)) == DeltaCell(s, p, now, CoreOf(id), Look(st, CoreOf(id)))
    ensures Look(DeltaStore(s, p, now, st), MetaOf(id)) == DeltaCell(s, p, now, MetaOf(id), Look(st, MetaOf(id)))
  {
    DeltaMetasAt(s, p, st.meta, id);
  }

  lemma DeltaStoreId(s: Snap, p: Snap, now: int, st: Store, id: string)
    ensures Look(DeltaStore(s, p, now, st), IdMember(id)) == DeltaCell(s, p, now, IdMember(id), Look(st, IdMember(id)))
  {
  }

  lemma DeltaStoreKind(s: Snap, p: Snap, now: int, st: Store, kind: string, id: string)
    ensures Look(DeltaStore(s, p, now, st), KindMember(kind, id)) ==
            DeltaCell(s, p, now, KindMember(kind, id), Look(st, KindMember(kind, id)))
  {
    assert id in s.entities ==> (s.entities[id].kind, id) in SnapKinds(s);
  }

  lemma DeltaStoreEdge(s: Snap, p: Snap, now: int, st: Store, id: string, e: Edge)
    ensures Look(DeltaStore(s, p, now, st), EdgeMember(id, e)) ==
            DeltaCell(s, p, now, EdgeMember(id, e), Look(st, EdgeMember(id, e)))
  {
    var k := Key(id, e);
    assert EdgeOf(k) == e;
    assert k in s.edges ==> (id, e) in SnapEdges(s);
  }

  lemma DeltaStoreIsFull(s: Snap, p: Snap, now: int, st: Store)
    ensures FullDelta(s, p, now, st, DeltaStore(s, p, now, st))
  {
    forall a
      ensures Look(DeltaStore(s, p, now, st), a) == DeltaCell(s, p, now, a, Look(st, a))
    {
      match a
      case CoreOf(id) => DeltaStoreHashes(s, p, now, st, id);
      case MetaOf(id) => DeltaStoreHashes(s, p, now, st, id);
      case IdMember(id) => DeltaStoreId(s, p, now, st, id);
      case KindMember(kind, id) => DeltaStoreKind(s, p, now, st, kind, id);
      case EdgeMember(from, e) => DeltaStoreEdge(s, p, now, st, from, e);
    }
  }

  /** Writing `s` in full to an empty server. */
  function FullWrite(s: Snap, now: int): Store {
    DeltaStore(s, NOTHING, now, EMPTY)
  }

  lemma FullWriteAgrees(naming: Naming, s: Snap, now: int, a: Atom)
    requires Coherent(s) && Named(naming, s)
    ensures Agrees(naming, s, a, Look(FullWrite(s, now), a))
  {
    DeltaStoreIsFull(s, NOTHING, now, EMPTY);
    NothingCoherent();
    FullDeltaAgrees(naming, NOTHING, s, now, a, Look(EMPTY, a));
  }

  /** Two readings of a fact are the same up to the last-seen field (and to the name, unless
      names follow from IDs). */
  predicate Same(naming: Naming, x: Cell, y: Cell) {
    if x.Hash? && y.Hash? then
      x.core.id == y.core.id && x.core.kind == y.core.kind && (naming.NameOf? ==> x.core.name == y.core.name)
    else x == y
  }

  /** Incremental writing refines full writing: a fact that the server did not hold at first
      and that no failure or foreign write disturbs reads, throughout the run, as if the last
      flushed snapshot had been written in full to an empty server. */
  lemma RefinesFullWrite(naming: Naming, store: Store, clock: int, steps: seq<Step>, now: int, a: Atom)
    requires Possible(naming, Fresh(store, clock), steps) && AllUndisturbed(Fresh(store, clock), steps, a)
    requires Owned(a) && Look(store, a) == Absent
    ensures var w := Run(Fresh(store, clock), steps);
            Same(naming, Look(w.store, a), Look(FullWrite(w.previous, now), a))
  {
    RunsAgree(naming, store, clock, steps);
    NoDoubt(Fresh(store, clock), steps, a);
    var w := Run(Fresh(store, clock), steps);
    FullWriteAgrees(naming, w.previous, now, a);
  }

  /** A flush, failing or not, leaves every fact of the other writers alone. */
  lemma FlushesAreConfined(naming: Naming, w: World, step: Step, a: Atom)
    requires Good(naming, w) && Enabled(naming, w, step) && (step.FlushOk? || step.FlushFailed?)
    requires !Owned(a) && a !in w.stirred
    ensures Look(Next(w, step).store, a) == Look(w.store, a)
  {
    var snap, now := w.flight.value.snap, w.flight.value.now;
    if step.FlushOk? {
      FullDeltaConfined(w.previous, snap, now, a, Look(w.store, a));
    } else {
      var done :| PartialDelta(snap, w.previous, now, w.store, done) &&
                  forall b | b !in w.stirred :: Look(step.after, b) == Look(done, b);
      PartialDeltaAgrees(naming, w.previous, snap, now, w.store, done, a);
    }
  }
}
