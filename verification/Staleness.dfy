/** Pruning against the flusher: deltas write an entity's last-seen time when they add the entity
    and never again, so what pruning goes by is the time of that flush. */
module Staleness {
  import opened Wrappers
  import opened Graph
  import opened GraphStore
  import opened BatchSet
  import opened DeltaFlush
  import opened Coherence
  import opened DeltaFacts
  import opened Flusher
  import opened Builder
  import opened Derivation
  import Decimal
  import opened Prune

  /** For every entity of the last flushed snapshot, the time of the flush that added it and
      since which every flush has kept it. */
  ghost function AddedAt(w: World, steps: seq<Step>): map<string, int> {
    if steps == [] then map[]
    else
      var init, step := steps[..|steps| - 1], steps[|steps| - 1];
      NowAdded(Run(w, init), step, AddedAt(w, init))
  }

  ghost function NowAdded(w: World, step: Step, added: map<string, int>): map<string, int> {
    if step.FlushOk? && w.flight.Some? then
      map id | id in w.flight.value.snap.entities ::
        if id in w.previous.entities && id in added then added[id] else w.flight.value.now
    else added
  }

  /** The clock readings of flushes are 64-bit integers. */
  predicate Int64Times(steps: seq<Step>) {
    forall step | step in steps :: step.TakeSnapshot? ==> Decimal.IsInt64(step.now)
  }

  /** The entity's last-seen text is the time it was added at. */
  ghost predicate Dated(w: World, added: map<string, int>, id: string) {
    && added.Keys == w.previous.entities.Keys
    && (forall x | x in added :: Decimal.IsInt64(added[x]))
    && (w.flight.Some? ==> Decimal.IsInt64(w.flight.value.now))
    && (id in added ==>
          Look(w.store, CoreOf(id)).Hash? && Look(w.store, CoreOf(id)).core.lastSeen == Decimal.Print(added[id]))
    && CoreOf(id) !in w.stirred
  }

  /** A fact of the entity itself. */
  predicate OfEntity(a: Atom, id: string) {
    !a.EdgeMember? && a.id == id
  }

  /** Only adding or removing an entity touches its own facts. */
  lemma EntityOp(p: Snap, f: Snap, now: int, op: Op, c: Command, id: string, a: Atom)
    requires OfEntity(a, id) && DeltaOp(f, p, now, op) && c in Commands(op) && Touches(c, a)
    ensures (id in p.entities) != (id in f.entities)
  {
    assert op.Upsert? || op.Delete?;
  }

  lemma EntityCommand(p: Snap, f: Snap, now: int, c: Command, id: string, a: Atom)
    requires OfEntity(a, id) && FromDelta(f, p, now, c) && (id in p.entities <==> id in f.entities)
    ensures !Touches(c, a)
  {
    var op :| DeltaOp(f, p, now, op) && c in Commands(op);
    if Touches(c, a) {
      EntityOp(p, f, now, op, c, id, a);
    }
  }

  lemma UntouchedEntity(p: Snap, f: Snap, now: int, before: Store, after: Store, id: string, a: Atom)
    requires OfEntity(a, id) && PartialDelta(f, p, now, before, after) && (id in p.entities <==> id in f.entities)
    ensures Look(after, a) == Look(before, a)
  {
    var kept :| after == ApplyAll(kept, before) && forall c | c in kept :: FromDelta(f, p, now, c);
    forall c | c in kept ensures !Touches(c, a) {
      EntityCommand(p, f, now, c, id, a);
    }
    LookApplyAll(kept, before, a);
    ActUntouched(kept, a, Look(before, a));
  }

  lemma FlushOkKeepsDates(naming: Naming, w: World, after: Store, added: map<string, int>, id: string)
    requires Enabled(naming, w, FlushOk(after)) && Dated(w, added, id)
    ensures Dated(Next(w, FlushOk(after)), NowAdded(w, FlushOk(after), added), id)
  {
    var snap, now := w.flight.value.snap, w.flight.value.now;
    assert Look(after, CoreOf(id)) == DeltaCell(snap, w.previous, now, CoreOf(id), Look(w.store, CoreOf(id)));
  }

  lemma FlushFailedKeepsDates(naming: Naming, w: World, after: Store, added: map<string, int>, id: string)
    requires Enabled(naming, w, FlushFailed(after)) && Dated(w, added, id)
    requires Undisturbed(w, FlushFailed(after), CoreOf(id))
    ensures Dated(Next(w, FlushFailed(after)), added, id)
  {
    var snap, now := w.flight.value.snap, w.flight.value.now;
    var done :| PartialDelta(snap, w.previous, now, w.store, done) &&
                forall b | b !in w.stirred :: Look(after, b) == Look(done, b);
    UntouchedEntity(w.previous, snap, now, w.store, done, id, CoreOf(id));
  }

  lemma StepKeepsDates(naming: Naming, w: World, step: Step, added: map<string, int>, id: string)
    requires Enabled(naming, w, step) && Dated(w, added, id) && Undisturbed(w, step, CoreOf(id))
    requires step.TakeSnapshot? ==> Decimal.IsInt64(step.now)
    ensures Dated(Next(w, step), NowAdded(w, step, added), id)
  {
    match step
    case FlushOk(after) => FlushOkKeepsDates(naming, w, after, added, id);
    case FlushFailed(after) => FlushFailedKeepsDates(naming, w, after, added, id);
    case _ =>
  }

  lemma {:induction false} RunsAreDated(naming: Naming, store: Store, clock: int, steps: seq<Step>, id: string)
    requires Possible(naming, Fresh(store, clock), steps) && Int64Times(steps)
    requires AllUndisturbed(Fresh(store, clock), steps, CoreOf(id))
    ensures Dated(Run(Fresh(store, clock), steps), AddedAt(Fresh(store, clock), steps), id)
    decreases |steps|
  {
    if steps != [] {
      var w, init, last := Fresh(store, clock), steps[..|steps| - 1], steps[|steps| - 1];
      assert last in steps && forall step | step in init :: step in steps;
      RunsAreDated(naming, store, clock, init, id);
      StepKeepsDates(naming, Run(w, init), last, AddedAt(w, init), id);
    }
  }

  /** What pruning makes of one entity. */
  lemma PrunedOne(st: Store, cutoff: int, id: string, t: int)
    requires id in st.core && id in st.ids && st.core[id].lastSeen == Decimal.Print(t) && Decimal.IsInt64(t)
    ensures id !in Pruned(st, cutoff).core <==> t < cutoff
  {
    Decimal.ParsePrint(t);
  }

  ghost predicate NothingAt(store: Store, id: string) {
    Look(store, CoreOf(id)) == Absent && Look(store, IdMember(id)) == Absent
  }

  ghost predicate LeftAlone(w: World, steps: seq<Step>, id: string) {
    AllUndisturbed(w, steps, CoreOf(id)) && AllUndisturbed(w, steps, IdMember(id))
  }

  /** Over every run, for an entity that the server did not hold at first and that no failure or
      foreign write disturbs: it is on the server exactly while the last flushed snapshot has it,
      and pruning then deletes it if and only if the flush that added it was before the cutoff,
      however recently it has been seen since. */
  lemma PrunedIffAddedBefore(naming: Naming, store: Store, clock: int, steps: seq<Step>, id: string, cutoff: int)
    requires Possible(naming, Fresh(store, clock), steps) && Int64Times(steps)
    requires IsRelation(id) && NothingAt(store, id) && LeftAlone(Fresh(store, clock), steps, id)
    ensures var w, added := Run(Fresh(store, clock), steps), AddedAt(Fresh(store, clock), steps);
            && (id in w.store.core <==> id in w.previous.entities) && (id in added <==> id in w.previous.entities)
            && (id in added ==> (id !in Pruned(w.store, cutoff).core <==> added[id] < cutoff))
  {
    var w := Run(Fresh(store, clock), steps);
    RunsAgree(naming, store, clock, steps);
    NoDoubt(Fresh(store, clock), steps, CoreOf(id));
    NoDoubt(Fresh(store, clock), steps, IdMember(id));
    RunsAreDated(naming, store, clock, steps, id);
    StoredAsFlushed(naming, w, id);
    var added := AddedAt(Fresh(store, clock), steps);
    if id in added {
      PrunedOne(w.store, cutoff, id, added[id]);
    }
  }

  lemma StoredAsFlushed(naming: Naming, w: World, id: string)
    requires Good(naming, w) && IsRelation(id) && CoreOf(id) !in w.doubt && IdMember(id) !in w.doubt
    ensures id in w.store.core <==> id in w.previous.entities
    ensures id in w.store.ids <==> id in w.previous.entities
  {
    assert Agrees(naming, w.previous, CoreOf(id), Look(w.store, CoreOf(id)));
    assert Agrees(naming, w.previous, IdMember(id), Look(w.store, IdMember(id)));
  }

  // ----- what the core holds in full

  /** With names that follow from IDs, the stored core is exactly that of the last flushed snapshot
      but for its time, which is that of the flush that added it. */
  lemma StoredCoreExactly(naming: Naming, store: Store, clock: int, steps: seq<Step>, id: string)
    requires naming.NameOf? && Possible(naming, Fresh(store, clock), steps) && Int64Times(steps)
    requires IsRelation(id) && NothingAt(store, id) && LeftAlone(Fresh(store, clock), steps, id)
    ensures var w, added := Run(Fresh(store, clock), steps), AddedAt(Fresh(store, clock), steps);
            id in w.previous.entities ==>
              var v := w.previous.entities[id];
              id in added && Look(w.store, CoreOf(id)) == Hash(Core(id, v.kind, v.name, Decimal.Print(added[id])))
  {
    var w := Run(Fresh(store, clock), steps);
    RunsAgree(naming, store, clock, steps);
    NoDoubt(Fresh(store, clock), steps, CoreOf(id));
    RunsAreDated(naming, store, clock, steps, id);
    assert Agrees(naming, w.previous, CoreOf(id), Look(w.store, CoreOf(id)));
  }

  // ----- pruned for good

  /** The step flushes, if anything, a snapshot that has the entity, as the last one had; nobody
      else writes this fact of it. */
  ghost predicate StillHeld(w: World, step: Step, id: string, a: Atom) {
    && (step.FlushOk? || step.FlushFailed? ==>
          w.flight.Some? && id in w.previous.entities && id in w.flight.value.snap.entities && a !in w.stirred)
    && (step.Foreign? ==> Look(step.after, a) == Look(w.store, a))
  }

  ghost predicate AlwaysHeld(w: World, steps: seq<Step>, id: string, a: Atom) {
    steps == [] ||
    (AlwaysHeld(w, steps[..|steps| - 1], id, a) && StillHeld(Run(w, steps[..|steps| - 1]), steps[|steps| - 1], id, a))
  }

  lemma HeldOk(naming: Naming, w: World, after: Store, id: string, a: Atom)
    requires OfEntity(a, id) && Enabled(naming, w, FlushOk(after)) && StillHeld(w, FlushOk(after), id, a)
    ensures Look(after, a) == Look(w.store, a)
  {
  }

  lemma HeldFailed(naming: Naming, w: World, after: Store, id: string, a: Atom)
    requires OfEntity(a, id) && Enabled(naming, w, FlushFailed(after)) && StillHeld(w, FlushFailed(after), id, a)
    ensures Look(after, a) == Look(w.store, a)
  {
    var snap, now := w.flight.value.snap, w.flight.value.now;
    var done :| PartialDelta(snap, w.previous, now, w.store, done) &&
                forall b | b !in w.stirred :: Look(after, b) == Look(done, b);
    UntouchedEntity(w.previous, snap, now, w.store, done, id, a);
  }

  lemma HeldStep(naming: Naming, w: World, step: Step, id: string, a: Atom)
    requires OfEntity(a, id) && Enabled(naming, w, step) && StillHeld(w, step, id, a)
    ensures Look(Next(w, step).store, a) == Look(w.store, a)
  {
    match step
    case FlushOk(after) => HeldOk(naming, w, after, id, a);
    case FlushFailed(after) => HeldFailed(naming, w, after, id, a);
    case _ =>
  }

  /** An entity pruned while it is still being seen stays pruned, every fact of it, through any
      number of flushes, complete or not, for as long as it goes on being seen. */
  lemma {:induction false} PrunedStaysPruned(naming: Naming, w: World, steps: seq<Step>, id: string, a: Atom)
    requires OfEntity(a, id) && Possible(naming, w, steps) && AlwaysHeld(w, steps, id, a)
    ensures Look(Run(w, steps).store, a) == Look(w.store, a)
    decreases |steps|
  {
    if steps != [] {
      var init, last := steps[..|steps| - 1], steps[|steps| - 1];
      PrunedStaysPruned(naming, w, init, id, a);
      HeldStep(naming, Run(w, init), last, id, a);
    }
  }

  // ----- a run that loses an entity still being seen

  /** A run from an empty server that leads to this world and these times, without failures and
      without anyone else writing. */
  ghost predicate Leads(steps: seq<Step>, w: World, added: map<string, int>, id: string) {
    var w0 := Fresh(EMPTY, 0);
    && Possible(AnyName, w0, steps) && Int64Times(steps) && LeftAlone(w0, steps, id)
    && Run(w0, steps) == w && AddedAt(w0, steps) == added
  }

  lemma OneMoreStep(steps: seq<Step>, w: World, added: map<string, int>, step: Step, w': World,
                    added': map<string, int>, id: string)
    requires Leads(steps, w, added, id) && Enabled(AnyName, w, step) && !step.Foreign? && !step.FlushFailed?
    requires step.TakeSnapshot? ==> Decimal.IsInt64(step.now)
    requires w' == Next(w, step) && added' == NowAdded(w, step, added)
    ensures Leads(steps + [step], w', added', id)
  {
    assert (steps + [step])[..|steps|] == steps;
    assert forall x | x in steps + [step] :: x in steps || x == step;
  }

  /** The world after a request, a snapshot and a complete flush at one time. */
  lemma RoundEnds(w: World, local: Snap, t: int, after: Store, added: map<string, int>, id: string)
    requires w.flight == None && w.shared == w.previous && id in local.entities
    ensures var w2 := Next(Next(w, Export(local, t)), TakeSnapshot(t, t));
            var w3, added' := Next(w2, FlushOk(after)), NowAdded(w2, FlushOk(after), added);
            && w3.flight == None && w3.clock == t && w3.shared == w3.previous
            && id in w3.previous.entities && w3.previous.entities[id].lastSeen == t && id in added'
            && added'[id] == if id in w.previous.entities && id in added then added[id] else t
  {
  }

  lemma FlushableStore(w: World) returns (after: Store)
    requires w.flight.Some? && w.stirred == iset{}
    ensures Enabled(AnyName, w, FlushOk(after))
  {
    var snap, now := w.flight.value.snap, w.flight.value.now;
    after := DeltaStore(snap, w.previous, now, w.store);
    DeltaStoreIsFull(snap, w.previous, now, w.store);
  }

  ghost predicate Idle(w: World) {
    w.flight == None && w.shared == w.previous
  }

  /** One round of a run: a request with the entity, a snapshot, a complete flush. */
  lemma Round(steps: seq<Step>, w: World, added: map<string, int>, local: Snap, id: string, t: int)
    returns (more: seq<Step>, w': World, added': map<string, int>)
    requires Leads(steps, w, added, id) && Idle(w) && w.clock <= t && Decimal.IsInt64(t)
    requires Coherent(local) && id in local.entities
    ensures Leads(more, w', added', id) && Idle(w') && w'.clock == t
    ensures id in w'.previous.entities && w'.previous.entities[id].lastSeen == t && id in added'
    ensures added'[id] == if id in w.previous.entities && id in added then added[id] else t
  {
    var exported, taken := Export(local, t), TakeSnapshot(t, t);
    var w1 := Next(w, exported);
    var w2 := Next(w1, taken);
    OneMoreStep(steps, w, added, exported, w1, added, id);
    OneMoreStep(steps + [exported], w1, added, taken, w2, added, id);
    var after := FlushableStore(w2);
    w', added' := Next(w2, FlushOk(after)), NowAdded(w2, FlushOk(after), added);
    OneMoreStep(steps + [exported] + [taken], w2, added, FlushOk(after), w', added', id);
    RoundEnds(w, local, t, after, added, id);
    more := steps + [exported] + [taken] + [FlushOk(after)];
  }

  lemma TwoRounds(local: Snap, id: string) returns (steps: seq<Step>, w: World, added: map<string, int>)
    requires Coherent(local) && id in local.entities
    ensures Leads(steps, w, added, id) && id in added && added[id] == 1
    ensures id in w.previous.entities && w.previous.entities[id].lastSeen == 9
  {
    var w0 := Fresh(EMPTY, 0);
    assert Leads([], w0, map[], id);
    var once, w1, added1 := Round([], w0, map[], local, id, 1);
    steps, w, added := Round(once, w1, added1, local, id, 9);
  }

  lemma SeenButPruned(local: Snap, id: string) returns (steps: seq<Step>)
    requires Coherent(local) && id in local.entities && IsRelation(id)
    ensures Possible(AnyName, Fresh(EMPTY, 0), steps)
    ensures var w := Run(Fresh(EMPTY, 0), steps);
            && id in w.previous.entities && w.previous.entities[id].lastSeen == 9
            && id in w.store.core && id !in Pruned(w.store, 5).core
  {
    var w, added;
    steps, w, added := TwoRounds(local, id);
    LeadsToPruning(steps, w, added, id, 5);
  }

  lemma LeadsToPruning(steps: seq<Step>, w: World, added: map<string, int>, id: string, cutoff: int)
    requires Leads(steps, w, added, id) && IsRelation(id) && id in w.previous.entities && id in added
    ensures id in w.store.core && (id !in Pruned(w.store, cutoff).core <==> added[id] < cutoff)
  {
    PrunedIffAddedBefore(AnyName, EMPTY, 0, steps, id, cutoff);
  }

  /** A topic seen at time 1 and seen again at time 9: pruning everything last seen before time 5
      deletes it. */
  lemma SeenYetPruned() returns (steps: seq<Step>)
    ensures Possible(AnyName, Fresh(EMPTY, 0), steps)
    ensures var w, id := Run(Fresh(EMPTY, 0), steps), A_TOPIC.id;
            && id in w.previous.entities && w.previous.entities[id].lastSeen == 9
            && id in w.store.core && id !in Pruned(w.store, 5).core
  {
    OneTopic();
    steps := SeenButPruned(ONE_TOPIC, A_TOPIC.id);
  }
}
