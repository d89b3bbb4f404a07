/** Whole sequences of informer events: what the store holds after them, against what the
    objects that are still alive imply. */
module WatcherRuns {
  import opened Graph
  import opened GraphStore
  import opened RedisWriter
  import opened Mapper
  import opened Ownership
  import opened Implications
  import opened Desires
  import opened Watcher
  import opened EventEffects

  /** A delivery, with the state of the ReplicaSet cache at each time a pod is mapped. */
  datatype Event =
    | Added(o: Object, sets: Lister)
    | Updated(before: Object, after: Object, setsBefore: Lister, setsAfter: Lister)
    | Deleted(o: Object, sets: Lister)

  function OwnerNow(o: Object, sets: Lister): Owner {
    if o.Pod? then OwnerFor(o.ns, o.refs, sets) else NOBODY
  }

  function DesireNow(o: Object, sets: Lister): Desired {
    Desire(o, OwnerNow(o, sets))
  }

  function Subject(ev: Event): Object {
    if ev.Updated? then ev.after else ev.o
  }

  function Key(ev: Event): string {
    PrimaryId(Subject(ev))
  }

  /** The owners a handler resolves for the old and for the new object. */
  function OwnerBelieved(ev: Event): Owner {
    match ev
    case Added(_, _) => NOBODY
    case Updated(before, _, setsBefore, _) => OwnerNow(before, setsBefore)
    case Deleted(o, sets) => OwnerNow(o, sets)
  }

  function OwnerWanted(ev: Event): Owner {
    match ev
    case Added(o, sets) => OwnerNow(o, sets)
    case Updated(_, after, _, setsAfter) => OwnerNow(after, setsAfter)
    case Deleted(_, _) => NOBODY
  }

  /** What the handler takes the object to have implied so far. */
  function Believed(ev: Event): Desired {
    match ev
    case Added(_, _) => NO_DESIRES
    case Updated(before, _, setsBefore, _) => DesireNow(before, setsBefore)
    case Deleted(o, sets) => DesireNow(o, sets)
  }

  function Wanted(ev: Event): Desired {
    match ev
    case Added(o, sets) => DesireNow(o, sets)
    case Updated(_, after, _, setsAfter) => DesireNow(after, setsAfter)
    case Deleted(_, _) => NO_DESIRES
  }

  ghost predicate Issues(ev: Event, ops: seq<Op>) {
    match ev
    case Added(_, _) => AddIssues(Wanted(ev), ops)
    case Updated(_, _, _, _) => UpdateIssues(Believed(ev), Wanted(ev), ops)
    case Deleted(_, _) => ops == DeleteIssues(Believed(ev))
  }

  // ----- the registered handlers

  method MapNow(o: Object, sets: Lister) returns (d: Desired)
    ensures d == DesireNow(o, sets)
  {
    if o.Pod? {
      var owner := OwnerForPod(o.ns, o.refs, sets);
      d := MapPodLoop(o, owner);
    } else if o.Job? {
      d := MapJobLoop(o);
    } else if o.Hpa? {
      d := MapHpaLoop(o);
    } else {
      d := Desire(o, NOBODY);
    }
  }

  method Handle(w: Writer, ev: Event) returns (ghost ops: seq<Op>)
    requires w.Valid()
    modifies w, w.redis
    ensures w.Valid() && w.ops == old(w.ops) + ops && Issues(ev, ops)
  {
    match ev
    case Added(o, sets) =>
      var d := MapNow(o, sets);
      ops := ApplyAdd(w, d);
    case Updated(before, after, setsBefore, setsAfter) =>
      var b := MapNow(before, setsBefore);
      var a := MapNow(after, setsAfter);
      ops := ApplyUpdate(w, b, a);
    case Deleted(o, sets) =>
      var d := MapNow(o, sets);
      ApplyDelete(w, d);
      ops := DeleteIssues(d);
  }

  // ----- histories

  /** A live object as last delivered, the owner resolved then, and what it was mapped to. */
  datatype Entry = Entry(o: Object, owner: Owner, d: Desired)
  type Live = map<string, Entry>

  function Next(live: Live, ev: Event): Live {
    if ev.Deleted? then live - {Key(ev)}
    else live[Key(ev) := Entry(Subject(ev), OwnerWanted(ev), Wanted(ev))]
  }

  function LiveAfter(evs: seq<Event>): Live {
    if evs == [] then map[] else Next(LiveAfter(evs[..|evs| - 1]), evs[|evs| - 1])
  }

  predicate ValidEvent(ev: Event) {
    match ev
    case Added(o, sets) => ValidObject(o) && ValidLister(sets)
    case Updated(before, after, setsBefore, setsAfter) =>
      ValidObject(before) && ValidObject(after) && ValidLister(setsBefore) && ValidLister(setsAfter)
    case Deleted(o, sets) => ValidObject(o) && ValidLister(sets)
  }

  /** Informers hand over the last delivered object with an update or a deletion. */
  predicate Delivered(live: Live, ev: Event) {
    match ev
    case Added(o, _) => Key(ev) !in live
    case Updated(before, _, _, _) => PrimaryId(before) == Key(ev) && Key(ev) in live && live[Key(ev)].o == before
    case Deleted(o, _) => Key(ev) in live && live[Key(ev)].o == o
  }

  /** One event in its place, with the operations its handler issues. The ReplicaSet cache may
      have changed since the object was last mapped, so that the handler is mistaken about what
      the store holds for it. */
  ghost predicate Happens(live: Live, ev: Event, ops: seq<Op>) {
    ValidEvent(ev) && Delivered(live, ev) && Issues(ev, ops)
  }

  ghost predicate History(evs: seq<Event>, opss: seq<seq<Op>>) {
    |opss| == |evs| &&
    (evs == [] ||
     (History(evs[..|evs| - 1], opss[..|evs| - 1]) &&
      Happens(LiveAfter(evs[..|evs| - 1]), evs[|evs| - 1], opss[|evs| - 1])))
  }

  function Flat(opss: seq<seq<Op>>): seq<Op> {
    if opss == [] then [] else Flat(opss[..|opss| - 1]) + opss[|opss| - 1]
  }

  /** A fact after all these operations, by what it was before. */
  function From(opss: seq<seq<Op>>, a: Atom, cell: Cell): Cell {
    ActOps(Flat(opss), a, cell)
  }

  /** The same on a server that did not have it before. */
  function Finally(opss: seq<seq<Op>>, a: Atom): Cell {
    From(opss, a, Absent)
  }

  lemma FromSnoc(opss: seq<seq<Op>>, a: Atom, cell: Cell)
    requires |opss| > 0
    ensures From(opss, a, cell) == ActOps(opss[|opss| - 1], a, From(opss[..|opss| - 1], a, cell))
  {
    ActOpsConcat(Flat(opss[..|opss| - 1]), opss[|opss| - 1], a, cell);
  }

  lemma FinallySnoc(opss: seq<seq<Op>>, a: Atom)
    requires |opss| > 0
    ensures Finally(opss, a) == ActOps(opss[|opss| - 1], a, Finally(opss[..|opss| - 1], a))
  {
    FromSnoc(opss, a, Absent);
  }

  lemma {:induction false} HistoryPrefix(evs: seq<Event>, opss: seq<seq<Op>>, n: nat)
    requires History(evs, opss) && n <= |evs|
    ensures History(evs[..n], opss[..n])
  {
    if n == |evs| {
      assert evs[..n] == evs && opss[..n] == opss;
    } else {
      HistoryPrefix(evs[..|evs| - 1], opss[..|evs| - 1], n);
      assert evs[..|evs| - 1][..n] == evs[..n] && opss[..|evs| - 1][..n] == opss[..n];
    }
  }

  // ----- what belongs to whom

  ghost predicate LiveFine(live: Live) {
    forall k | k in live :: Belongs(k, live[k].d) && HasEntity(live[k].d, k) && PrimaryId(live[k].o) == k
  }

  lemma NowBelongs(o: Object, sets: Lister)
    requires ValidObject(o) && ValidLister(sets)
    ensures Belongs(PrimaryId(o), DesireNow(o, sets)) && HasEntity(DesireNow(o, sets), PrimaryId(o))
  {
    if o.Pod? {
      ResolvedOwnerValid(o.ns, o.refs, sets);
    }
    DesireBelongs(o, OwnerNow(o, sets));
  }

  lemma EventBelongs(live: Live, ev: Event)
    requires ValidEvent(ev) && Delivered(live, ev)
    ensures Belongs(Key(ev), Believed(ev)) && Belongs(Key(ev), Wanted(ev))
    ensures !ev.Deleted? ==> HasEntity(Wanted(ev), Key(ev))
  {
    EmptyBelongs(Key(ev));
    match ev
    case Added(o, sets) => NowBelongs(o, sets);
    case Updated(before, after, setsBefore, setsAfter) =>
      NowBelongs(before, setsBefore);
      NowBelongs(after, setsAfter);
    case Deleted(o, sets) => NowBelongs(o, sets);
  }

  /** Every live object was mapped with the owner on record. */
  ghost predicate LiveMapped(live: Live) {
    forall k | k in live ::
      && ValidObject(live[k].o) && live[k].d == Desire(live[k].o, live[k].owner)
      && (live[k].o.Pod? ==> ValidOwner(live[k].o.ns, live[k].owner))
  }

  lemma EventMapped(ev: Event)
    requires ValidEvent(ev) && !ev.Deleted?
    ensures ValidObject(Subject(ev)) && Wanted(ev) == Desire(Subject(ev), OwnerWanted(ev))
    ensures Subject(ev).Pod? ==> ValidOwner(Subject(ev).ns, OwnerWanted(ev))
  {
    var o := Subject(ev);
    if o.Pod? {
      ResolvedOwnerValid(o.ns, o.refs, if ev.Added? then ev.sets else ev.setsAfter);
    }
  }

  lemma StaysFine(live: Live, ev: Event)
    requires LiveFine(live) && LiveMapped(live) && ValidEvent(ev) && Delivered(live, ev)
    ensures LiveFine(Next(live, ev)) && LiveMapped(Next(live, ev))
  {
    if !ev.Deleted? {
      EventBelongs(live, ev);
      EventMapped(ev);
      OneMoreFine(live, Key(ev), Entry(Subject(ev), OwnerWanted(ev), Wanted(ev)));
    }
  }

  lemma OneMoreFine(live: Live, key: string, entry: Entry)
    requires LiveFine(live) && LiveMapped(live)
    requires Belongs(key, entry.d) && HasEntity(entry.d, key) && PrimaryId(entry.o) == key
    requires ValidObject(entry.o) && entry.d == Desire(entry.o, entry.owner)
    requires entry.o.Pod? ==> ValidOwner(entry.o.ns, entry.owner)
    ensures LiveFine(live[key := entry]) && LiveMapped(live[key := entry])
  {
  }

  lemma {:induction false} LivesFine(evs: seq<Event>, opss: seq<seq<Op>>)
    requires History(evs, opss)
    ensures LiveFine(LiveAfter(evs)) && LiveMapped(LiveAfter(evs))
  {
    if evs != [] {
      LivesFine(evs[..|evs| - 1], opss[..|evs| - 1]);
      StaysFine(LiveAfter(evs[..|evs| - 1]), evs[|evs| - 1]);
    }
  }

  lemma IssuesTurn(live: Live, ev: Event, ops: seq<Op>)
    requires ValidEvent(ev) && Delivered(live, ev) && Issues(ev, ops)
    ensures Turn(Believed(ev), Wanted(ev), ops)
  {
    EventBelongs(live, ev);
    assert EdgesNulFree(Believed(ev)) && EdgesNulFree(Wanted(ev)) && EntitiesFine(Believed(ev));
    match ev
    case Added(_, _) => AddTurns(Wanted(ev), ops);
    case Updated(_, _, _, _) => UpdateTurns(Believed(ev), Wanted(ev), ops);
    case Deleted(_, _) => DeleteTurns(Believed(ev), ops);
  }

  lemma LastEvent(evs: seq<Event>, opss: seq<seq<Op>>, init: seq<Event>, ev: Event, ops: seq<Op>)
    requires History(evs, opss) && evs != []
    requires init == evs[..|evs| - 1] && ev == evs[|evs| - 1] && ops == opss[|evs| - 1]
    ensures Happens(LiveAfter(init), ev, ops) && LiveFine(LiveAfter(init)) && LiveMapped(LiveAfter(init))
    ensures LiveAfter(evs) == Next(LiveAfter(init), ev)
  {
    LivesFine(init, opss[..|evs| - 1]);
  }

  lemma EventAt(evs: seq<Event>, opss: seq<seq<Op>>, n: nat)
    requires History(evs, opss) && n < |evs|
    ensures Happens(LiveAfter(evs[..n]), evs[n], opss[n])
    ensures LiveFine(LiveAfter(evs[..n])) && LiveMapped(LiveAfter(evs[..n]))
    ensures LiveAfter(evs[..n + 1]) == Next(LiveAfter(evs[..n]), evs[n])
  {
    var m := n + 1;
    var upto, issued := evs[..m], opss[..m];
    HistoryPrefix(evs, opss, m);
    assert |upto| == m && upto[..n] == evs[..n] && upto[n] == evs[n] && issued[n] == opss[n];
    LastEvent(upto, issued, evs[..n], evs[n], opss[n]);
  }

  lemma FromNext(opss: seq<seq<Op>>, n: nat, a: Atom, cell: Cell)
    requires n < |opss|
    ensures From(opss[..n + 1], a, cell) == ActOps(opss[n], a, From(opss[..n], a, cell))
  {
    FromSnoc(opss[..n + 1], a, cell);
    assert opss[..n + 1][..n] == opss[..n];
  }

  // ----- what a handler can be mistaken about

  /** What the object of the event was mapped to when the store was last written for it. */
  function Stored(live: Live, ev: Event): Desired {
    if Key(ev) in live then live[Key(ev)].d else NO_DESIRES
  }

  /** The owner it was stored with. */
  function OwnerStored(live: Live, ev: Event): Owner {
    if Key(ev) in live then live[Key(ev)].owner else NOBODY
  }

  lemma SamePodOrNot(o: Object, after: Object)
    requires KindOfObject(o) == KindOfObject(after)
    ensures o.Pod? <==> after.Pod?
  {
  }

  /** Only pods can be mistaken for what they were. */
  lemma OthersAreSteady(live: Live, ev: Event)
    requires LiveMapped(live) && ValidEvent(ev) && Delivered(live, ev) && (ev.Added? || !Subject(ev).Pod?)
    ensures Believed(ev) == Stored(live, ev)
  {
    if ev.Updated? {
      PrimaryIdInjective(ev.before, ev.after);
      SamePodOrNot(ev.before, ev.after);
    }
  }

  /** Two versions of one pod. */
  predicate SamePod(o: Object, after: Object) {
    o.Pod? && after.Pod? && Clean(o.ns) && o.ns == after.ns && o.name == after.name
  }

  /** What a pod is mapped to after the event: the new object's mapping, or nothing. */
  function PodWanted(after: Object, wanted: Owner, deleted: bool): Desired
    requires after.Pod?
  {
    if deleted then NO_DESIRES else MapPod(after, wanted)
  }

  /** The old and the new object of an update or a deletion; a deletion has but one. */
  function Before(ev: Event): Object
    requires !ev.Added?
  {
    if ev.Updated? then ev.before else ev.o
  }

  /** The update or deletion of a pod, as owners. */
  lemma PodEvent(live: Live, ev: Event, o: Object, after: Object)
    requires LiveMapped(live) && ValidEvent(ev) && Delivered(live, ev) && !ev.Added? && Subject(ev).Pod?
    requires after == Subject(ev) && o == Before(ev)
    ensures SamePod(o, after) && Stored(live, ev) == MapPod(o, OwnerStored(live, ev))
    ensures Believed(ev) == MapPod(o, OwnerBelieved(ev)) && Wanted(ev) == PodWanted(after, OwnerWanted(ev), ev.Deleted?)
    ensures ValidOwner(o.ns, OwnerStored(live, ev)) && ValidOwner(o.ns, OwnerBelieved(ev))
    ensures ValidOwner(o.ns, OwnerWanted(ev))
  {
    assert live[Key(ev)].o == o;
    PrimaryIdInjective(o, after);
    SamePodOrNot(o, after);
    ResolvedOwnerValid(o.ns, o.refs, if ev.Updated? then ev.setsBefore else ev.sets);
    if ev.Updated? {
      ResolvedOwnerValid(after.ns, after.refs, ev.setsAfter);
    }
  }

  /** The owner contributes no pod and no container. */
  lemma SameEmitters(o: Object, x: Owner, y: Owner, id: string)
    requires o.Pod? && ValidOwner(o.ns, x) && ValidOwner(o.ns, y) && IsEmitter(id)
    ensures HasEntity(MapPod(o, x), id) <==> HasEntity(MapPod(o, y), id)
  {
    var e := Edge(Contains, id, "");
    OwnerIsNoEmitter(o.ns, x);
    OwnerIsNoEmitter(o.ns, y);
    PodImplies(o, x, id, e, id);
    PodImplies(o, y, id, e, id);
  }

  /** So no handler is mistaken about pods and containers. */
  lemma EmittersKnown(live: Live, ev: Event, id: string)
    requires LiveMapped(live) && ValidEvent(ev) && Delivered(live, ev) && IsEmitter(id)
    ensures HasEntity(Stored(live, ev), id) <==> HasEntity(Believed(ev), id)
  {
    if ev.Added? || !Subject(ev).Pod? {
      OthersAreSteady(live, ev);
    } else {
      PodEvent(live, ev, Before(ev), Subject(ev));
      SameEmitters(Before(ev), OwnerStored(live, ev), OwnerBelieved(ev), id);
    }
  }

  // ----- entities

  lemma EmitterBelongs(pid: string, d: Desired, id: string)
    requires Belongs(pid, d) && IsEmitter(id) && HasEntity(d, id)
    ensures PodOf(id) == pid
  {
    var ent :| ent in d.entities && ent.id == id;
    assert EntityFine(pid, ent);
  }

  ghost predicate EntityImplied(live: Live, id: string) {
    PodOf(id) in live && HasEntity(live[PodOf(id)].d, id)
  }

  /** What becomes of a pod or container: implied now, if the object of the event is its pod,
      exactly when the object wants it; otherwise as before. */
  lemma EmitterNext(live: Live, ev: Event, id: string)
    requires LiveFine(live) && LiveMapped(live) && ValidEvent(ev) && Delivered(live, ev) && IsEmitter(id)
    ensures EntityImplied(Next(live, ev), id) <==>
            HasEntity(Wanted(ev), id) || (EntityImplied(live, id) && !Dropped(Believed(ev), Wanted(ev), id))
  {
    EmittersKnown(live, ev, id);
    EmitterEnds(live, ev, id);
    EmitterHere(live, Next(live, ev), Key(ev), Stored(live, ev), Believed(ev), Wanted(ev), id);
  }

  lemma EmitterEnds(live: Live, ev: Event, id: string)
    requires ValidEvent(ev) && Delivered(live, ev) && IsEmitter(id)
    ensures HasEntity(Wanted(ev), id) || HasEntity(Believed(ev), id) ==> PodOf(id) == Key(ev)
  {
    EventBelongs(live, ev);
    if HasEntity(Wanted(ev), id) {
      EmitterBelongs(Key(ev), Wanted(ev), id);
    }
    if HasEntity(Believed(ev), id) {
      EmitterBelongs(Key(ev), Believed(ev), id);
    }
  }

  lemma EmitterHere(live: Live, next: Live, key: string, d: Desired, b: Desired, a: Desired, id: string)
    requires d == if key in live then live[key].d else NO_DESIRES
    requires a == if key in next then next[key].d else NO_DESIRES
    requires forall k | k != key :: (k in live <==> k in next) && (k in live ==> next[k] == live[k])
    requires IsEmitter(id) && (HasEntity(d, id) <==> HasEntity(b, id))
    requires HasEntity(a, id) || HasEntity(b, id) ==> PodOf(id) == key
    ensures EntityImplied(next, id) <==> HasEntity(a, id) || (EntityImplied(live, id) && !Dropped(b, a, id))
  {
  }

  lemma EmitterTurn(live: Live, ev: Event, ops: seq<Op>, id: string, at: Atom, cell: Cell)
    requires LiveFine(live) && LiveMapped(live) && Happens(live, ev, ops) && IsEmitter(id) && Presence(at, id)
    requires (cell != Absent <==> EntityImplied(live, id)) && ProperCore(id, cell)
    ensures ActOps(ops, at, cell) != Absent <==> EntityImplied(Next(live, ev), id)
    ensures ProperCore(id, ActOps(ops, at, cell))
  {
    EventBelongs(live, ev);
    IssuesTurn(live, ev, ops);
    EmitterNext(live, ev, id);
    EmitterAct(Believed(ev), Wanted(ev), ops, id, at, cell, EntityImplied(live, id), EntityImplied(Next(live, ev), id));
  }

  lemma EmitterAct(b: Desired, a: Desired, ops: seq<Op>, id: string, at: Atom, cell: Cell, was: bool, now: bool)
    requires Turn(b, a, ops) && EntitiesFine(a) && IsEmitter(id) && Presence(at, id)
    requires now <==> HasEntity(a, id) || (was && !Dropped(b, a, id))
    requires (cell != Absent <==> was) && ProperCore(id, cell)
    ensures (ActOps(ops, at, cell) != Absent <==> now) && ProperCore(id, ActOps(ops, at, cell))
  {
    EntityAfterTurn(b, a, ops, id, at, cell);
  }

  /** Pods and containers in the store are exactly those of the live pods: their core hashes,
      their places in the index, with the right kinds and names. */
  lemma {:induction false} EmittersExact(evs: seq<Event>, opss: seq<seq<Op>>, id: string, at: Atom)
    requires History(evs, opss) && IsEmitter(id) && Presence(at, id)
    ensures Finally(opss, at) != Absent <==> EntityImplied(LiveAfter(evs), id)
    ensures ProperCore(id, Finally(opss, at))
  {
    if evs != [] {
      var init, opss' := evs[..|evs| - 1], opss[..|evs| - 1];
      EmittersExact(init, opss', id, at);
      FinallySnoc(opss, at);
      LivesFine(init, opss');
      var live, ev, ops := LiveAfter(init), evs[|evs| - 1], opss[|evs| - 1];
      EmitterTurn(live, ev, ops, id, at, Finally(opss', at));
    }
  }

  predicate EverImplied(evs: seq<Event>, id: string) {
    evs != [] && (EverImplied(evs[..|evs| - 1], id) || HasEntity(Wanted(evs[|evs| - 1]), id))
  }

  lemma OtherTurn(b: Desired, a: Desired, ops: seq<Op>, id: string, at: Atom, cell: Cell)
    requires Turn(b, a, ops) && EntitiesFine(a) && !IsEmitter(id) && Presence(at, id) && ProperCore(id, cell)
    ensures ActOps(ops, at, cell) != Absent <==> cell != Absent || HasEntity(a, id)
    ensures ProperCore(id, ActOps(ops, at, cell))
  {
    EntityAfterTurn(b, a, ops, id, at, cell);
  }

  /** Entities of every other kind are never deleted: they are stored if and only if some
      event ever implied them, alive or not. */
  lemma {:induction false} OthersAccumulate(evs: seq<Event>, opss: seq<seq<Op>>, id: string, at: Atom)
    requires History(evs, opss) && !IsEmitter(id) && Presence(at, id)
    ensures Finally(opss, at) != Absent <==> EverImplied(evs, id)
    ensures ProperCore(id, Finally(opss, at))
  {
    if evs != [] {
      var init, opss' := evs[..|evs| - 1], opss[..|evs| - 1];
      OthersAccumulate(init, opss', id, at);
      FinallySnoc(opss, at);
      LivesFine(init, opss');
      var ev, ops := evs[|evs| - 1], opss[|evs| - 1];
      EventBelongs(LiveAfter(init), ev);
      IssuesTurn(LiveAfter(init), ev, ops);
      OtherTurn(Believed(ev), Wanted(ev), ops, id, at, Finally(opss', at));
    }
  }
}
