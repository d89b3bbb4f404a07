/** Where the incremental store parts from what the live objects imply, and exactly when. */
module WatcherLimits {
  import opened Graph
  import opened GraphStore
  import opened Mapper
  import opened Ownership
  import opened Desires
  import opened Watcher
  import opened Implications
  import opened EventEffects
  import opened WatcherRuns
  import opened EdgeRuns

  // ----- resync

  /** A periodic re-delivery, which hands the same object over twice, restores every lost
      entity of the object and not a single lost edge. */
  lemma ResyncHealsNoEdge(o: Object, sets: Lister, ops: seq<Op>)
    requires ValidObject(o) && ValidLister(sets) && Issues(Updated(o, o, sets, sets), ops)
    ensures forall from, e, cell :: ActOps(ops, EdgeMember(from, e), cell) == cell
    ensures forall id, at, cell | HasEntity(DesireNow(o, sets), id) && Presence(at, id) ::
              ActOps(ops, at, cell) != Absent
  {
    var d := DesireNow(o, sets);
    NowBelongs(o, sets);
    ResyncTurns(PrimaryId(o), d, ops);
    forall from, e, cell ensures ActOps(ops, EdgeMember(from, e), cell) == cell {
      EdgeAfterTurn(d, d, ops, from, e, cell);
    }
    forall id, at, cell | HasEntity(d, id) && Presence(at, id) ensures ActOps(ops, at, cell) != Absent {
      EntityAfterTurn(d, d, ops, id, at, cell);
    }
  }

  lemma ResyncTurns(pid: string, d: Desired, ops: seq<Op>)
    requires Belongs(pid, d) && UpdateIssues(d, d, ops)
    ensures Turn(d, d, ops) && EntitiesFine(d)
  {
    assert EdgesNulFree(d);
    UpdateTurns(d, d, ops);
  }

  // ----- the shared region-zone pair

  predicate SamePlace(m: Object, n: Object, zone: string, region: string) {
    && m.Node? && n.Node? && m.name != n.name && ValidObject(m) && ValidObject(n)
    && TopologyLabel(m.labels, "zone") == zone == TopologyLabel(n.labels, "zone") != ""
    && TopologyLabel(m.labels, "region") == region == TopologyLabel(n.labels, "region") != ""
  }

  lemma NodePair(n: Object, zone: string, region: string)
    requires n.Node? && TopologyLabel(n.labels, "zone") == zone != "" &&
             TopologyLabel(n.labels, "region") == region != ""
    ensures HasEdge(MapNode(n), Id1(REGION, region), Edge(Contains, Id1(ZONE, zone), ""))
  {
  }

  /** Two nodes of one zone: deleting one of them removes the edge from the region to the zone,
      which the other still implies. */
  lemma SharedPairLost(m: Object, n: Object, zone: string, region: string, opss: seq<seq<Op>>)
    requires SamePlace(m, n, zone, region)
    requires History([Added(m, map[]), Added(n, map[]), Deleted(m, map[])], opss)
    ensures var evs := [Added(m, map[]), Added(n, map[]), Deleted(m, map[])];
            var from, e := Id1(REGION, region), Edge(Contains, Id1(ZONE, zone), "");
            Finally(opss, EdgeMember(from, e)) == Absent && Implied(LiveAfter(evs), from, e)
  {
    var evs := [Added(m, map[]), Added(n, map[]), Deleted(m, map[])];
    var from, e := Id1(REGION, region), Edge(Contains, Id1(ZONE, zone), "");
    NodeKeys(m, n);
    NodePair(n, zone, region);
    ThreeEvents(evs[0], evs[1], evs[2]);
    assert HasEdge(LiveAfter(evs)[Key(evs[1])].d, from, e);
    EventAt(evs, opss, 2);
    FinallySnoc(opss, EdgeMember(from, e));
    DeletedNodePair(LiveAfter(evs[..2]), m, opss[2], zone, region, Finally(opss[..2], EdgeMember(from, e)));
  }

  lemma ThreeEvents(x: Event, y: Event, z: Event)
    ensures LiveAfter([x, y, z]) == Next(Next(Next(map[], x), y), z)
  {
    assert [x, y, z][..2] == [x, y] && [x, y][..1] == [x] && [x][..0] == [];
    assert LiveAfter([x]) == Next(map[], x);
    assert LiveAfter([x, y]) == Next(Next(map[], x), y);
  }

  lemma NodeKeys(m: Object, n: Object)
    requires m.Node? && n.Node? && ValidObject(m) && ValidObject(n) && m.name != n.name
    ensures PrimaryId(m) != PrimaryId(n)
  {
    if PrimaryId(m) == PrimaryId(n) {
      PrimaryIdInjective(m, n);
    }
  }

  lemma DeletedNodePair(live: Live, m: Object, ops: seq<Op>, zone: string, region: string, cell: Cell)
    requires m.Node? && TopologyLabel(m.labels, "zone") == zone != "" &&
             TopologyLabel(m.labels, "region") == region != ""
    requires Happens(live, Deleted(m, map[]), ops)
    ensures ActOps(ops, EdgeMember(Id1(REGION, region), Edge(Contains, Id1(ZONE, zone), "")), cell) == Absent
  {
    NodePair(m, zone, region);
    IssuesTurn(live, Deleted(m, map[]), ops);
    EdgeAfterTurn(MapNode(m), NO_DESIRES, ops, Id1(REGION, region), Edge(Contains, Id1(ZONE, zone), ""), cell);
  }

  // ----- owners that drift

  /** The handler believes the object implied `b` while the store holds `d` for it; about this
      edge the mistake does no harm on the way to `a`. */
  predicate Harmless(d: Desired, b: Desired, a: Desired, from: string, e: Edge) {
    if HasEdge(a, from, e) then HasEdge(b, from, e) ==> HasEdge(d, from, e)
    else HasEdge(d, from, e) ==> HasEdge(b, from, e) || Dropped(b, a, from)
  }

  /** About an edge no other object implies, the store is exact after the event precisely when
      the mistaken belief is harmless about it. */
  lemma MistakeIff(d: Desired, b: Desired, a: Desired, ops: seq<Op>, key: string, from: string, e: Edge)
    requires Turn(b, a, ops) && Belongs(key, a)
    ensures ActOps(ops, EdgeMember(from, e), Shown(HasEdge(d, from, e))) == Shown(HasEdge(a, from, e))
            <==> Harmless(d, b, a, from, e)
  {
    EdgeAfterTurn(b, a, ops, from, e, Shown(HasEdge(d, from, e)));
    if Dropped(b, a, from) {
      DroppedCarriesNothing(key, b, a, from, e);
    }
  }

  predicate OwnerEdge(pod: string, owner: Owner, from: string, e: Edge) {
    owner.id != "" && IsPair(from, e, owner.id, Manages, pod)
  }

  /** The owner contributes its pair, and nothing else in a pod's edges manages anything. */
  lemma OwnerContributes(o: Object, owner: Owner, from: string, e: Edge)
    requires o.Pod?
    ensures HasEdge(MapPod(o, owner), from, e) <==>
            HasEdge(MapPod(o, NOBODY), from, e) || OwnerEdge(PodId(o.ns, o.name), owner, from, e)
    ensures e.kind.Manages? || e.kind.ManagedBy? ==> !HasEdge(MapPod(o, NOBODY), from, e)
  {
    PodImplies(o, owner, from, e, "");
    PodImplies(o, NOBODY, from, e, "");
  }

  /** What the store was written with, what the handler resolves for the old object now, and
      what it resolves for the new one: either the first two are the same, or the old owner is
      not the new one and the store holds nobody or the new owner. */
  predicate OwnerHarmless(stored: Owner, believed: Owner, wanted: Owner) {
    stored == believed || (believed != wanted && (stored == NOBODY || stored == wanted))
  }

  lemma OwnersById(ns: string, x: Owner, y: Owner)
    requires Clean(ns) && ValidOwner(ns, x) && ValidOwner(ns, y)
    ensures x == y <==> x.id == y.id
    ensures x == NOBODY <==> x.id == ""
  {
    if x != NOBODY {
      KindsArePlain(x.kind);
      Read2(x.kind, ns, x.name);
    }
    if y != NOBODY {
      KindsArePlain(y.kind);
      Read2(y.kind, ns, y.name);
    }
  }

  ghost predicate AllHarmless(o: Object, after: Object, stored: Owner, believed: Owner, wanted: Owner, deleted: bool)
    requires o.Pod? && after.Pod?
  {
    forall from, e :: Harmless(MapPod(o, stored), MapPod(o, believed), PodWanted(after, wanted, deleted), from, e)
  }

  lemma HarmfulWitness(o: Object, after: Object, stored: Owner, believed: Owner, wanted: Owner, deleted: bool)
    requires SamePod(o, after) && (deleted ==> wanted == NOBODY)
    requires ValidOwner(o.ns, stored) && ValidOwner(o.ns, believed) && ValidOwner(o.ns, wanted)
    requires !OwnerHarmless(stored, believed, wanted)
    ensures !AllHarmless(o, after, stored, believed, wanted, deleted)
  {
    OwnersById(o.ns, stored, believed);
    OwnersById(o.ns, stored, wanted);
    OwnersById(o.ns, believed, wanted);
    var id := PodId(o.ns, o.name);
    var owner := if believed == wanted && wanted != NOBODY then wanted else stored;
    var e := Edge(Manages, id, "");
    OwnerContributes(o, stored, owner.id, e);
    OwnerContributes(o, believed, owner.id, e);
    OwnerContributes(after, wanted, owner.id, e);
    OwnerIsNoEmitter(o.ns, owner);
    assert !Harmless(MapPod(o, stored), MapPod(o, believed), PodWanted(after, wanted, deleted), owner.id, e);
  }

  lemma HarmlessEverywhere(o: Object, after: Object, stored: Owner, believed: Owner, wanted: Owner, deleted: bool,
                           from: string, e: Edge)
    requires SamePod(o, after) && (deleted ==> wanted == NOBODY)
    requires ValidOwner(o.ns, stored) && ValidOwner(o.ns, believed) && ValidOwner(o.ns, wanted)
    requires OwnerHarmless(stored, believed, wanted)
    ensures Harmless(MapPod(o, stored), MapPod(o, believed), PodWanted(after, wanted, deleted), from, e)
  {
    OwnersById(o.ns, stored, believed);
    OwnersById(o.ns, stored, wanted);
    OwnersById(o.ns, believed, wanted);
    OwnerContributes(o, stored, from, e);
    OwnerContributes(o, believed, from, e);
    OwnerContributes(after, wanted, from, e);
  }

  lemma OwnerDriftIff(o: Object, after: Object, stored: Owner, believed: Owner, wanted: Owner, deleted: bool)
    requires SamePod(o, after) && (deleted ==> wanted == NOBODY)
    requires ValidOwner(o.ns, stored) && ValidOwner(o.ns, believed) && ValidOwner(o.ns, wanted)
    ensures AllHarmless(o, after, stored, believed, wanted, deleted) <==> OwnerHarmless(stored, believed, wanted)
  {
    if OwnerHarmless(stored, believed, wanted) {
      forall from, e
        ensures Harmless(MapPod(o, stored), MapPod(o, believed), PodWanted(after, wanted, deleted), from, e)
      {
        HarmlessEverywhere(o, after, stored, believed, wanted, deleted, from, e);
      }
    } else {
      HarmfulWitness(o, after, stored, believed, wanted, deleted);
    }
  }

  /** The store holds a pod's edges as mapped with one owner; the handler of its update or
      deletion resolves another. Every edge of the pod ends up right, whatever the edge, if and
      only if the owners fit. */
  lemma PodDriftIff(ev: Event, stored: Owner, ops: seq<Op>)
    requires !ev.Added? && ValidEvent(ev) && Issues(ev, ops)
    requires var o := if ev.Updated? then ev.before else ev.o;
             o.Pod? && ValidOwner(o.ns, stored) &&
               (ev.Updated? ==> ev.after.Pod? && ev.after.ns == o.ns && ev.after.name == o.name)
    ensures var o := if ev.Updated? then ev.before else ev.o;
            (forall from, e ::
              ActOps(ops, EdgeMember(from, e), Shown(HasEdge(MapPod(o, stored), from, e))) ==
                Shown(HasEdge(Wanted(ev), from, e)))
            <==>
            if ev.Updated? then OwnerHarmless(stored, OwnerNow(o, ev.setsBefore), OwnerNow(ev.after, ev.setsAfter))
            else OwnerHarmless(stored, OwnerNow(o, ev.sets), NOBODY)
  {
    var o := if ev.Updated? then ev.before else ev.o;
    var after := if ev.Updated? then ev.after else ev.o;
    var believed := OwnerNow(o, if ev.Updated? then ev.setsBefore else ev.sets);
    var wanted := if ev.Updated? then OwnerNow(after, ev.setsAfter) else NOBODY;
    PodTurns(o, after, believed, wanted, ev, ops);
    ResolvedOwnerValid(o.ns, o.refs, if ev.Updated? then ev.setsBefore else ev.sets);
    if ev.Updated? {
      ResolvedOwnerValid(after.ns, after.refs, ev.setsAfter);
    }
    DriftIff(o, after, stored, believed, wanted, ev.Deleted?, ops);
  }

  lemma PodTurns(o: Object, after: Object, believed: Owner, wanted: Owner, ev: Event, ops: seq<Op>)
    requires !ev.Added? && ValidEvent(ev) && Issues(ev, ops) && o.Pod? && after.Pod?
    requires if ev.Updated? then
               o == ev.before && after == ev.after && o.ns == after.ns && o.name == after.name &&
               believed == OwnerNow(o, ev.setsBefore) && wanted == OwnerNow(after, ev.setsAfter)
             else o == ev.o == after && believed == OwnerNow(o, ev.sets)
    ensures Turn(MapPod(o, believed), PodWanted(after, wanted, ev.Deleted?), ops)
    ensures Belongs(PrimaryId(o), PodWanted(after, wanted, ev.Deleted?))
    ensures Wanted(ev) == PodWanted(after, wanted, ev.Deleted?)
  {
    var b, a := MapPod(o, believed), PodWanted(after, wanted, ev.Deleted?);
    EmptyBelongs(PrimaryId(o));
    if ev.Updated? {
      NowBelongs(o, ev.setsBefore);
      NowBelongs(after, ev.setsAfter);
      assert EdgesNulFree(a) && EdgesNulFree(b) && EntitiesFine(b);
      UpdateTurns(b, a, ops);
    } else {
      NowBelongs(o, ev.sets);
      assert EntitiesFine(b);
      DeleteTurns(b, ops);
    }
  }

  lemma DriftIff(o: Object, after: Object, stored: Owner, believed: Owner, wanted: Owner, deleted: bool, ops: seq<Op>)
    requires SamePod(o, after) && (deleted ==> wanted == NOBODY)
    requires ValidOwner(o.ns, stored) && ValidOwner(o.ns, believed) && ValidOwner(o.ns, wanted)
    requires var a := PodWanted(after, wanted, deleted); Turn(MapPod(o, believed), a, ops) && Belongs(PrimaryId(o), a)
    ensures (forall from, e ::
              ActOps(ops, EdgeMember(from, e), Shown(HasEdge(MapPod(o, stored), from, e))) ==
              Shown(HasEdge(PodWanted(after, wanted, deleted), from, e)))
            <==> OwnerHarmless(stored, believed, wanted)
  {
    var d, b, a := MapPod(o, stored), MapPod(o, believed), PodWanted(after, wanted, deleted);
    OwnerDriftIff(o, after, stored, believed, wanted, deleted);
    AllMistakes(d, b, a, ops, PrimaryId(o));
  }

  lemma AllMistakes(d: Desired, b: Desired, a: Desired, ops: seq<Op>, key: string)
    requires Turn(b, a, ops) && Belongs(key, a)
    ensures (forall from, e ::
             ActOps(ops, EdgeMember(from, e), Shown(HasEdge(d, from, e))) == Shown(HasEdge(a, from, e)))
            <==> (forall from, e :: Harmless(d, b, a, from, e))
  {
    forall from, e
      ensures ActOps(ops, EdgeMember(from, e), Shown(HasEdge(d, from, e))) == Shown(HasEdge(a, from, e))
              <==> Harmless(d, b, a, from, e)
    {
      MistakeIff(d, b, a, ops, key, from, e);
    }
  }

  lemma OwnerThroughSet(ns: string, set1: string, dep: string)
    ensures var refs := [OwnerRef("ReplicaSet", set1)];
            OwnerFor(ns, refs, map[(ns, set1) := [OwnerRef("Deployment", dep)]]) ==
              Owner(Id2(DEPLOYMENT, ns, dep), dep, DEPLOYMENT) &&
            OwnerFor(ns, refs, map[]) == NOBODY
  {
    assert [OwnerRef("ReplicaSet", set1)][1..] == [];
  }

  /** A pod added while its ReplicaSet is cached and deleted when it is not: the edge from the
      deployment stays behind. */
  lemma OwnerDriftLeavesEdge(ns: string, pod: string, set1: string, dep: string, ops: seq<Op>)
    requires Clean(ns) && Clean(pod) && Clean(set1) && Clean(dep)
    requires var o := Pod(ns, pod, "", [OwnerRef("ReplicaSet", set1)], [], map[]);
             Issues(Deleted(o, map[]), ops)
    ensures var o := Pod(ns, pod, "", [OwnerRef("ReplicaSet", set1)], [], map[]);
            var sets := map[(ns, set1) := [OwnerRef("Deployment", dep)]];
            var at := EdgeMember(Id2(DEPLOYMENT, ns, dep), Edge(Manages, PodId(ns, pod), ""));
            HasEdge(DesireNow(o, sets), at.from, at.edge) && ActOps(ops, at, Member) == Member
  {
    var o := Pod(ns, pod, "", [OwnerRef("ReplicaSet", set1)], [], map[]);
    var sets := map[(ns, set1) := [OwnerRef("Deployment", dep)]];
    var owner := Owner(Id2(DEPLOYMENT, ns, dep), dep, DEPLOYMENT);
    var from, e := Id2(DEPLOYMENT, ns, dep), Edge(Manages, PodId(ns, pod), "");
    OwnerThroughSet(ns, set1, dep);
    OwnerContributes(o, owner, from, e);
    OwnerContributes(o, NOBODY, from, e);
    NowBelongs(o, map[]);
    var b := MapPod(o, NOBODY);
    assert EntitiesFine(b);
    DeleteTurns(b, ops);
    OwnerIsNoEmitter(ns, owner);
    EdgeAfterTurn(b, NO_DESIRES, ops, from, e, Member);
  }
}
