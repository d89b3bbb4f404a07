/** Edges without an end. A structural edge is stored together with the entities at both ends and
    with its counterpart; which edges can lose one of them, and exactly when none ever does. */
module Dangling {
  import opened Graph
  import opened GraphStore
  import opened Mapper
  import opened Ownership
  import opened Desires
  import opened EventEffects
  import opened WatcherRuns
  import opened EdgeRuns
  import opened WatcherLimits
  import opened Drift
  import opened Wholeness
  import opened Interleaving
  import opened SystemRuns

  // ----- the ends of an edge over a history

  /** The entity is stored when the first `n` events have been handled. */
  ghost predicate Present(evs: seq<Event>, n: nat, id: string)
    requires n <= |evs|
  {
    if IsEmitter(id) then EntityImplied(LiveAfter(evs[..n]), id) else EverImplied(evs[..n], id)
  }

  lemma PresentIff(evs: seq<Event>, opss: seq<seq<Op>>, n: nat, id: string)
    requires History(evs, opss) && n <= |evs|
    ensures Finally(opss[..n], CoreOf(id)) != Absent <==> Present(evs, n, id)
  {
    HistoryPrefix(evs, opss, n);
    if IsEmitter(id) {
      EmittersExact(evs[..n], opss[..n], id, CoreOf(id));
    } else {
      OthersAccumulate(evs[..n], opss[..n], id, CoreOf(id));
    }
  }

  lemma StoredIff(evs: seq<Event>, opss: seq<seq<Op>>, n: nat, from: string, e: Edge)
    requires History(evs, opss) && n <= |evs|
    ensures Finally(opss[..n], EdgeMember(from, e)) != Absent <==> GainedLast(evs, n, from, e)
  {
    LastChangeDecides(evs, opss, n, from, e, Absent);
  }

  lemma PresentNext(evs: seq<Event>, opss: seq<seq<Op>>, n: nat, m: nat, id: string)
    requires History(evs, opss) && n < |evs| && m == n + 1
    ensures Present(evs, m, id) <==>
            HasEntity(Wanted(evs[n]), id) || (Present(evs, n, id) && !Dropped(Believed(evs[n]), Wanted(evs[n]), id))
  {
    if IsEmitter(id) {
      EventAt(evs, opss, n);
      EmitterNext(LiveAfter(evs[..n]), evs[n], id);
    } else {
      EverNext(evs, n, m, id);
    }
  }

  lemma EverNext(evs: seq<Event>, n: nat, m: nat, id: string)
    requires n < |evs| && m == n + 1
    ensures EverImplied(evs[..m], id) <==> HasEntity(Wanted(evs[n]), id) || EverImplied(evs[..n], id)
  {
    var upto := evs[..m];
    assert |upto| == m && upto[..n] == evs[..n] && upto[n] == evs[n];
  }

  predicate Managing(e: Edge) {
    e.kind.Manages? || e.kind.ManagedBy?
  }

  predicate IntoPod(e: Edge) {
    e.kind.Manages? && KindOf(e.to) == POD
  }

  lemma SubjectKind(ev: Event)
    requires ValidEvent(ev)
    ensures KindOf(Key(ev)) == KindOfObject(Subject(ev)) && InformerKind(KindOf(Key(ev)))
    ensures KindOf(Key(ev)) == POD <==> Subject(ev).Pod?
  {
    KeyKind(Subject(ev));
  }

  /** Only pods want pods and containers. */
  lemma WantedByPod(live: Live, ev: Event, id: string)
    requires ValidEvent(ev) && Delivered(live, ev) && IsEmitter(id) && HasEntity(Wanted(ev), id)
    ensures !ev.Deleted? && Subject(ev).Pod? && KindOf(Key(ev)) == POD
  {
    EmitterEnds(live, ev, id);
    SubjectKind(ev);
    EmitterOfPod(Key(ev), id);
  }

  /** Among edges that manage something, the ones into pods and containers lead from the owner of
      a pod to the pod. */
  lemma ManagerShape(live: Live, ev: Event, from: string, e: Edge)
    requires ValidEvent(ev) && Delivered(live, ev) && HasEdge(Wanted(ev), from, e) && Managing(e) && IsEmitter(e.to)
    ensures IntoPod(e) && e.to == Key(ev) && !IsEmitter(from) && from != ""
  {
    EventWhole(ev);
    assert WholeEdge(Wanted(ev), from, e);
    WantedByPod(live, ev, e.to);
    EmitterEnds(live, ev, e.to);
    EventMapped(ev);
    OwnerContributes(Subject(ev), OwnerWanted(ev), from, e);
    OwnerIsNoEmitter(Subject(ev).ns, OwnerWanted(ev));
  }

  lemma GainWitness(evs: seq<Event>, opss: seq<seq<Op>>, n: nat, from: string, e: Edge) returns (i: nat)
    requires History(evs, opss) && n <= |evs| && GainedLast(evs, n, from, e)
    ensures i < n && HasEdge(Wanted(evs[i]), from, e) && ValidEvent(evs[i]) && Delivered(LiveAfter(evs[..i]), evs[i])
  {
    i :| 0 <= i < n && GainedAt(evs, i, n, from, e);
    EventAt(evs, opss, i);
  }

  lemma StoredManagerShape(evs: seq<Event>, opss: seq<seq<Op>>, n: nat, from: string, e: Edge)
    requires History(evs, opss) && n <= |evs| && GainedLast(evs, n, from, e) && Managing(e) && IsEmitter(e.to)
    ensures IntoPod(e) && !IsEmitter(from) && from != ""
  {
    var i := GainWitness(evs, opss, n, from, e);
    ManagerShape(LiveAfter(evs[..i]), evs[i], from, e);
  }

  // ----- about other edges no handler is mistaken

  lemma BeliefAgrees(live: Live, ev: Event, from: string, e: Edge)
    requires LiveMapped(live) && ValidEvent(ev) && Delivered(live, ev) && !Managing(e)
    ensures HasEdge(Stored(live, ev), from, e) <==> HasEdge(Believed(ev), from, e)
  {
    if ev.Added? || !Subject(ev).Pod? {
      OthersAreSteady(live, ev);
    } else {
      PodEvent(live, ev, Before(ev), Subject(ev));
      OwnerContributes(Before(ev), OwnerStored(live, ev), from, e);
      OwnerContributes(Before(ev), OwnerBelieved(ev), from, e);
    }
  }

  lemma UnmanagedFits(evs: seq<Event>, opss: seq<seq<Op>>, n: nat, from: string, e: Edge)
    requires History(evs, opss) && n < |evs| && !Managing(e) && !SharedEdge(from, e)
    ensures FitsAt(evs, n, from, e)
  {
    EventAt(evs, opss, n);
    BeliefAgrees(LiveAfter(evs[..n]), evs[n], from, e);
    PrivateFitsIff(LiveAfter(evs[..n]), evs[n], from, e);
  }

  lemma UnmanagedIsImplied(evs: seq<Event>, opss: seq<seq<Op>>, n: nat, from: string, e: Edge)
    requires History(evs, opss) && n <= |evs| && !Managing(e) && !SharedEdge(from, e)
    ensures GainedLast(evs, n, from, e) <==> Implied(LiveAfter(evs[..n]), from, e)
  {
    forall m | 0 <= m < |evs| ensures FitsAt(evs, m, from, e) {
      UnmanagedFits(evs, opss, m, from, e);
    }
    EdgeFitsIff(evs, opss, from, e);
    assert ExactAt(evs, opss, n, from, e);
    LastChangeDecides(evs, opss, n, from, e, Absent);
  }

  /** An edge into a pod or container of a live object belongs to that object. */
  lemma ImpliedByPod(live: Live, key: string, from: string, e: Edge)
    requires LiveFine(live) && LiveMapped(live) && Implied(live, from, e) && IsEmitter(e.to) && PodOf(e.to) == key
    ensures key in live && HasEdge(live[key].d, from, e)
  {
    var k :| k in live && HasEdge(live[k].d, from, e);
    DesireWhole(live[k].o, live[k].owner);
    assert WholeEdge(live[k].d, from, e);
    EmitterBelongs(k, live[k].d, e.to);
  }

  lemma UnmanagedGoes(live: Live, ev: Event, from: string, e: Edge)
    requires LiveFine(live) && LiveMapped(live) && ValidEvent(ev) && Delivered(live, ev)
    requires Implied(live, from, e) && !Managing(e) && Dropped(Believed(ev), Wanted(ev), e.to)
    ensures Loses(ev, from, e)
  {
    EmitterEnds(live, ev, e.to);
    ImpliedByPod(live, Key(ev), from, e);
    BeliefAgrees(live, ev, from, e);
    EventWhole(ev);
    assert HasEdge(Wanted(ev), from, e) ==> WholeEdge(Wanted(ev), from, e);
  }

  /** Only edges from owners to pods can outlast the pod or container they lead to. */
  lemma OutlastsEnd(evs: seq<Event>, opss: seq<seq<Op>>, n: nat, from: string, e: Edge)
    requires History(evs, opss) && n < |evs| && GainedLast(evs, n, from, e) && !Loses(evs[n], from, e)
    requires Dropped(Believed(evs[n]), Wanted(evs[n]), e.to)
    ensures IntoPod(e)
  {
    if Managing(e) {
      StoredManagerShape(evs, opss, n, from, e);
    } else {
      EventAt(evs, opss, n);
      UnmanagedIsImplied(evs, opss, n, from, e);
      UnmanagedGoes(LiveAfter(evs[..n]), evs[n], from, e);
    }
  }

  lemma GainedEnds(evs: seq<Event>, opss: seq<seq<Op>>, n: nat, m: nat, from: string, e: Edge)
    requires History(evs, opss) && n < |evs| && m == n + 1 && Gains(evs[n], from, e)
    ensures Present(evs, m, from) && Present(evs, m, e.to)
  {
    EventWhole(evs[n]);
    assert WholeEdge(Wanted(evs[n]), from, e);
    PresentNext(evs, opss, n, m, from);
    PresentNext(evs, opss, n, m, e.to);
  }

  /** Whatever becomes of the ReplicaSet cache: a stored edge has both its ends, unless it leads
      from an owner to a pod; then it has its source. */
  lemma {:induction false} EndsAt(evs: seq<Event>, opss: seq<seq<Op>>, n: nat, from: string, e: Edge)
    requires History(evs, opss) && n <= |evs| && GainedLast(evs, n, from, e)
    ensures Present(evs, n, from) && (Present(evs, n, e.to) || IntoPod(e))
    decreases n
  {
    var m := n - 1;
    GainedSince(evs, m, n, from, e);
    if Gains(evs[m], from, e) {
      GainedEnds(evs, opss, m, n, from, e);
    } else {
      EndsAt(evs, opss, m, from, e);
      PresentNext(evs, opss, m, n, from);
      PresentNext(evs, opss, m, n, e.to);
      if Dropped(Believed(evs[m]), Wanted(evs[m]), e.to) {
        OutlastsEnd(evs, opss, m, from, e);
      }
    }
  }

  // ----- owners known at deletions

  /** If a pod is deleted, every owner with a stored edge to it is the one resolved then. */
  ghost predicate OwnersKnownAt(evs: seq<Event>, n: nat)
    requires n < |evs|
  {
    evs[n].Deleted? && Subject(evs[n]).Pod? ==>
      forall from | GainedLast(evs, n, from, Edge(Manages, Key(evs[n]), "")) :: from == OwnerBelieved(evs[n]).id
  }

  ghost predicate OwnersKnown(evs: seq<Event>) {
    forall n | 0 <= n < |evs| :: OwnersKnownAt(evs, n)
  }

  lemma DroppedPod(live: Live, ev: Event, id: string)
    requires ValidEvent(ev) && Delivered(live, ev) && KindOf(id) == POD && Dropped(Believed(ev), Wanted(ev), id)
    ensures ev.Deleted? && Subject(ev).Pod? && id == Key(ev)
  {
    EventBelongs(live, ev);
    EmitterEnds(live, ev, id);
    SubjectKind(ev);
  }

  /** Deleting a pod takes away the edge of the owner resolved then, and of no other. */
  lemma KnownOwnerGoes(live: Live, ev: Event, e: Edge)
    requires LiveMapped(live) && ValidEvent(ev) && Delivered(live, ev) && ev.Deleted? && Subject(ev).Pod?
    requires e == Edge(Manages, Key(ev), "")
    ensures forall from | from != "" && !IsEmitter(from) :: Loses(ev, from, e) <==> from == OwnerBelieved(ev).id
  {
    PodEvent(live, ev, Before(ev), Subject(ev));
    forall from | from != ""
      ensures HasEdge(Believed(ev), from, e) <==> from == OwnerBelieved(ev).id
    {
      OwnerContributes(Before(ev), OwnerBelieved(ev), from, e);
    }
  }

  lemma StoredAction(evs: seq<Event>, opss: seq<seq<Op>>, n: nat, from: string, e: Edge)
    requires History(evs, opss) && n <= |evs| && GainedLast(evs, n, from, e)
    ensures e.action == ""
  {
    var i := GainWitness(evs, opss, n, from, e);
    EventWhole(evs[i]);
    assert WholeEdge(Wanted(evs[i]), from, e);
  }

  lemma {:induction false} PodsStay(evs: seq<Event>, opss: seq<seq<Op>>, n: nat, from: string, e: Edge)
    requires History(evs, opss) && OwnersKnown(evs) && n <= |evs| && GainedLast(evs, n, from, e) && IntoPod(e)
    ensures Present(evs, n, e.to)
    decreases n
  {
    var m := n - 1;
    GainedSince(evs, m, n, from, e);
    if Gains(evs[m], from, e) {
      GainedEnds(evs, opss, m, n, from, e);
    } else {
      PodsStay(evs, opss, m, from, e);
      PresentNext(evs, opss, m, n, e.to);
      if Dropped(Believed(evs[m]), Wanted(evs[m]), e.to) {
        LeftBehind(evs, opss, m, from, e);
        assert false;
      }
    }
  }

  /** What a deletion leaves behind comes from an owner not known then. */
  lemma LeftBehind(evs: seq<Event>, opss: seq<seq<Op>>, n: nat, from: string, e: Edge)
    requires History(evs, opss) && n < |evs| && GainedLast(evs, n, from, e) && IntoPod(e)
    requires Dropped(Believed(evs[n]), Wanted(evs[n]), e.to) && !Loses(evs[n], from, e)
    ensures !OwnersKnownAt(evs, n)
  {
    var live := LiveAfter(evs[..n]);
    EventAt(evs, opss, n);
    DroppedPod(live, evs[n], e.to);
    StoredAction(evs, opss, n, from, e);
    StoredManagerShape(evs, opss, n, from, e);
    KnownOwnerGoes(live, evs[n], e);
  }

  lemma BackGained(ev: Event, from: string, e: Edge)
    requires Gains(ev, from, e)
    ensures Gains(ev, e.to, Back(from, e))
  {
    EventWhole(ev);
    assert WholeEdge(Wanted(ev), from, e);
    BackAndForth(Believed(ev), from, e);
  }

  lemma BackLost(ev: Event, from: string, e: Edge)
    requires e.action == "" && Loses(ev, e.to, Back(from, e)) && !Loses(ev, from, e)
    ensures Dropped(Believed(ev), Wanted(ev), e.to)
  {
    EventWhole(ev);
    BackAndForth(Believed(ev), from, e);
    BackAndForth(Wanted(ev), from, e);
  }

  lemma {:induction false} PairedAt(evs: seq<Event>, opss: seq<seq<Op>>, n: nat, from: string, e: Edge)
    requires History(evs, opss) && OwnersKnown(evs) && n <= |evs| && GainedLast(evs, n, from, e)
    ensures GainedLast(evs, n, e.to, Back(from, e))
    decreases n
  {
    var m := n - 1;
    GainedSince(evs, m, n, from, e);
    if Gains(evs[m], from, e) {
      BackGained(evs[m], from, e);
    } else {
      PairedAt(evs, opss, m, from, e);
      StoredAction(evs, opss, m, from, e);
      if Loses(evs[m], e.to, Back(from, e)) {
        BackLost(evs[m], from, e);
        PresentNext(evs, opss, m, n, e.to);
        BothEnds(evs, opss, n, from, e);
        assert false;
      }
    }
    GainedThen(evs, m, n, e.to, Back(from, e));
  }

  lemma BothEnds(evs: seq<Event>, opss: seq<seq<Op>>, n: nat, from: string, e: Edge)
    requires History(evs, opss) && OwnersKnown(evs) && n <= |evs| && GainedLast(evs, n, from, e)
    ensures Present(evs, n, from) && Present(evs, n, e.to)
  {
    EndsAt(evs, opss, n, from, e);
    if IntoPod(e) {
      PodsStay(evs, opss, n, from, e);
    }
  }

  /** The deletion of a pod leaves the edge of an owner not resolved then without its pod and
      without its counterpart. */
  lemma UnknownOwner(evs: seq<Event>, opss: seq<seq<Op>>, n: nat, m: nat, from: string, e: Edge)
    requires History(evs, opss) && n < |evs| && m == n + 1 && evs[n].Deleted? && Subject(evs[n]).Pod?
    requires e == Edge(Manages, Key(evs[n]), "") && GainedLast(evs, n, from, e) && from != OwnerBelieved(evs[n]).id
    ensures GainedLast(evs, m, from, e) && !Present(evs, m, e.to) && !GainedLast(evs, m, e.to, Back(from, e))
  {
    var live, ev := LiveAfter(evs[..n]), evs[n];
    EventAt(evs, opss, n);
    SubjectKind(ev);
    StoredManagerShape(evs, opss, n, from, e);
    KnownOwnerGoes(live, ev, e);
    GainedThen(evs, n, m, from, e);
    DeletedPodDrops(live, ev);
    PresentNext(evs, opss, n, m, e.to);
    ChangedNext(evs, n, m, e.to, Back(from, e));
  }

  lemma DeletedPodDrops(live: Live, ev: Event)
    requires ValidEvent(ev) && Delivered(live, ev) && ev.Deleted? && Subject(ev).Pod?
    ensures Dropped(Believed(ev), Wanted(ev), Key(ev))
    ensures forall from, e :: !HasEdge(Wanted(ev), from, e)
  {
    SubjectKind(ev);
    NowBelongs(ev.o, ev.sets);
  }

  // ----- exactly when no edge ever dangles

  ghost predicate NeverDangles(evs: seq<Event>, opss: seq<seq<Op>>)
    requires |evs| == |opss|
  {
    forall n, from, e | 0 <= n <= |evs| && Finally(opss[..n], EdgeMember(from, e)) != Absent ::
      Finally(opss[..n], CoreOf(from)) != Absent && Finally(opss[..n], CoreOf(e.to)) != Absent
  }

  ghost predicate AlwaysPaired(evs: seq<Event>, opss: seq<seq<Op>>)
    requires |evs| == |opss|
  {
    forall n, from, e | 0 <= n <= |evs| && Finally(opss[..n], EdgeMember(from, e)) != Absent ::
      Finally(opss[..n], EdgeMember(e.to, Back(from, e))) != Absent
  }

  lemma KnownNeverDangles(evs: seq<Event>, opss: seq<seq<Op>>)
    requires History(evs, opss) && OwnersKnown(evs)
    ensures NeverDangles(evs, opss) && AlwaysPaired(evs, opss)
  {
    forall n, from, e | 0 <= n <= |evs| && Finally(opss[..n], EdgeMember(from, e)) != Absent
      ensures Finally(opss[..n], CoreOf(from)) != Absent && Finally(opss[..n], CoreOf(e.to)) != Absent
      ensures Finally(opss[..n], EdgeMember(e.to, Back(from, e))) != Absent
    {
      StoredIff(evs, opss, n, from, e);
      BothEnds(evs, opss, n, from, e);
      PresentIff(evs, opss, n, from);
      PresentIff(evs, opss, n, e.to);
      PairedAt(evs, opss, n, from, e);
      StoredIff(evs, opss, n, e.to, Back(from, e));
    }
  }

  lemma UnknownDangles(evs: seq<Event>, opss: seq<seq<Op>>, n: nat)
    requires History(evs, opss) && n < |evs| && !OwnersKnownAt(evs, n)
    ensures !NeverDangles(evs, opss) && !AlwaysPaired(evs, opss)
  {
    var m, e := n + 1, Edge(Manages, Key(evs[n]), "");
    var from :| GainedLast(evs, n, from, e) && from != OwnerBelieved(evs[n]).id;
    UnknownOwner(evs, opss, n, m, from, e);
    StoredIff(evs, opss, m, from, e);
    PresentIff(evs, opss, m, e.to);
    StoredIff(evs, opss, m, e.to, Back(from, e));
  }

  /** Over every history, however the ReplicaSet cache changes: at all times both ends of every
      stored edge are stored, and so is its counterpart, if and only if at every deletion of a
      pod each owner with a stored edge to it is the one resolved then. */
  lemma NeverDanglesIff(evs: seq<Event>, opss: seq<seq<Op>>)
    requires History(evs, opss)
    ensures NeverDangles(evs, opss) <==> OwnersKnown(evs)
    ensures AlwaysPaired(evs, opss) <==> OwnersKnown(evs)
  {
    if OwnersKnown(evs) {
      KnownNeverDangles(evs, opss);
    } else {
      var n :| 0 <= n < |evs| && !OwnersKnownAt(evs, n);
      UnknownDangles(evs, opss, n);
    }
  }

  /** A pod added while its ReplicaSet is cached and deleted when it is not, as happens when a
      deployment is deleted in the background: the edge from the deployment dangles. */
  lemma VanishedSetDangles(ns: string, pod: string, set1: string, dep: string, opss: seq<seq<Op>>)
    requires Clean(ns) && Clean(pod) && Clean(set1) && Clean(dep)
    requires var o, sets := Pod(ns, pod, "", [OwnerRef("ReplicaSet", set1)], [], map[]),
                            map[(ns, set1) := [OwnerRef("Deployment", dep)]];
             History([Added(o, sets), Deleted(o, map[])], opss)
    ensures Finally(opss, EdgeMember(Id2(DEPLOYMENT, ns, dep), Edge(Manages, PodId(ns, pod), ""))) == Member
    ensures Finally(opss, CoreOf(PodId(ns, pod))) == Absent
  {
    var o, sets := Pod(ns, pod, "", [OwnerRef("ReplicaSet", set1)], [], map[]),
                   map[(ns, set1) := [OwnerRef("Deployment", dep)]];
    var evs := [Added(o, sets), Deleted(o, map[])];
    var owner := Owner(Id2(DEPLOYMENT, ns, dep), dep, DEPLOYMENT);
    var e := Edge(Manages, PodId(ns, pod), "");
    OwnerThroughSet(ns, set1, dep);
    OwnerContributes(o, owner, owner.id, e);
    assert Gains(evs[0], owner.id, e);
    GainedThen(evs, 0, 1, owner.id, e);
    UnknownOwner(evs, opss, 1, 2, owner.id, e);
    StoredIff(evs, opss, 2, owner.id, e);
    PresentIff(evs, opss, 2, PodId(ns, pod));
    LastChangeDecides(evs, opss, 2, owner.id, e, Absent);
    assert opss[..2] == opss;
  }

  // ----- on the server

  lemma GainedAtHome(evs: seq<Event>, opss: seq<seq<Op>>, kind: string, n: nat, from: string, e: Edge)
    requires History(evs, opss) && OfKind(evs, kind) && n <= |evs| && GainedLast(evs, n, from, e)
    ensures EdgeHome(from, e) == Sole(kind) && e.kind.Structural() && !IsRelation(from)
  {
    var i := GainWitness(evs, opss, n, from, e);
    assert evs[i] in evs;
    SubjectKind(evs[i]);
    EventBelongs(LiveAfter(evs[..i]), evs[i]);
    EdgeBelongs(Key(evs[i]), Wanted(evs[i]), from, e);
    EdgePermitted(Key(evs[i]), from, e);
  }

  lemma {:induction false} EverImpliedIsOurs(evs: seq<Event>, opss: seq<seq<Op>>, id: string)
    requires History(evs, opss) && EverImplied(evs, id)
    ensures !IsRelation(id)
  {
    var init, ev := evs[..|evs| - 1], evs[|evs| - 1];
    if EverImplied(init, id) {
      EverImpliedIsOurs(init, opss[..|evs| - 1], id);
    } else {
      EventBelongs(LiveAfter(init), ev);
      var ent :| ent in Wanted(ev).entities && ent.id == id;
      assert EntityFine(Key(ev), ent);
    }
  }

  lemma PresentOnServer(tr: Trace, evs: Deliveries, opss: Issuance, kind: string, id: string)
    requires Interleaves(tr, evs, opss) && kind != OTEL && Present(evs(kind), |evs(kind)|, id)
    ensures ActAll(All(tr), CoreOf(id), Absent) != Absent
  {
    var mine := evs(kind);
    assert OneInformer(tr, kind, mine, opss(kind));
    assert mine[..|mine|] == mine;
    if IsEmitter(id) {
      LivesFine(mine, opss(kind));
      LiveKinds(mine, opss(kind), kind);
      EmitterOfPod(PodOf(id), id);
      SystemEmittersExact(tr, evs, opss, id, CoreOf(id));
    } else {
      EverImpliedIsOurs(mine, opss(kind), id);
      SystemOthersAccumulate(tr, evs, opss, id, CoreOf(id));
    }
  }

  lemma PodOnServerIff(tr: Trace, evs: Deliveries, opss: Issuance, pod: string)
    requires Interleaves(tr, evs, opss) && KindOf(pod) == POD
    ensures ActAll(All(tr), CoreOf(pod), Absent) != Absent <==> pod in LiveAfter(evs(POD))
  {
    assert OneInformer(tr, POD, evs(POD), opss(POD));
    LivesFine(evs(POD), opss(POD));
    SystemEmittersExact(tr, evs, opss, pod, CoreOf(pod));
  }

  /** The informer whose stream the edge is in, where its last change was a gain. */
  lemma StoredAtHome(tr: Trace, evs: Deliveries, opss: Issuance, from: string, e: Edge) returns (kind: string)
    requires Interleaves(tr, evs, opss) && e.kind.Structural() && !IsRelation(from)
    requires ActAll(All(tr), EdgeMember(from, e), Absent) != Absent
    ensures kind != OTEL && OneInformer(tr, kind, evs(kind), opss(kind))
    ensures GainedLast(evs(kind), |evs(kind)|, from, e)
  {
    StructuralHome(from, e);
    kind := HomeKind(from, e);
    SystemLastChange(tr, evs, opss, from, e);
    assert OneInformer(tr, kind, evs(kind), opss(kind));
  }

  /** In any interleaving of all writers, however the ReplicaSet cache changes: a stored structural
      edge has its source; and it dangles if and only if it leads from an owner to a pod that is
      no longer alive. */
  lemma DanglesIff(tr: Trace, evs: Deliveries, opss: Issuance, from: string, e: Edge)
    requires Interleaves(tr, evs, opss) && e.kind.Structural() && !IsRelation(from)
    requires ActAll(All(tr), EdgeMember(from, e), Absent) != Absent
    ensures ActAll(All(tr), CoreOf(from), Absent) != Absent
    ensures ActAll(All(tr), CoreOf(e.to), Absent) == Absent <==> IntoPod(e) && e.to !in LiveAfter(evs(POD))
  {
    var kind := StoredAtHome(tr, evs, opss, from, e);
    EndsAt(evs(kind), opss(kind), |evs(kind)|, from, e);
    PresentOnServer(tr, evs, opss, kind, from);
    if IntoPod(e) {
      PodOnServerIff(tr, evs, opss, e.to);
    } else {
      PresentOnServer(tr, evs, opss, kind, e.to);
    }
  }

  lemma OnlyPodsAreLeft(evs: seq<Event>, kind: string)
    requires OfKind(evs, kind) && kind != POD
    ensures OwnersKnown(evs)
  {
  }

  /** As long as owners are known at the deletions of pods, in any interleaving of all writers no
      structural edge dangles and each has its counterpart, the region-zone pair included. */
  lemma NoEdgeDangles(tr: Trace, evs: Deliveries, opss: Issuance, from: string, e: Edge)
    requires Interleaves(tr, evs, opss) && e.kind.Structural() && !IsRelation(from) && OwnersKnown(evs(POD))
    requires ActAll(All(tr), EdgeMember(from, e), Absent) != Absent
    ensures ActAll(All(tr), CoreOf(from), Absent) != Absent && ActAll(All(tr), CoreOf(e.to), Absent) != Absent
    ensures ActAll(All(tr), EdgeMember(e.to, Back(from, e)), Absent) == Member
  {
    var kind := StoredAtHome(tr, evs, opss, from, e);
    var mine, n := evs(kind), |evs(kind)|;
    if kind != POD {
      OnlyPodsAreLeft(mine, kind);
    }
    BothEnds(mine, opss(kind), n, from, e);
    PresentOnServer(tr, evs, opss, kind, from);
    PresentOnServer(tr, evs, opss, kind, e.to);
    PairedAt(mine, opss(kind), n, from, e);
    GainedAtHome(mine, opss(kind), kind, n, e.to, Back(from, e));
    SystemLastChange(tr, evs, opss, e.to, Back(from, e));
  }
}
