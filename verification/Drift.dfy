/** Pod owners over whole histories: the ReplicaSet cache may change between events, so that a
    handler takes a pod to have been stored with another owner than it was. When the store is
    right all the same. */
module Drift {
  import opened Graph
  import opened GraphStore
  import opened Mapper
  import opened Ownership
  import opened Desires
  import opened Watcher
  import opened EventEffects
  import opened WatcherRuns
  import opened EdgeRuns
  import opened WatcherLimits

  /** The owner a pod was stored with, the one its handler resolves for the old object now, and
      the one it resolves for the new object go together. */
  predicate OwnersFit(live: Live, ev: Event) {
    !ev.Added? && Subject(ev).Pod? ==> OwnerHarmless(OwnerStored(live, ev), OwnerBelieved(ev), OwnerWanted(ev))
  }

  ghost predicate OwnersFitAt(evs: seq<Event>, n: nat)
    requires n < |evs|
  {
    OwnersFit(LiveAfter(evs[..n]), evs[n])
  }

  // ----- which beliefs fit

  lemma NobodyElseLoses(live: Live, ev: Event, from: string, e: Edge)
    requires LiveFine(live) && ValidEvent(ev) && Delivered(live, ev) && Dropped(Believed(ev), Wanted(ev), from)
    ensures !ImpliedElsewhere(live, Key(ev), from, e) && !HasEdge(Wanted(ev), from, e)
  {
    EventBelongs(live, ev);
    DroppedIsPrivate(live, Key(ev), Believed(ev), Wanted(ev), from, e);
    DroppedCarriesNothing(Key(ev), Believed(ev), Wanted(ev), from, e);
  }

  /** A belief that is no mistake fits an edge unless the event orphans the edge. */
  lemma TrueBeliefFits(live: Live, ev: Event, from: string, e: Edge)
    requires LiveFine(live) && ValidEvent(ev) && Delivered(live, ev) && Believed(ev) == Stored(live, ev)
    ensures Fits(live, ev, from, e) <==> !Orphans(live, ev, from, e)
  {
    if Dropped(Believed(ev), Wanted(ev), from) {
      NobodyElseLoses(live, ev, from, e);
    }
  }

  /** About an edge no other object implies, fitting is being harmless. */
  lemma FitsOrHarms(live: Live, ev: Event, from: string, e: Edge)
    requires ValidEvent(ev) && Delivered(live, ev) && !ImpliedElsewhere(live, Key(ev), from, e)
    ensures Fits(live, ev, from, e) <==> Harmless(Stored(live, ev), Believed(ev), Wanted(ev), from, e)
  {
    if Loses(ev, from, e) {
      LosesNothingWanted(live, ev, from, e);
    }
  }

  /** An edge that is neither stored for, believed of nor wanted by the object. */
  predicate NoBusiness(d: Desired, b: Desired, a: Desired, from: string, e: Edge) {
    !HasEdge(d, from, e) && !HasEdge(b, from, e) && !HasEdge(a, from, e)
  }

  lemma NoBusinessFits(live: Live, ev: Event, from: string, e: Edge)
    requires LiveFine(live) && ValidEvent(ev) && Delivered(live, ev)
    requires NoBusiness(Stored(live, ev), Believed(ev), Wanted(ev), from, e)
    ensures Fits(live, ev, from, e) && Harmless(Stored(live, ev), Believed(ev), Wanted(ev), from, e)
  {
    if Dropped(Believed(ev), Wanted(ev), from) {
      NobodyElseLoses(live, ev, from, e);
    }
  }

  lemma PrivateFitsIff(live: Live, ev: Event, from: string, e: Edge)
    requires LiveFine(live) && ValidEvent(ev) && Delivered(live, ev) && !SharedEdge(from, e)
    ensures Fits(live, ev, from, e) <==> Harmless(Stored(live, ev), Believed(ev), Wanted(ev), from, e)
  {
    var d, b, a := Stored(live, ev), Believed(ev), Wanted(ev);
    EventBelongs(live, ev);
    EmptyBelongs(Key(ev));
    if NoBusiness(d, b, a, from, e) {
      NoBusinessFits(live, ev, from, e);
    } else {
      var mine := if HasEdge(d, from, e) then d else if HasEdge(b, from, e) then b else a;
      PrivateNotElsewhere(live, Key(ev), mine, from, e);
      FitsOrHarms(live, ev, from, e);
    }
  }

  lemma PodHasNoSharedEdge(key: string, d: Desired, from: string, e: Edge)
    requires Belongs(key, d) && KindOf(key) != NODE && SharedEdge(from, e)
    ensures !HasEdge(d, from, e)
  {
    if HasEdge(d, from, e) {
      EdgeBelongs(key, d, from, e);
    }
  }

  lemma SharedHarmless(live: Live, ev: Event, from: string, e: Edge)
    requires LiveFine(live) && ValidEvent(ev) && Delivered(live, ev) && SharedEdge(from, e) && Subject(ev).Pod?
    ensures NoBusiness(Stored(live, ev), Believed(ev), Wanted(ev), from, e)
  {
    EventBelongs(live, ev);
    EmptyBelongs(Key(ev));
    PrimaryParts(Subject(ev));
    PodHasNoSharedEdge(Key(ev), Stored(live, ev), from, e);
    PodHasNoSharedEdge(Key(ev), Believed(ev), from, e);
    PodHasNoSharedEdge(Key(ev), Wanted(ev), from, e);
  }

  ghost predicate AllPrivateFit(live: Live, ev: Event) {
    forall from, e | !SharedEdge(from, e) :: Fits(live, ev, from, e)
  }

  lemma PodFitsIff(live: Live, ev: Event, o: Object, after: Object)
    requires LiveFine(live) && LiveMapped(live) && ValidEvent(ev) && Delivered(live, ev)
    requires !ev.Added? && Subject(ev).Pod? && after == Subject(ev) && o == Before(ev)
    ensures AllPrivateFit(live, ev) <==> OwnersFit(live, ev)
  {
    PodEvent(live, ev, o, after);
    var d, b, a := Stored(live, ev), Believed(ev), Wanted(ev);
    OwnerDriftIff(o, after, OwnerStored(live, ev), OwnerBelieved(ev), OwnerWanted(ev), ev.Deleted?);
    assert OwnersFit(live, ev) <==> forall from, e :: Harmless(d, b, a, from, e);
    forall from, e
      ensures !SharedEdge(from, e) ==> (Fits(live, ev, from, e) <==> Harmless(d, b, a, from, e))
      ensures SharedEdge(from, e) ==> Harmless(d, b, a, from, e)
    {
      if SharedEdge(from, e) {
        SharedHarmless(live, ev, from, e);
        NoBusinessFits(live, ev, from, e);
      } else {
        PrivateFitsIff(live, ev, from, e);
      }
    }
  }

  /** Without drift no private edge is harmed. */
  lemma SteadyFits(live: Live, ev: Event)
    requires LiveFine(live) && ValidEvent(ev) && Delivered(live, ev) && Believed(ev) == Stored(live, ev)
    ensures AllPrivateFit(live, ev)
  {
    EventBelongs(live, ev);
    forall from, e | !SharedEdge(from, e) ensures Fits(live, ev, from, e) {
      TrueBeliefFits(live, ev, from, e);
      if HasEdge(Believed(ev), from, e) {
        PrivateNotElsewhere(live, Key(ev), Believed(ev), from, e);
      }
    }
  }

  lemma EventFitsIff(live: Live, ev: Event)
    requires LiveFine(live) && LiveMapped(live) && ValidEvent(ev) && Delivered(live, ev)
    ensures AllPrivateFit(live, ev) <==> OwnersFit(live, ev)
  {
    if !ev.Added? && Subject(ev).Pod? {
      PodFitsIff(live, ev, Before(ev), Subject(ev));
    } else {
      OthersAreSteady(live, ev);
      SteadyFits(live, ev);
    }
  }

  lemma FitsAtIff(evs: seq<Event>, opss: seq<seq<Op>>, n: nat)
    requires History(evs, opss) && n < |evs|
    ensures OwnersFitAt(evs, n) <==> forall from, e | !SharedEdge(from, e) :: FitsAt(evs, n, from, e)
  {
    EventAt(evs, opss, n);
    EventFitsIff(LiveAfter(evs[..n]), evs[n]);
    assert (forall from, e | !SharedEdge(from, e) :: FitsAt(evs, n, from, e)) <==>
      AllPrivateFit(LiveAfter(evs[..n]), evs[n]);
  }

  ghost predicate AlwaysExact(evs: seq<Event>, opss: seq<seq<Op>>, from: string, e: Edge)
    requires |evs| == |opss|
  {
    forall n | 0 <= n <= |evs| :: ExactAt(evs, opss, n, from, e)
  }

  ghost predicate OwnersAlwaysFit(evs: seq<Event>) {
    forall n | 0 <= n < |evs| :: OwnersFitAt(evs, n)
  }

  lemma FittingIsExact(evs: seq<Event>, opss: seq<seq<Op>>, from: string, e: Edge)
    requires History(evs, opss) && OwnersAlwaysFit(evs) && !SharedEdge(from, e)
    ensures AlwaysExact(evs, opss, from, e)
  {
    EdgeFitsIff(evs, opss, from, e);
    forall n | 0 <= n < |evs| ensures FitsAt(evs, n, from, e) {
      FitsAtIff(evs, opss, n);
    }
  }

  lemma ExactIsFitting(evs: seq<Event>, opss: seq<seq<Op>>, n: nat)
    requires History(evs, opss) && n < |evs|
    requires forall from, e | !SharedEdge(from, e) :: AlwaysExact(evs, opss, from, e)
    ensures OwnersFitAt(evs, n)
  {
    forall from, e | !SharedEdge(from, e) ensures FitsAt(evs, n, from, e) {
      assert AlwaysExact(evs, opss, from, e);
      EdgeFitsIff(evs, opss, from, e);
    }
    FitsAtIff(evs, opss, n);
  }

  /** Over every history, however the ReplicaSet cache changes: the store is right about every
      edge at all times, region-zone pairs excepted, if and only if the owners fit at every
      update and deletion of a pod. */
  lemma PrivateExactIff(evs: seq<Event>, opss: seq<seq<Op>>)
    requires History(evs, opss)
    ensures (forall from, e | !SharedEdge(from, e) :: AlwaysExact(evs, opss, from, e)) <==> OwnersAlwaysFit(evs)
  {
    if OwnersAlwaysFit(evs) {
      forall from, e | !SharedEdge(from, e) ensures AlwaysExact(evs, opss, from, e) {
        FittingIsExact(evs, opss, from, e);
      }
    }
    if forall from, e | !SharedEdge(from, e) :: AlwaysExact(evs, opss, from, e) {
      forall n | 0 <= n < |evs| ensures OwnersFitAt(evs, n) {
        ExactIsFitting(evs, opss, n);
      }
    }
  }

  /** And it is right about a region-zone edge at all times if and only if no node takes the
      edge away while another one implies it. */
  lemma SharedExactIff(evs: seq<Event>, opss: seq<seq<Op>>, from: string, e: Edge)
    requires History(evs, opss) && SharedEdge(from, e)
    ensures (forall n | 0 <= n <= |evs| :: ExactAt(evs, opss, n, from, e)) <==>
            (forall n | 0 <= n < |evs| :: !OrphansAt(evs, n, from, e))
  {
    EdgeFitsIff(evs, opss, from, e);
    forall n | 0 <= n < |evs| ensures FitsAt(evs, n, from, e) <==> !OrphansAt(evs, n, from, e) {
      EventAt(evs, opss, n);
      SharedFitsIff(LiveAfter(evs[..n]), evs[n], from, e);
    }
  }

  lemma SharedFitsIff(live: Live, ev: Event, from: string, e: Edge)
    requires LiveFine(live) && LiveMapped(live) && ValidEvent(ev) && Delivered(live, ev) && SharedEdge(from, e)
    ensures Fits(live, ev, from, e) <==> !Orphans(live, ev, from, e)
  {
    if !ev.Added? && Subject(ev).Pod? {
      SharedHarmless(live, ev, from, e);
      NoBusinessFits(live, ev, from, e);
    } else {
      OthersAreSteady(live, ev);
      TrueBeliefFits(live, ev, from, e);
    }
  }

  // ----- what the live objects imply

  /** A stored region-zone edge is always implied by some live node. */
  lemma {:induction false} StoredEdgesAreImplied(evs: seq<Event>, opss: seq<seq<Op>>, from: string, e: Edge)
    requires History(evs, opss) && SharedEdge(from, e)
    ensures Finally(opss, EdgeMember(from, e)) != Absent ==>
              Finally(opss, EdgeMember(from, e)) == Member && Implied(LiveAfter(evs), from, e)
  {
    if evs != [] {
      var init, opss' := evs[..|evs| - 1], opss[..|evs| - 1];
      StoredEdgesAreImplied(init, opss', from, e);
      FinallySnoc(opss, EdgeMember(from, e));
      var live, ev, ops := LiveAfter(init), evs[|evs| - 1], opss[|evs| - 1];
      LastEvent(evs, opss, init, ev, ops);
      EdgeAfterEvent(live, ev, ops, from, e, Finally(opss', EdgeMember(from, e)));
      SharedStays(live, ev, from, e);
    }
  }

  lemma SharedStays(live: Live, ev: Event, from: string, e: Edge)
    requires LiveFine(live) && LiveMapped(live) && ValidEvent(ev) && Delivered(live, ev) && SharedEdge(from, e)
    ensures Gains(ev, from, e) ==> Implied(Next(live, ev), from, e)
    ensures Implied(live, from, e) && !Loses(ev, from, e) ==> Implied(Next(live, ev), from, e)
  {
    OthersStay(live, ev, from, e);
    if !ev.Added? && Subject(ev).Pod? {
      SharedHarmless(live, ev, from, e);
    } else {
      OthersAreSteady(live, ev);
    }
  }

  /** As long as the owners fit, the stored edges, the region-zone pairs excepted, are exactly
      the disjoint union of what the live objects imply. */
  lemma EdgesAreTheUnion(evs: seq<Event>, opss: seq<seq<Op>>, from: string, e: Edge)
    requires History(evs, opss) && OwnersAlwaysFit(evs) && !SharedEdge(from, e)
    ensures var live, owner := LiveAfter(evs), EdgeOwner(from, e);
            && Finally(opss, EdgeMember(from, e)) == Shown(owner in live && HasEdge(live[owner].d, from, e))
            && forall k | k in live && HasEdge(live[k].d, from, e) :: k == owner
  {
    FittingIsExact(evs, opss, from, e);
    assert ExactAt(evs, opss, |evs|, from, e);
    assert evs[..|evs|] == evs && opss[..|opss|] == opss;
    var live := LiveAfter(evs);
    LivesFine(evs, opss);
    forall k | k in live && HasEdge(live[k].d, from, e) ensures k == EdgeOwner(from, e) {
      EdgeBelongs(k, live[k].d, from, e);
    }
  }

  /** Objects other than pods never drift. */
  lemma NoPodNoDrift(evs: seq<Event>)
    requires forall ev | ev in evs :: !Subject(ev).Pod?
    ensures OwnersAlwaysFit(evs)
  {
  }
}
