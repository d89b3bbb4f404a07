/** How long an entity or an edge stays in the shared set, over whole histories of merges
    and expiries. */
module Lifetime {
  import opened Wrappers
  import opened Graph
  import opened BatchSet

  datatype Event = Merge(local: Snap, now: int) | Expire(cutoff: int)

  function RunEvents(evs: seq<Event>): Snap {
    if evs == [] then NOTHING
    else
      var s := RunEvents(evs[..|evs| - 1]);
      match evs[|evs| - 1]
      case Merge(local, now) => Merged(s, local, now)
      case Expire(cutoff) => Expired(s, cutoff)
  }

  /** An entity or an edge: what is looked up in a set. */
  datatype Item = Entity(id: string) | Relation(key: EdgeKey)

  predicate Has(s: Snap, x: Item) {
    match x
    case Entity(id) => id in s.entities
    case Relation(k) => k in s.edges
  }

  function SeenAt(s: Snap, x: Item): int
    requires Has(s, x)
  {
    match x
    case Entity(id) => s.entities[id].lastSeen
    case Relation(k) => s.edges[k]
  }

  /** Event `i` is the latest merge that carried the item. */
  ghost predicate LatestMerge(evs: seq<Event>, x: Item, i: nat) {
    && i < |evs| && evs[i].Merge? && Has(evs[i].local, x)
    && forall j | i < j < |evs| :: evs[j].Merge? ==> !Has(evs[j].local, x)
  }

  /** No expiry after event `i` reaches past its time. */
  ghost predicate Outlives(evs: seq<Event>, i: nat)
    requires i < |evs| && evs[i].Merge?
  {
    forall j | i < j < |evs| :: evs[j].Expire? ==> evs[j].cutoff <= evs[i].now
  }

  lemma LatestWithout(evs: seq<Event>, init: seq<Event>, last: Event, x: Item, i: nat)
    requires evs == init + [last] && !(last.Merge? && Has(last.local, x))
    ensures LatestMerge(evs, x, i) <==> LatestMerge(init, x, i)
    ensures LatestMerge(init, x, i) ==>
              (Outlives(evs, i) <==> Outlives(init, i) && (last.Expire? ==> last.cutoff <= init[i].now))
  {
    assert forall j | 0 <= j < |init| :: evs[j] == init[j];
    assert evs[|init|] == last;
  }

  /** The item was merged and has outlived every expiry since. */
  ghost predicate Alive(evs: seq<Event>, x: Item) {
    exists i: nat :: LatestMerge(evs, x, i) && Outlives(evs, i)
  }

  /** An item is in the set exactly when its latest merge outlives every later expiry, and
      then its last-seen time is the time of that merge. No order of times is assumed. */
  lemma {:induction false} Membership(evs: seq<Event>, x: Item)
    ensures Has(RunEvents(evs), x) <==> Alive(evs, x)
    ensures forall i: nat | LatestMerge(evs, x, i) && Outlives(evs, i) :: SeenAt(RunEvents(evs), x) == evs[i].now
  {
    if evs != [] {
      var n := |evs| - 1;
      var init, last := evs[..n], evs[n];
      assert evs == init + [last];
      Membership(init, x);
      if last.Merge? && Has(last.local, x) {
        assert LatestMerge(evs, x, n) && Outlives(evs, n);
      } else {
        MembershipWithout(evs, init, last, x);
      }
    }
  }

  lemma MembershipWithout(evs: seq<Event>, init: seq<Event>, last: Event, x: Item)
    requires evs == init + [last] && evs[..|evs| - 1] == init && !(last.Merge? && Has(last.local, x))
    requires Has(RunEvents(init), x) <==> Alive(init, x)
    requires forall i: nat | LatestMerge(init, x, i) && Outlives(init, i) :: SeenAt(RunEvents(init), x) == init[i].now
    ensures Has(RunEvents(evs), x) <==> Alive(evs, x)
    ensures forall i: nat | LatestMerge(evs, x, i) && Outlives(evs, i) :: SeenAt(RunEvents(evs), x) == evs[i].now
  {
    StepOther(RunEvents(init), last, x);
    forall i: nat
      ensures LatestMerge(evs, x, i) && Outlives(evs, i) <==>
              LatestMerge(init, x, i) && Outlives(init, i) && (last.Expire? ==> last.cutoff <= init[i].now)
    {
      LatestWithout(evs, init, last, x, i);
    }
    if Has(RunEvents(evs), x) {
      var i: nat :| LatestMerge(init, x, i) && Outlives(init, i);
      assert LatestMerge(evs, x, i) && Outlives(evs, i);
    }
    if Alive(evs, x) {
      var i: nat :| LatestMerge(evs, x, i) && Outlives(evs, i);
      assert LatestMerge(init, x, i) && Outlives(init, i);
    }
  }

  lemma StepOther(s: Snap, e: Event, x: Item)
    requires e.Merge? ==> !Has(e.local, x)
    ensures
      var t := if e.Merge? then Merged(s, e.local, e.now) else Expired(s, e.cutoff);
      && (Has(t, x) <==> Has(s, x) && (e.Expire? ==> e.cutoff <= SeenAt(s, x)))
      && (Has(t, x) ==> SeenAt(t, x) == SeenAt(s, x))
  {
  }

  // ----- with a non-decreasing clock

  ghost predicate TimesOrdered(evs: seq<Event>) {
    && (forall i, j | 0 <= i < j < |evs| && evs[i].Merge? && evs[j].Merge? :: evs[i].now <= evs[j].now)
    && (forall i, j | 0 <= i < j < |evs| && evs[i].Expire? && evs[j].Expire? :: evs[i].cutoff <= evs[j].cutoff)
  }

  /** Some merge at `c` or later carried the item. */
  ghost predicate MergedSince(evs: seq<Event>, x: Item, c: int) {
    exists i :: 0 <= i < |evs| && evs[i].Merge? && Has(evs[i].local, x) && evs[i].now >= c
  }

  ghost predicate SetMergedSince(evs: seq<Event>, local: Snap, c: int) {
    exists i :: 0 <= i < |evs| && evs[i].Merge? && evs[i].local == local && evs[i].now >= c
  }

  lemma MergedBySet(evs: seq<Event>, x: Item, c: int)
    ensures MergedSince(evs, x, c) <==> exists local :: SetMergedSince(evs, local, c) && Has(local, x)
  {
    if MergedSince(evs, x, c) {
      var i :| 0 <= i < |evs| && evs[i].Merge? && Has(evs[i].local, x) && evs[i].now >= c;
      assert SetMergedSince(evs, evs[i].local, c);
    }
  }

  lemma {:induction false} LatestExists(evs: seq<Event>, x: Item, i: nat, n: nat) returns (l: nat)
    requires i < n <= |evs| && evs[i].Merge? && Has(evs[i].local, x)
    requires forall j | n <= j < |evs| :: evs[j].Merge? ==> !Has(evs[j].local, x)
    ensures LatestMerge(evs, x, l) && i <= l
    decreases n
  {
    if evs[n - 1].Merge? && Has(evs[n - 1].local, x) {
      l := n - 1;
    } else {
      l := LatestExists(evs, x, i, n - 1);
    }
  }

  lemma SurvivorMergedSince(evs: seq<Event>, x: Item, c: int)
    requires evs != [] && evs[|evs| - 1] == Expire(c) && Alive(evs, x)
    ensures MergedSince(evs, x, c)
  {
    var i: nat :| LatestMerge(evs, x, i) && Outlives(evs, i);
    assert i < |evs| - 1;
  }

  lemma MergedSinceSurvives(evs: seq<Event>, x: Item, c: int)
    requires TimesOrdered(evs) && evs != [] && evs[|evs| - 1] == Expire(c) && MergedSince(evs, x, c)
    ensures Alive(evs, x)
  {
    var i :| 0 <= i < |evs| && evs[i].Merge? && Has(evs[i].local, x) && evs[i].now >= c;
    var l := LatestExists(evs, x, i, |evs|);
    assert evs[i].now <= evs[l].now;
    forall j | l < j < |evs| && evs[j].Expire? ensures evs[j].cutoff <= evs[l].now {
      assert evs[j].cutoff <= evs[|evs| - 1].cutoff;
    }
    assert Outlives(evs, l);
  }

  /** After Expire(c), the set holds exactly what was merged at time c or later. */
  lemma AfterExpiry(evs: seq<Event>, x: Item, c: int)
    requires TimesOrdered(evs)
    requires evs != [] && evs[|evs| - 1] == Expire(c)
    ensures Has(RunEvents(evs), x) <==> MergedSince(evs, x, c)
  {
    Membership(evs, x);
    if Alive(evs, x) {
      SurvivorMergedSince(evs, x, c);
    }
    if MergedSince(evs, x, c) {
      MergedSinceSurvives(evs, x, c);
    }
  }

  /** The order in which concurrent requests take the lock does not matter: two histories
      that merged the same sets at or after the cutoff agree on every member. */
  lemma LockOrderIrrelevant(evs: seq<Event>, other: seq<Event>, c: int)
    requires TimesOrdered(evs) && TimesOrdered(other)
    requires evs != [] && other != [] && evs[|evs| - 1] == Expire(c) == other[|other| - 1]
    requires forall local :: SetMergedSince(evs, local, c) <==> SetMergedSince(other, local, c)
    ensures RunEvents(evs).entities.Keys == RunEvents(other).entities.Keys
    ensures RunEvents(evs).edges.Keys == RunEvents(other).edges.Keys
  {
    forall x ensures Has(RunEvents(evs), x) <==> Has(RunEvents(other), x) {
      AfterExpiry(evs, x, c);
      AfterExpiry(other, x, c);
      MergedBySet(evs, x, c);
      MergedBySet(other, x, c);
    }
    forall id ensures id in RunEvents(evs).entities <==> id in RunEvents(other).entities {
      assert Has(RunEvents(evs), Entity(id)) <==> Has(RunEvents(other), Entity(id));
    }
    forall k ensures k in RunEvents(evs).edges <==> k in RunEvents(other).edges {
      assert Has(RunEvents(evs), Relation(k)) <==> Has(RunEvents(other), Relation(k));
    }
  }

  // ----- metadata

  /** The first metadata with a value that a set gets for an entity, its empty values left out. */
  lemma MetadataArrives(s: Snap, local: Snap, now: int, id: string, k: string)
    requires id !in s.metas && id in local.metas && k in local.metas[id] && local.metas[id][k] != ""
    ensures var t := Merged(s, local, now);
            && id in t.metas && k in t.metas[id] && t.metas[id][k] == local.metas[id][k]
            && forall j | j in t.metas[id] :: t.metas[id][j] != "" && j in local.metas[id]
  {
    assert k in NonEmpty(local.metas[id]);
  }

  lemma OneEvent(evs: seq<Event>, e: Event)
    ensures RunEvents(evs + [e]) ==
            if e.Merge? then Merged(RunEvents(evs), e.local, e.now) else Expired(RunEvents(evs), e.cutoff)
  {
    assert (evs + [e])[..|evs|] == evs;
  }

  /** None of these events expires the entity. */
  ghost predicate Stays(evs: seq<Event>, more: seq<Event>, id: string) {
    more == [] ||
    (var init, last := more[..|more| - 1], more[|more| - 1];
     Stays(evs, init, id) &&
     (last.Expire? ==> id in RunEvents(evs + init).entities &&
                       last.cutoff <= RunEvents(evs + init).entities[id].lastSeen))
  }

  /** It stays as it came, whatever is merged later, until the entity expires. */
  lemma {:induction false} MetadataStays(evs: seq<Event>, more: seq<Event>, id: string)
    requires id in RunEvents(evs).metas && Stays(evs, more, id)
    ensures id in RunEvents(evs + more).metas && RunEvents(evs + more).metas[id] == RunEvents(evs).metas[id]
  {
    if more == [] {
      assert evs + more == evs;
    } else {
      var init, last := more[..|more| - 1], more[|more| - 1];
      MetadataStays(evs, init, id);
      assert evs + more == (evs + init) + [last];
      OneEvent(evs + init, last);
    }
  }

  /** And goes with it. */
  lemma MetadataGoes(evs: seq<Event>, c: int, id: string)
    requires id in RunEvents(evs).entities && RunEvents(evs).entities[id].lastSeen < c
    ensures id !in RunEvents(evs + [Expire(c)]).metas && id !in RunEvents(evs + [Expire(c)]).entities
  {
    OneEvent(evs, Expire(c));
  }
}
