/** The metadata of Kubernetes objects on the server: what was last delivered with a live object is
    stored, field by field, whatever else the watcher writes. */
module Metadata {
  import opened Graph
  import opened GraphStore
  import opened Mapper
  import opened Ownership
  import opened Desires
  import opened Watcher
  import opened EventEffects
  import opened WatcherRuns
  import opened References

  /** Whatever is said about the entity says this metadata or none. */
  predicate SaysOnly(ents: seq<DesiredEntity>, id: string, md: map<string, string>) {
    forall ent | ent in ents && ent.id == id :: ent.md == md || ent.md == map[]
  }

  predicate Says(ents: seq<DesiredEntity>, id: string, md: map<string, string>) {
    exists ent :: ent in ents && ent.id == id && ent.md == md
  }

  /** Every field with a value is stored. */
  predicate Holds(cell: Cell, md: map<string, string>) {
    forall k | k in md && md[k] != "" :: cell.Fields? && k in cell.fields && cell.fields[k] == md[k]
  }

  // ----- what one event does to metadata

  lemma UpsertOnMeta(ent: DesiredEntity, ms: int, id: string, cell: Cell)
    ensures var after := ActOp(UpsertFor(ent, ms), MetaOf(id), cell);
            if ent.id == id then Holds(after, ent.md) else after == cell
    ensures ent.md == map[] ==> ActOp(UpsertFor(ent, ms), MetaOf(id), cell) == cell
  {
    assert NonEmpty(map[]) == map[];
    forall k | k in ent.md && ent.md[k] != "" ensures k in NonEmpty(ent.md) {
    }
  }

  lemma OneUpsert(ents: seq<DesiredEntity>, init: seq<DesiredEntity>, ent: DesiredEntity, ms: int, id: string,
                  md: map<string, string>, cell: Cell)
    requires ents == init + [ent] && SaysOnly(ents, id, md) && (Says(init, id, md) ==> Holds(cell, md))
    ensures Says(ents, id, md) ==> Holds(ActOp(UpsertFor(ent, ms), MetaOf(id), cell), md)
  {
    assert ent in ents;
    UpsertOnMeta(ent, ms, id, cell);
    if Says(ents, id, md) && !(ent.id == id && ent.md == md) {
      assert Says(init, id, md);
    }
  }

  lemma {:induction false} UpsertsOnMeta(ents: seq<DesiredEntity>, u: seq<Op>, id: string, md: map<string, string>,
                                         cell: Cell)
    requires UpsertsOf(ents, u) && SaysOnly(ents, id, md)
    ensures Says(ents, id, md) ==> Holds(ActOps(u, MetaOf(id), cell), md)
    ensures SaysOnly(ents, id, map[]) ==> ActOps(u, MetaOf(id), cell) == cell
  {
    if ents != [] {
      var n := |ents| - 1;
      var init, ent := ents[..n], ents[n];
      assert ents == init + [ent] && UpsertsOf(init, u[..n]) && u[n] == UpsertFor(ent, u[n].ms);
      UpsertsOnMeta(init, u[..n], id, md, cell);
      OneUpsert(ents, init, ent, u[n].ms, id, md, ActOps(u[..n], MetaOf(id), cell));
      assert ent in ents;
      UpsertOnMeta(ent, u[n].ms, id, ActOps(u[..n], MetaOf(id), cell));
    }
  }

  lemma {:induction false} DeletesOnMeta(ops: seq<Op>, id: string, cell: Cell)
    requires AllDeletes(ops) && !Names(ops, id)
    ensures ActOps(ops, MetaOf(id), cell) == cell
  {
    if ops != [] {
      NamesSnoc(ops, id);
      DeletesOnMeta(ops[..|ops| - 1], id, cell);
      assert ops[|ops| - 1] in ops;
    }
  }

  lemma MetaAfterTurn(b: Desired, a: Desired, ops: seq<Op>, id: string, md: map<string, string>, cell: Cell)
    requires Turn(b, a, ops) && SaysOnly(a.entities, id, md) && !Dropped(b, a, id)
    ensures Says(a.entities, id, md) ==> Holds(ActOps(ops, MetaOf(id), cell), md)
    ensures SaysOnly(a.entities, id, map[]) ==> ActOps(ops, MetaOf(id), cell) == cell
  {
    var u, dels, l, ul :| Turns(b, a, u, dels, l, ul) && ops == u + dels + l + ul;
    var at := MetaOf(id);
    FourActs(u, dels, l, ul, at, cell);
    UpsertsOnMeta(a.entities, u, id, md, cell);
    var cell1 := ActOps(u, at, cell);
    DeletesOnMeta(dels, id, cell1);
    LinksAct(l, at, cell1);
    UnlinksAct(ul, at, cell1);
  }

  // ----- an object says its own metadata, others none

  lemma SaysMore(d: Desired, id: string, md: map<string, string>, x: string, kind: string, name: string)
    requires SaysOnly(d.entities, id, md)
    ensures SaysOnly(WithEntity(d, x, kind, name, map[]).entities, id, md)
  {
  }

  lemma {:induction false} ContainersSay(d: Desired, ns: string, pod: string, containers: seq<Container>,
                                         md: map<string, string>)
    requires SaysOnly(d.entities, PodId(ns, pod), md)
    ensures SaysOnly(WithContainers(d, ns, pod, containers).entities, PodId(ns, pod), md)
  {
    if containers != [] {
      var c := containers[|containers| - 1];
      ContainersSay(d, ns, pod, containers[..|containers| - 1], md);
      KindOfPrefixed(POD, ns + "/" + pod);
      KindOfPrefixed(CONTAINER, ns + "/" + pod + "/" + c.name);
    }
  }

  lemma PodSays(o: Object, owner: Owner)
    requires o.Pod?
    ensures SaysOnly(MapPod(o, owner).entities, PrimaryId(o), o.md)
  {
    var id := PrimaryId(o);
    var d1 := WithEntity(Desired([], []), id, POD, o.name, o.md);
    SaysMore(d1, id, o.md, Id1(NAMESPACE, o.ns), NAMESPACE, o.ns);
    var d2 := PodInNamespace(o);
    SaysMore(d2, id, o.md, Id1(NODE, o.node), NODE, o.node);
    var d3 := WithNodeOf(d2, o);
    SaysMore(d3, id, o.md, owner.id, owner.kind, owner.name);
    ContainersSay(WithOwner(d3, o, owner), o.ns, o.name, o.containers, o.md);
  }

  lemma TargetSays(d: Desired, id: string, md: map<string, string>, of: string, ns: string, kind: string, name: string)
    requires SaysOnly(d.entities, id, md)
    ensures SaysOnly(WithTarget(d, of, ns, kind, name).entities, id, md)
  {
    SaysMore(d, id, md, Id2(TargetKind(kind), ns, name), TargetKind(kind), name);
  }

  lemma NodeSays(o: Object)
    requires o.Node?
    ensures SaysOnly(MapNode(o).entities, PrimaryId(o), o.md)
  {
    var id, zone, region := PrimaryId(o), TopologyLabel(o.labels, "zone"), TopologyLabel(o.labels, "region");
    var d1 := WithEntity(Desired([], []), id, NODE, o.name, o.md);
    SaysMore(d1, id, o.md, Id1(ZONE, zone), ZONE, zone);
    var d2 := WithPair(WithEntity(d1, Id1(ZONE, zone), ZONE, zone, map[]), Id1(ZONE, zone), Contains, id);
    SaysMore(d2, id, o.md, Id1(REGION, region), REGION, region);
  }

  lemma OthersSay(o: Object, owner: Owner)
    requires !o.Pod?
    ensures SaysOnly(Desire(o, owner).entities, PrimaryId(o), o.md)
  {
    var id := PrimaryId(o);
    var d1 := WithEntity(Desired([], []), id, KindOfObject(o), o.name, o.md);
    if o.Node? {
      NodeSays(o);
    } else if o.Job? {
      var cron := FirstRef(o.refs, "CronJob");
      SaysMore(d1, id, o.md, Id2(CRONJOB, o.ns, cron), CRONJOB, cron);
    } else if o.Hpa? {
      var so := FirstRef(o.refs, "ScaledObject");
      TargetSays(d1, id, o.md, id, o.ns, o.targetKind, o.targetName);
      SaysMore(WithTarget(d1, id, o.ns, o.targetKind, o.targetName), id, o.md, Id2(SCALEDOBJECT, o.ns, so),
               SCALEDOBJECT, so);
    } else if o.ScaledObject? {
      TargetSays(d1, id, o.md, id, o.ns, if o.targetKind == "" then "Deployment" else o.targetKind, o.targetName);
    }
  }

  lemma ObjectSays(o: Object, owner: Owner)
    ensures SaysOnly(Desire(o, owner).entities, PrimaryId(o), o.md)
    ensures Says(Desire(o, owner).entities, PrimaryId(o), o.md)
  {
    StoresItself(o, owner);
    if o.Pod? {
      PodSays(o, owner);
    } else {
      OthersSay(o, owner);
    }
  }

  /** What belongs to one object says nothing about another's metadata. */
  lemma OthersSilent(key: string, d: Desired, id: string)
    requires Belongs(key, d) && id != key && KindOf(id) != CONTAINER
    ensures SaysOnly(d.entities, id, map[])
  {
    forall ent | ent in d.entities && ent.id == id ensures ent.md == map[] {
      assert EntityFine(key, ent);
    }
  }

  // ----- over histories

  lemma OwnEvent(live: Live, ev: Event, ops: seq<Op>, cell: Cell)
    requires Happens(live, ev, ops) && !ev.Deleted?
    ensures Holds(ActOps(ops, MetaOf(Key(ev)), cell), Subject(ev).md)
  {
    EventBelongs(live, ev);
    EventMapped(ev);
    IssuesTurn(live, ev, ops);
    ObjectSays(Subject(ev), OwnerWanted(ev));
    MetaAfterTurn(Believed(ev), Wanted(ev), ops, Key(ev), Subject(ev).md, cell);
  }

  lemma OtherEvent(live: Live, ev: Event, ops: seq<Op>, id: string, cell: Cell)
    requires Happens(live, ev, ops) && LiveFine(live) && LiveMapped(live) && id in live && id != Key(ev)
    ensures ActOps(ops, MetaOf(id), cell) == cell
  {
    EventBelongs(live, ev);
    IssuesTurn(live, ev, ops);
    PrimaryParts(live[id].o);
    OthersSilent(Key(ev), Wanted(ev), id);
    if Dropped(Believed(ev), Wanted(ev), id) {
      EmitterEnds(live, ev, id);
      assert false;
    }
    MetaAfterTurn(Believed(ev), Wanted(ev), ops, id, map[], cell);
  }

  /** If the entity's object is alive, every metadata field with a value that it was last delivered
      with is stored with that value. */
  ghost predicate StoredFor(live: Live, id: string, cell: Cell) {
    id in live ==> Holds(cell, live[id].o.md)
  }

  lemma OneEvent(live: Live, ev: Event, ops: seq<Op>, id: string, cell: Cell)
    requires Happens(live, ev, ops) && LiveFine(live) && LiveMapped(live) && StoredFor(live, id, cell)
    ensures StoredFor(Next(live, ev), id, ActOps(ops, MetaOf(id), cell))
  {
    if id in Next(live, ev) {
      if id == Key(ev) {
        OwnEvent(live, ev, ops, cell);
      } else {
        OtherEvent(live, ev, ops, id, cell);
      }
    }
  }

  /** And so it is after any event sequence, whatever becomes of the ReplicaSet cache. */
  lemma {:induction false} LiveMetadataStored(evs: seq<Event>, opss: seq<seq<Op>>, id: string)
    requires History(evs, opss)
    ensures StoredFor(LiveAfter(evs), id, Finally(opss, MetaOf(id)))
  {
    if evs != [] {
      var init, opss', ev, ops := evs[..|evs| - 1], opss[..|evs| - 1], evs[|evs| - 1], opss[|evs| - 1];
      LiveMetadataStored(init, opss', id);
      LastEvent(evs, opss, init, ev, ops);
      FinallySnoc(opss, MetaOf(id));
      OneEvent(LiveAfter(init), ev, ops, id, Finally(opss', MetaOf(id)));
    }
  }

  // ----- and no field without a value

  predicate NoBlanks(cell: Cell) {
    cell.Fields? ==> forall k | k in cell.fields :: cell.fields[k] != ""
  }

  predicate WritesNoBlanks(ops: seq<Op>) {
    forall op | op in ops && op.Upsert? :: forall k | k in op.md :: op.md[k] != ""
  }

  lemma {:induction false} StaysUnblank(ops: seq<Op>, id: string, cell: Cell)
    requires WritesNoBlanks(ops) && NoBlanks(cell)
    ensures NoBlanks(ActOps(ops, MetaOf(id), cell))
  {
    if ops != [] {
      var init, last := ops[..|ops| - 1], ops[|ops| - 1];
      StaysUnblank(init, id, cell);
      assert last in ops;
    }
  }

  lemma TurnWritesNoBlanks(b: Desired, a: Desired, ops: seq<Op>)
    requires Turn(b, a, ops)
    ensures WritesNoBlanks(ops)
  {
    var u, dels, l, ul :| Turns(b, a, u, dels, l, ul) && ops == u + dels + l + ul;
    forall op | op in ops && op.Upsert? ensures forall k | k in op.md :: op.md[k] != "" {
      assert op in u;
      var i :| 0 <= i < |u| && u[i] == op;
      assert op == UpsertFor(a.entities[i], op.ms);
    }
  }

  /** The watcher never stores a metadata field without a value. */
  lemma {:induction false} NoBlankMetadata(evs: seq<Event>, opss: seq<seq<Op>>, id: string)
    requires History(evs, opss)
    ensures NoBlanks(Finally(opss, MetaOf(id)))
  {
    if evs != [] {
      var init, opss', ev, ops := evs[..|evs| - 1], opss[..|evs| - 1], evs[|evs| - 1], opss[|evs| - 1];
      LastEvent(evs, opss, init, ev, ops);
      FinallySnoc(opss, MetaOf(id));
      NoBlankMetadata(init, opss', id);
      IssuesTurn(LiveAfter(init), ev, ops);
      TurnWritesNoBlanks(Believed(ev), Wanted(ev), ops);
      StaysUnblank(ops, id, Finally(opss', MetaOf(id)));
    }
  }
}
