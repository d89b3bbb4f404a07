/** Structural edges come whole: with their counterpart and with the entities at both ends, in
    what an object implies. */
module Wholeness {
  import opened Graph
  import opened GraphStore
  import opened Mapper
  import opened Ownership
  import opened Desires
  import opened EventEffects
  import opened WatcherRuns
  import opened EdgeRuns

  /** The counterpart of an edge: ends swapped, reverse kind. */
  function Back(from: string, e: Edge): Edge {
    Edge(e.kind.Reverse(), from, "")
  }

  ghost predicate WholeEdge(d: Desired, from: string, e: Edge) {
    HasEntity(d, from) && HasEntity(d, e.to) && HasEdge(d, e.to, Back(from, e)) && e.action == ""
  }

  ghost predicate Whole(d: Desired) {
    forall from, e | HasEdge(d, from, e) :: WholeEdge(d, from, e)
  }

  lemma ReverseTwice(k: EdgeKind)
    ensures k.Reverse().Reverse() == k
  {
  }

  lemma BackAndForth(d: Desired, from: string, e: Edge)
    requires Whole(d) && e.action == ""
    ensures HasEdge(d, from, e) <==> HasEdge(d, e.to, Back(from, e))
  {
    ReverseTwice(e.kind);
    assert Back(e.to, Back(from, e)) == e;
    if HasEdge(d, from, e) {
      assert WholeEdge(d, from, e);
    }
    if HasEdge(d, e.to, Back(from, e)) {
      assert WholeEdge(d, e.to, Back(from, e));
    }
  }

  // ----- what an object implies is whole

  lemma WholeEntity(d: Desired, id: string, kind: string, name: string, md: map<string, string>)
    requires Whole(d)
    ensures Whole(WithEntity(d, id, kind, name, md)) && HasEntity(WithEntity(d, id, kind, name, md), id)
    ensures forall x | HasEntity(d, x) :: HasEntity(WithEntity(d, id, kind, name, md), x)
  {
    var d' := WithEntity(d, id, kind, name, md);
    assert DesiredEntity(id, kind, name, md) in d'.entities;
    forall x | HasEntity(d, x) ensures HasEntity(d', x) {
      var ent :| ent in d.entities && ent.id == x;
      assert ent in d'.entities;
    }
    forall from, e | HasEdge(d', from, e) ensures WholeEdge(d', from, e) {
      assert HasEdge(d, from, e);
      assert WholeEdge(d, from, e);
    }
  }

  lemma WholePair(d: Desired, x: string, fwd: EdgeKind, y: string)
    requires Whole(d) && HasEntity(d, x) && HasEntity(d, y)
    ensures Whole(WithPair(d, x, fwd, y))
  {
    var d' := WithPair(d, x, fwd, y);
    ReverseTwice(fwd);
    PairKeepsEntities(d, x, fwd, y);
    forall from, e | HasEdge(d', from, e) ensures WholeEdge(d', from, e) {
      if HasEdge(d, from, e) {
        assert WholeEdge(d, from, e);
      }
    }
  }

  /** One more entity and the pair between two entities that are there then. */
  lemma WholeNeighbour(d: Desired, id: string, kind: string, name: string, md: map<string, string>,
                       x: string, fwd: EdgeKind, y: string)
    requires Whole(d) && (x == id || HasEntity(d, x)) && (y == id || HasEntity(d, y))
    ensures Whole(WithPair(WithEntity(d, id, kind, name, md), x, fwd, y))
    ensures forall z | HasEntity(d, z) || z == id ::
              HasEntity(WithPair(WithEntity(d, id, kind, name, md), x, fwd, y), z)
  {
    WholeEntity(d, id, kind, name, md);
    WholePair(WithEntity(d, id, kind, name, md), x, fwd, y);
    PairKeepsEntities(WithEntity(d, id, kind, name, md), x, fwd, y);
  }

  lemma OwnEntityWhole(id: string, kind: string, name: string, md: map<string, string>)
    ensures Whole(WithEntity(NO_DESIRES, id, kind, name, md)) &&
            HasEntity(WithEntity(NO_DESIRES, id, kind, name, md), id)
  {
    WholeEntity(NO_DESIRES, id, kind, name, md);
  }

  lemma {:induction false} ContainersWhole(d: Desired, ns: string, pod: string, containers: seq<Container>)
    requires Whole(d) && HasEntity(d, PodId(ns, pod))
    ensures Whole(WithContainers(d, ns, pod, containers)) &&
            HasEntity(WithContainers(d, ns, pod, containers), PodId(ns, pod))
  {
    if containers != [] {
      var init, c := containers[..|containers| - 1], containers[|containers| - 1];
      ContainersWhole(d, ns, pod, init);
      var id, md := ContainerId(ns, pod, c.name), map["container.image.name" := c.image];
      WholeNeighbour(WithContainers(d, ns, pod, init), id, CONTAINER, c.name, md, PodId(ns, pod), Contains, id);
    }
  }

  lemma PodWhole(o: Object, owner: Owner)
    requires o.Pod?
    ensures Whole(MapPod(o, owner))
  {
    var id, n, v := PodId(o.ns, o.name), Id1(NAMESPACE, o.ns), Id1(NODE, o.node);
    OwnEntityWhole(id, POD, o.name, o.md);
    WholeNeighbour(WithEntity(NO_DESIRES, id, POD, o.name, o.md), n, NAMESPACE, o.ns, map[], n, Contains, id);
    var d2 := PodInNamespace(o);
    WholeNeighbour(d2, v, NODE, o.node, map[], v, Contains, id);
    var d3 := WithNodeOf(d2, o);
    WholeNeighbour(d3, owner.id, owner.kind, owner.name, map[], owner.id, Manages, id);
    ContainersWhole(WithOwner(d3, o, owner), o.ns, o.name, o.containers);
  }

  lemma NodeWhole(o: Object)
    requires o.Node?
    ensures Whole(MapNode(o))
  {
    var id := PrimaryId(o);
    var zone, region := TopologyLabel(o.labels, "zone"), TopologyLabel(o.labels, "region");
    var z, r := Id1(ZONE, zone), Id1(REGION, region);
    OwnEntityWhole(id, NODE, o.name, o.md);
    var d1 := WithEntity(NO_DESIRES, id, NODE, o.name, o.md);
    WholeNeighbour(d1, z, ZONE, zone, map[], z, Contains, id);
    var d2 := WithPair(WithEntity(d1, z, ZONE, zone, map[]), z, Contains, id);
    WholeNeighbour(d2, r, REGION, region, map[], r, Contains, z);
  }

  lemma TargetWhole(d: Desired, id: string, ns: string, kind: string, name: string)
    requires Whole(d) && HasEntity(d, id)
    ensures Whole(WithTarget(d, id, ns, kind, name)) && HasEntity(WithTarget(d, id, ns, kind, name), id)
  {
    var k := TargetKind(kind);
    WholeNeighbour(d, Id2(k, ns, name), k, name, map[], id, Scales, Id2(k, ns, name));
  }

  lemma ManagedWhole(d: Desired, id: string, owner: string, kind: string, name: string)
    requires Whole(d) && HasEntity(d, id)
    ensures Whole(WithPair(WithEntity(d, owner, kind, name, map[]), owner, Manages, id))
  {
    WholeNeighbour(d, owner, kind, name, map[], owner, Manages, id);
  }

  /** Every edge an object implies comes with its counterpart and with the entities at both
      ends, whatever the object and its owner. */
  lemma DesireWhole(o: Object, owner: Owner)
    ensures Whole(Desire(o, owner))
  {
    var id := PrimaryId(o);
    OwnEntityWhole(id, KindOfObject(o), o.name, o.md);
    var d1 := WithEntity(NO_DESIRES, id, KindOfObject(o), o.name, o.md);
    if o.Pod? {
      PodWhole(o, owner);
    } else if o.Node? {
      NodeWhole(o);
    } else if o.Job? {
      var cron := FirstRef(o.refs, "CronJob");
      ManagedWhole(d1, id, Id2(CRONJOB, o.ns, cron), CRONJOB, cron);
    } else if o.Hpa? {
      TargetWhole(d1, id, o.ns, o.targetKind, o.targetName);
      var so := FirstRef(o.refs, "ScaledObject");
      ManagedWhole(WithTarget(d1, id, o.ns, o.targetKind, o.targetName), id, Id2(SCALEDOBJECT, o.ns, so),
                   SCALEDOBJECT, so);
    } else if o.ScaledObject? {
      TargetWhole(d1, id, o.ns, if o.targetKind == "" then "Deployment" else o.targetKind, o.targetName);
    }
  }

  lemma EventWhole(ev: Event)
    ensures Whole(Believed(ev)) && Whole(Wanted(ev))
  {
    match ev
    case Added(o, sets) => DesireWhole(o, OwnerNow(o, sets));
    case Updated(before, after, setsBefore, setsAfter) =>
      DesireWhole(before, OwnerNow(before, setsBefore));
      DesireWhole(after, OwnerNow(after, setsAfter));
    case Deleted(o, sets) => DesireWhole(o, OwnerNow(o, sets));
  }

  // ----- over histories

  lemma TurnTogether(b: Desired, a: Desired, ops: seq<Op>, from: string, e: Edge, cell: Cell)
    requires Turn(b, a, ops) && Whole(b) && Whole(a) && e.action == "" && !IsEmitter(from) && !IsEmitter(e.to)
    ensures ActOps(ops, EdgeMember(from, e), cell) == ActOps(ops, EdgeMember(e.to, Back(from, e)), cell)
  {
    EdgeAfterTurn(b, a, ops, from, e, cell);
    EdgeAfterTurn(b, a, ops, e.to, Back(from, e), cell);
    BackAndForth(b, from, e);
    BackAndForth(a, from, e);
  }

  /** Between entities that are no pods or containers, an edge and its counterpart come and
      go together, the region-zone pair included. */
  lemma {:induction false} PairsTogether(evs: seq<Event>, opss: seq<seq<Op>>, from: string, e: Edge)
    requires History(evs, opss) && e.action == "" && !IsEmitter(from) && !IsEmitter(e.to)
    ensures Finally(opss, EdgeMember(from, e)) == Finally(opss, EdgeMember(e.to, Back(from, e)))
  {
    if evs != [] {
      var init, opss', ev, ops := evs[..|evs| - 1], opss[..|evs| - 1], evs[|evs| - 1], opss[|evs| - 1];
      PairsTogether(init, opss', from, e);
      FinallySnoc(opss, EdgeMember(from, e));
      FinallySnoc(opss, EdgeMember(e.to, Back(from, e)));
      EventWhole(ev);
      IssuesTurn(LiveAfter(init), ev, ops);
      TurnTogether(Believed(ev), Wanted(ev), ops, from, e, Finally(opss', EdgeMember(from, e)));
    }
  }
}
