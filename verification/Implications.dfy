/** Which edges and entities each Kubernetes object implies, stated without the order in which
    the mappers append them. */
module Implications {
  import opened Graph
  import opened Mapper
  import opened Ownership
  import opened EventEffects

  /** The edge is one of the two that link `x` to `y`. */
  predicate IsPair(from: string, e: Edge, x: string, fwd: EdgeKind, y: string) {
    (from == x && e == Edge(fwd, y, "")) || (from == y && e == Edge(fwd.Reverse(), x, ""))
  }

  lemma PairEdges(d: Desired, x: string, fwd: EdgeKind, y: string, from: string, e: Edge)
    ensures HasEdge(WithPair(d, x, fwd, y), from, e) <==> HasEdge(d, from, e) || IsPair(from, e, x, fwd, y)
  {
  }

  lemma EntityIds(d: Desired, id: string, kind: string, name: string, md: map<string, string>, x: string)
    ensures HasEntity(WithEntity(d, id, kind, name, md), x) <==> HasEntity(d, x) || x == id
  {
    var d' := WithEntity(d, id, kind, name, md);
    assert DesiredEntity(id, kind, name, md) in d'.entities;
    if HasEntity(d, x) {
      var ent :| ent in d.entities && ent.id == x;
      assert ent in d'.entities;
    }
  }

  /** One more entity and pair. */
  lemma NeighbourFacts(d: Desired, id: string, kind: string, name: string, x: string, fwd: EdgeKind, y: string,
                       from: string, e: Edge, z: string)
    ensures var d' := WithPair(WithEntity(d, id, kind, name, map[]), x, fwd, y);
            && (HasEdge(d', from, e) <==> HasEdge(d, from, e) || IsPair(from, e, x, fwd, y))
            && (HasEntity(d', z) <==> HasEntity(d, z) || z == id)
  {
    PairEdges(WithEntity(d, id, kind, name, map[]), x, fwd, y, from, e);
    EntityIds(d, id, kind, name, map[], z);
  }

  lemma OwnFacts(id: string, kind: string, name: string, md: map<string, string>, from: string, e: Edge, z: string)
    ensures !HasEdge(WithEntity(NO_DESIRES, id, kind, name, md), from, e)
    ensures HasEntity(WithEntity(NO_DESIRES, id, kind, name, md), z) <==> z == id
  {
    EntityIds(NO_DESIRES, id, kind, name, md, z);
  }

  // ----- pods

  predicate ContainerEdge(ns: string, pod: string, containers: seq<Container>, from: string, e: Edge) {
    exists c :: c in containers && IsPair(from, e, PodId(ns, pod), Contains, ContainerId(ns, pod, c.name))
  }

  predicate IsContainer(ns: string, pod: string, containers: seq<Container>, z: string) {
    exists c :: c in containers && z == ContainerId(ns, pod, c.name)
  }

  lemma {:induction false} ContainerFacts(d: Desired, ns: string, pod: string, containers: seq<Container>,
                                          from: string, e: Edge, z: string)
    ensures HasEdge(WithContainers(d, ns, pod, containers), from, e) <==>
            HasEdge(d, from, e) || ContainerEdge(ns, pod, containers, from, e)
    ensures HasEntity(WithContainers(d, ns, pod, containers), z) <==>
            HasEntity(d, z) || IsContainer(ns, pod, containers, z)
  {
    if containers != [] {
      var init, c := containers[..|containers| - 1], containers[|containers| - 1];
      ContainerFacts(d, ns, pod, init, from, e, z);
      var id, md := ContainerId(ns, pod, c.name), map["container.image.name" := c.image];
      EntityIds(WithContainers(d, ns, pod, init), id, CONTAINER, c.name, md, z);
      PairEdges(WithEntity(WithContainers(d, ns, pod, init), id, CONTAINER, c.name, md), PodId(ns, pod), Contains, id,
                from, e);
      assert containers == init + [c];
      assert c in containers;
    }
  }

  /** A pod implies: its namespace and, once scheduled, its node contain it; its owner, if
      resolved, manages it; it contains its containers. These entities and pairs, and no other. */
  lemma PodImplies(o: Object, owner: Owner, from: string, e: Edge, z: string)
    requires o.Pod?
    ensures var id := PodId(o.ns, o.name);
            HasEdge(MapPod(o, owner), from, e) <==>
              || IsPair(from, e, Id1(NAMESPACE, o.ns), Contains, id)
              || (o.node != "" && IsPair(from, e, Id1(NODE, o.node), Contains, id))
              || (owner.id != "" && IsPair(from, e, owner.id, Manages, id))
              || ContainerEdge(o.ns, o.name, o.containers, from, e)
    ensures HasEntity(MapPod(o, owner), z) <==>
              || z == PodId(o.ns, o.name) || z == Id1(NAMESPACE, o.ns) || (o.node != "" && z == Id1(NODE, o.node))
              || (owner.id != "" && z == owner.id) || IsContainer(o.ns, o.name, o.containers, z)
  {
    var id, n, v := PodId(o.ns, o.name), Id1(NAMESPACE, o.ns), Id1(NODE, o.node);
    OwnFacts(id, POD, o.name, o.md, from, e, z);
    NeighbourFacts(WithEntity(NO_DESIRES, id, POD, o.name, o.md), n, NAMESPACE, o.ns, n, Contains, id, from, e, z);
    var d2 := PodInNamespace(o);
    NeighbourFacts(d2, v, NODE, o.node, v, Contains, id, from, e, z);
    var d3 := WithNodeOf(d2, o);
    NeighbourFacts(d3, owner.id, owner.kind, owner.name, owner.id, Manages, id, from, e, z);
    ContainerFacts(WithOwner(d3, o, owner), o.ns, o.name, o.containers, from, e, z);
  }

  // ----- nodes

  /** A labelled node is contained in its zone, and its zone in the region if that is labelled
      too; a region without a zone counts for nothing. */
  lemma NodeImplies(o: Object, from: string, e: Edge, z: string)
    requires o.Node?
    ensures var zone, region := TopologyLabel(o.labels, "zone"), TopologyLabel(o.labels, "region");
            HasEdge(MapNode(o), from, e) <==>
              zone != "" &&
              (|| IsPair(from, e, Id1(ZONE, zone), Contains, Id1(NODE, o.name))
               || (region != "" && IsPair(from, e, Id1(REGION, region), Contains, Id1(ZONE, zone))))
    ensures var zone, region := TopologyLabel(o.labels, "zone"), TopologyLabel(o.labels, "region");
            HasEntity(MapNode(o), z) <==>
              || z == Id1(NODE, o.name)
              || (zone != "" && (z == Id1(ZONE, zone) || (region != "" && z == Id1(REGION, region))))
  {
    var id := PrimaryId(o);
    var zone, region := TopologyLabel(o.labels, "zone"), TopologyLabel(o.labels, "region");
    OwnFacts(id, NODE, o.name, o.md, from, e, z);
    var d1 := WithEntity(NO_DESIRES, id, NODE, o.name, o.md);
    NeighbourFacts(d1, Id1(ZONE, zone), ZONE, zone, Id1(ZONE, zone), Contains, id, from, e, z);
    var d2 := WithPair(WithEntity(d1, Id1(ZONE, zone), ZONE, zone, map[]), Id1(ZONE, zone), Contains, id);
    NeighbourFacts(d2, Id1(REGION, region), REGION, region, Id1(REGION, region), Contains, Id1(ZONE, zone), from, e, z);
  }

  // ----- jobs and autoscalers

  /** `name` is that of the first owner reference of the kind. */
  predicate FirstOwner(refs: seq<OwnerRef>, kind: string, name: string) {
    exists i :: 0 <= i < |refs| && refs[i] == OwnerRef(kind, name) && forall j | 0 <= j < i :: refs[j].kind != kind
  }

  lemma {:induction false} FirstRefIsFirst(refs: seq<OwnerRef>, kind: string)
    ensures HasRef(refs, kind) ==> FirstOwner(refs, kind, FirstRef(refs, kind))
    ensures forall name | FirstOwner(refs, kind, name) :: HasRef(refs, kind) && name == FirstRef(refs, kind)
  {
    if refs != [] {
      FirstRefIsFirst(refs[1..], kind);
      if refs[0].kind == kind {
        assert refs[0] == OwnerRef(kind, FirstRef(refs, kind));
      } else {
        LaterOwner(refs, kind);
      }
    }
  }

  lemma LaterOwner(refs: seq<OwnerRef>, kind: string)
    requires refs != [] && refs[0].kind != kind
    ensures HasRef(refs, kind) <==> HasRef(refs[1..], kind)
    ensures forall name :: FirstOwner(refs, kind, name) <==> FirstOwner(refs[1..], kind, name)
  {
    if HasRef(refs, kind) {
      var i :| 0 <= i < |refs| && refs[i].kind == kind;
      assert refs[1..][i - 1].kind == kind;
    }
    forall name ensures FirstOwner(refs, kind, name) <==> FirstOwner(refs[1..], kind, name) {
      if FirstOwner(refs, kind, name) {
        var i :| 0 <= i < |refs| && refs[i] == OwnerRef(kind, name) && forall j | 0 <= j < i :: refs[j].kind != kind;
        assert refs[1..][i - 1] == OwnerRef(kind, name);
      }
      if FirstOwner(refs[1..], kind, name) {
        var i :| 0 <= i < |refs[1..]| && refs[1..][i] == OwnerRef(kind, name) &&
          forall j | 0 <= j < i :: refs[1..][j].kind != kind;
        assert refs[i + 1] == OwnerRef(kind, name);
        assert forall j | 0 < j < i + 1 :: refs[j] == refs[1..][j - 1];
      }
    }
  }

  /** A job is managed by its first CronJob owner, if it has one. */
  lemma JobImplies(o: Object, from: string, e: Edge, z: string)
    requires o.Job?
    ensures HasEdge(MapJob(o), from, e) <==>
            exists name :: FirstOwner(o.refs, "CronJob", name) &&
              IsPair(from, e, Id2(CRONJOB, o.ns, name), Manages, PrimaryId(o))
    ensures HasEntity(MapJob(o), z) <==>
            z == PrimaryId(o) || exists name :: FirstOwner(o.refs, "CronJob", name) && z == Id2(CRONJOB, o.ns, name)
  {
    var id, owner := PrimaryId(o), FirstRef(o.refs, "CronJob");
    FirstRefIsFirst(o.refs, "CronJob");
    OwnFacts(id, JOB, o.name, o.md, from, e, z);
    NeighbourFacts(WithEntity(NO_DESIRES, id, JOB, o.name, o.md), Id2(CRONJOB, o.ns, owner), CRONJOB, owner,
                   Id2(CRONJOB, o.ns, owner), Manages, id, from, e, z);
  }

  /** The kinds of scale target that lead to an edge. */
  predicate Targets(kind: string, target: string) {
    || (kind == "Deployment" && target == DEPLOYMENT)
    || (kind == "StatefulSet" && target == STATEFULSET)
    || (kind == "Rollout" && target == ROLLOUT)
  }

  lemma TargetFacts(d: Desired, id: string, ns: string, kind: string, name: string, from: string, e: Edge, z: string)
    ensures HasEdge(WithTarget(d, id, ns, kind, name), from, e) <==>
            HasEdge(d, from, e) || exists k :: Targets(kind, k) && IsPair(from, e, id, Scales, Id2(k, ns, name))
    ensures HasEntity(WithTarget(d, id, ns, kind, name), z) <==>
            HasEntity(d, z) || exists k :: Targets(kind, k) && z == Id2(k, ns, name)
  {
    var k := TargetKind(kind);
    assert k != "" ==> Targets(kind, k);
    assert forall t | Targets(kind, t) :: t == k && k != "";
    NeighbourFacts(d, Id2(k, ns, name), k, name, id, Scales, Id2(k, ns, name), from, e, z);
  }

  /** An autoscaler scales its target, if of a modelled kind, and is managed by its first
      ScaledObject owner, if it has one. */
  lemma HpaImplies(o: Object, from: string, e: Edge)
    requires o.Hpa?
    ensures HasEdge(MapHpa(o), from, e) <==>
            || (exists k :: Targets(o.targetKind, k) &&
                            IsPair(from, e, PrimaryId(o), Scales, Id2(k, o.ns, o.targetName)))
            || (exists name :: FirstOwner(o.refs, "ScaledObject", name) &&
                               IsPair(from, e, Id2(SCALEDOBJECT, o.ns, name), Manages, PrimaryId(o)))
  {
    var id, owner := PrimaryId(o), FirstRef(o.refs, "ScaledObject");
    FirstRefIsFirst(o.refs, "ScaledObject");
    var d0 := WithEntity(NO_DESIRES, id, HPA, o.name, o.md);
    OwnFacts(id, HPA, o.name, o.md, from, e, id);
    TargetFacts(d0, id, o.ns, o.targetKind, o.targetName, from, e, id);
    NeighbourFacts(WithTarget(d0, id, o.ns, o.targetKind, o.targetName), Id2(SCALEDOBJECT, o.ns, owner), SCALEDOBJECT,
                   owner, Id2(SCALEDOBJECT, o.ns, owner), Manages, id, from, e, id);
  }

  /** A ScaledObject scales its target, a deployment unless another modelled kind is named,
      provided the target has a name. */
  lemma ScaledObjectImplies(o: Object, from: string, e: Edge)
    requires o.ScaledObject?
    ensures HasEdge(MapScaledObject(o), from, e) <==>
            o.targetName != "" &&
            exists k :: (Targets(o.targetKind, k) || (o.targetKind == "" && k == DEPLOYMENT)) &&
                        IsPair(from, e, PrimaryId(o), Scales, Id2(k, o.ns, o.targetName))
  {
    var id, kind := PrimaryId(o), if o.targetKind == "" then "Deployment" else o.targetKind;
    OwnFacts(id, SCALEDOBJECT, o.name, o.md, from, e, id);
    TargetFacts(WithEntity(NO_DESIRES, id, SCALEDOBJECT, o.name, o.md), id, o.ns, kind, o.targetName, from, e, id);
    assert forall k :: Targets(kind, k) <==> Targets(o.targetKind, k) || (o.targetKind == "" && k == DEPLOYMENT);
  }

  // ----- owners of pods

  /** The workload one owner reference of a pod leads to: directly, or through the first
      deployment or rollout reference of a cached ReplicaSet. */
  ghost predicate LeadsTo(ns: string, r: OwnerRef, sets: Lister, owner: Owner) {
    || (r.kind == "StatefulSet" && owner == Owner(Id2(STATEFULSET, ns, r.name), r.name, STATEFULSET))
    || (r.kind == "DaemonSet" && owner == Owner(Id2(DAEMONSET, ns, r.name), r.name, DAEMONSET))
    || (r.kind == "Job" && owner == Owner(Id2(JOB, ns, r.name), r.name, JOB))
    || (r.kind == "ReplicaSet" && (ns, r.name) in sets && SetLeadsTo(ns, sets[(ns, r.name)], owner))
  }

  ghost predicate SetLeadsTo(ns: string, refs: seq<OwnerRef>, owner: Owner) {
    exists i :: 0 <= i < |refs| && OwnsSet(ns, refs[i], owner) && NoneOwnsSet(refs[..i])
  }

  predicate OwnsSet(ns: string, r: OwnerRef, owner: Owner) {
    || (r.kind == "Deployment" && owner == Owner(Id2(DEPLOYMENT, ns, r.name), r.name, DEPLOYMENT))
    || (r.kind == "Rollout" && owner == Owner(Id2(ROLLOUT, ns, r.name), r.name, ROLLOUT))
  }

  predicate NoneOwnsSet(refs: seq<OwnerRef>) {
    forall r | r in refs :: r.kind != "Deployment" && r.kind != "Rollout"
  }

  lemma {:induction false} SetOwnerIsFirst(ns: string, refs: seq<OwnerRef>)
    ensures var owner := ReplicaSetOwner(ns, refs);
            if owner == NOBODY then NoneOwnsSet(refs) else SetLeadsTo(ns, refs, owner)
  {
    if refs != [] {
      assert refs == [refs[0]] + refs[1..];
      var owner := ReplicaSetOwner(ns, refs);
      if refs[0].kind == "Deployment" || refs[0].kind == "Rollout" {
        assert owner.kind != NOBODY.kind;
        assert OwnsSet(ns, refs[0], owner) && NoneOwnsSet(refs[..0]);
      } else {
        SetOwnerIsFirst(ns, refs[1..]);
        if owner != NOBODY {
          var i :| 0 <= i < |refs[1..]| && OwnsSet(ns, refs[1..][i], owner) && NoneOwnsSet(refs[1..][..i]);
          assert refs[..i + 1] == [refs[0]] + refs[1..][..i];
          assert OwnsSet(ns, refs[i + 1], owner) && NoneOwnsSet(refs[..i + 1]);
        }
      }
    }
  }

  ghost predicate LeadsNowhere(ns: string, r: OwnerRef, sets: Lister) {
    && r.kind != "StatefulSet" && r.kind != "DaemonSet" && r.kind != "Job"
    && (r.kind == "ReplicaSet" && (ns, r.name) in sets ==> NoneOwnsSet(sets[(ns, r.name)]))
  }

  ghost predicate FirstLeads(ns: string, refs: seq<OwnerRef>, sets: Lister, owner: Owner) {
    exists i :: 0 <= i < |refs| && LeadsTo(ns, refs[i], sets, owner) &&
                forall j | 0 <= j < i :: LeadsNowhere(ns, refs[j], sets)
  }

  lemma OneReference(ns: string, refs: seq<OwnerRef>, sets: Lister)
    requires refs != []
    ensures var owner := OwnerFor(ns, refs, sets);
            || (owner != NOBODY && LeadsTo(ns, refs[0], sets, owner))
            || (LeadsNowhere(ns, refs[0], sets) && owner == OwnerFor(ns, refs[1..], sets))
  {
    var r := refs[0];
    if r.kind == "ReplicaSet" && (ns, r.name) in sets {
      SetOwnerIsFirst(ns, sets[(ns, r.name)]);
    } else if r.kind == "StatefulSet" || r.kind == "DaemonSet" || r.kind == "Job" {
      assert OwnerFor(ns, refs, sets).kind != NOBODY.kind;
    }
  }

  /** A pod's owner is what the first reference that leads to a workload leads to, and nobody
      exactly when no reference does. */
  lemma {:induction false} OwnerIsFirst(ns: string, refs: seq<OwnerRef>, sets: Lister)
    ensures var owner := OwnerFor(ns, refs, sets);
            if owner == NOBODY then forall r | r in refs :: LeadsNowhere(ns, r, sets)
            else FirstLeads(ns, refs, sets, owner)
  {
    if refs != [] {
      var owner := OwnerFor(ns, refs, sets);
      OneReference(ns, refs, sets);
      OwnerIsFirst(ns, refs[1..], sets);
      assert refs == [refs[0]] + refs[1..];
      if owner != NOBODY && !LeadsTo(ns, refs[0], sets, owner) {
        var i :| 0 <= i < |refs[1..]| && LeadsTo(ns, refs[1..][i], sets, owner) &&
                 forall j | 0 <= j < i :: LeadsNowhere(ns, refs[1..][j], sets);
        assert LeadsTo(ns, refs[i + 1], sets, owner);
        forall j | 0 <= j < i + 1 ensures LeadsNowhere(ns, refs[j], sets) {
          assert j > 0 ==> refs[j] == refs[1..][j - 1];
        }
      }
    }
  }
}
