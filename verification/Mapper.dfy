/** The mapping from Kubernetes objects to the entities and edges they imply. Metadata of an
    object's own entity arrives formatted (`md`); everything else is as the mappers build it. */
module Mapper {
  import opened Strings
  import opened Graph

  datatype DesiredEntity = DesiredEntity(id: string, kind: string, name: string, md: map<string, string>)
  datatype DesiredEdge = DesiredEdge(from: string, edge: Edge)
  datatype Desired = Desired(entities: seq<DesiredEntity>, edges: seq<DesiredEdge>)

  datatype OwnerRef = OwnerRef(kind: string, name: string)

  /** The resolved owner of a pod; all fields empty when there is none. */
  datatype Owner = Owner(id: string, name: string, kind: string)

  const NOBODY := Owner("", "", "")

  datatype Container = Container(name: string, image: string)

  datatype Object =
    | Pod(ns: string, name: string, node: string, refs: seq<OwnerRef>, containers: seq<Container>,
          md: map<string, string>)
    | Node(name: string, labels: map<string, string>, md: map<string, string>)
    | Namespace(name: string, md: map<string, string>)
    | Deployment(ns: string, name: string, md: map<string, string>)
    | StatefulSet(ns: string, name: string, md: map<string, string>)
    | DaemonSet(ns: string, name: string, md: map<string, string>)
    | Job(ns: string, name: string, refs: seq<OwnerRef>, md: map<string, string>)
    | CronJob(ns: string, name: string, md: map<string, string>)
    | Hpa(ns: string, name: string, targetKind: string, targetName: string, refs: seq<OwnerRef>,
          md: map<string, string>)
    | Rollout(ns: string, name: string, md: map<string, string>)
    | ScaledObject(ns: string, name: string, targetKind: string, targetName: string, md: map<string, string>)

  // ----- IDs

  function Id1(kind: string, name: string): string { kind + ":" + name }
  function Id2(kind: string, ns: string, name: string): string { kind + ":" + (ns + "/" + name) }
  function Id3(kind: string, ns: string, pod: string,
               name: string): string { kind + ":" + (ns + "/" + pod + "/" + name) }

  function PodId(ns: string, name: string): string { Id2(POD, ns, name) }
  function ContainerId(ns: string, pod: string, name: string): string { Id3(CONTAINER, ns, pod, name) }

  /** The ID of the entity an object is about. */
  function PrimaryId(o: Object): string {
    match o
    case Pod(ns, name, _, _, _, _) => PodId(ns, name)
    case Node(name, _, _) => Id1(NODE, name)
    case Namespace(name, _) => Id1(NAMESPACE, name)
    case Deployment(ns, name, _) => Id2(DEPLOYMENT, ns, name)
    case StatefulSet(ns, name, _) => Id2(STATEFULSET, ns, name)
    case DaemonSet(ns, name, _) => Id2(DAEMONSET, ns, name)
    case Job(ns, name, _, _) => Id2(JOB, ns, name)
    case CronJob(ns, name, _) => Id2(CRONJOB, ns, name)
    case Hpa(ns, name, _, _, _, _) => Id2(HPA, ns, name)
    case Rollout(ns, name, _) => Id2(ROLLOUT, ns, name)
    case ScaledObject(ns, name, _, _, _) => Id2(SCALEDOBJECT, ns, name)
  }

  /** Prefers the modern label and falls back to the legacy one. */
  function TopologyLabel(labels: map<string, string>, suffix: string): string {
    var v := Lookup(labels, "topology.kubernetes.io/" + suffix);
    if v != "" then v else Lookup(labels, "failure-domain.beta.kubernetes.io/" + suffix)
  }

  // ----- the mappers

  function WithEntity(d: Desired, id: string, kind: string, name: string, md: map<string, string>): Desired {
    d.(entities := d.entities + [DesiredEntity(id, kind, name, md)])
  }

  /** Forward and reverse edge between two entities. */
  function WithPair(d: Desired, from: string, fwd: EdgeKind, to: string): Desired {
    d.(edges := d.edges + [DesiredEdge(from, Edge(fwd, to, "")), DesiredEdge(to, Edge(fwd.Reverse(), from, ""))])
  }

  function WithContainers(d: Desired, ns: string, pod: string, containers: seq<Container>): Desired {
    if containers == [] then d
    else
      var init, c := containers[..|containers| - 1], containers[|containers| - 1];
      var cId := ContainerId(ns, pod, c.name);
      WithPair(WithEntity(WithContainers(d, ns, pod, init), cId, CONTAINER, c.name,
                          map["container.image.name" := c.image]),
               PodId(ns, pod), Contains, cId)
  }

  function PodInNamespace(o: Object): Desired
    requires o.Pod?
  {
    var id := PodId(o.ns, o.name);
    WithPair(WithEntity(WithEntity(Desired([], []), id, POD, o.name, o.md), Id1(NAMESPACE, o.ns), NAMESPACE, o.ns,
                        map[]),
             Id1(NAMESPACE, o.ns), Contains, id)
  }

  function WithNodeOf(d: Desired, o: Object): Desired
    requires o.Pod?
  {
    if o.node == "" then d
    else WithPair(WithEntity(d, Id1(NODE, o.node), NODE, o.node, map[]), Id1(NODE, o.node), Contains,
                  PodId(o.ns, o.name))
  }

  function WithOwner(d: Desired, o: Object, owner: Owner): Desired
    requires o.Pod?
  {
    if owner.id == "" then d
    else WithPair(WithEntity(d, owner.id, owner.kind, owner.name, map[]), owner.id, Manages, PodId(o.ns, o.name))
  }

  function MapPod(o: Object, owner: Owner): Desired
    requires o.Pod?
  {
    WithContainers(WithOwner(WithNodeOf(PodInNamespace(o), o), o, owner), o.ns, o.name, o.containers)
  }

  function MapNode(o: Object): Desired
    requires o.Node?
  {
    var id := PrimaryId(o);
    var zone, region := TopologyLabel(o.labels, "zone"), TopologyLabel(o.labels, "region");
    var d1 := WithEntity(Desired([], []), id, NODE, o.name, o.md);
    if zone == "" then d1
    else
      var d2 := WithPair(WithEntity(d1, Id1(ZONE, zone), ZONE, zone, map[]), Id1(ZONE, zone), Contains, id);
      if region == "" then d2
      else WithPair(WithEntity(d2, Id1(REGION, region), REGION, region, map[]), Id1(REGION, region), Contains,
                    Id1(ZONE, zone))
  }

  /** The first owner reference of the kind, or the empty text. */
  function FirstRef(refs: seq<OwnerRef>, kind: string): string {
    if refs == [] then "" else if refs[0].kind == kind then refs[0].name else FirstRef(refs[1..], kind)
  }

  predicate HasRef(refs: seq<OwnerRef>, kind: string) {
    exists i :: 0 <= i < |refs| && refs[i].kind == kind
  }

  function MapJob(o: Object): Desired
    requires o.Job?
  {
    var id := PrimaryId(o);
    var d1 := WithEntity(Desired([], []), id, JOB, o.name, o.md);
    if !HasRef(o.refs, "CronJob") then d1
    else
      var owner := FirstRef(o.refs, "CronJob");
      WithPair(WithEntity(d1, Id2(CRONJOB, o.ns, owner), CRONJOB, owner, map[]), Id2(CRONJOB, o.ns, owner), Manages, id)
  }

  /** Kinds of scale targets that are modelled. */
  function TargetKind(kind: string): string {
    if kind == "Deployment" then DEPLOYMENT
    else if kind == "StatefulSet" then STATEFULSET
    else if kind == "Rollout" then ROLLOUT
    else ""
  }

  function WithTarget(d: Desired, id: string, ns: string, kind: string, name: string): Desired {
    var k := TargetKind(kind);
    if k == "" then d
    else WithPair(WithEntity(d, Id2(k, ns, name), k, name, map[]), id, Scales, Id2(k, ns, name))
  }

  function MapHpa(o: Object): Desired
    requires o.Hpa?
  {
    var id := PrimaryId(o);
    var d1 := WithTarget(WithEntity(Desired([], []), id, HPA, o.name, o.md), id, o.ns, o.targetKind, o.targetName);
    if !HasRef(o.refs, "ScaledObject") then d1
    else
      var owner := FirstRef(o.refs, "ScaledObject");
      WithPair(WithEntity(d1, Id2(SCALEDOBJECT, o.ns, owner), SCALEDOBJECT, owner, map[]),
               Id2(SCALEDOBJECT, o.ns, owner), Manages, id)
  }

  /** Without a target name there is no edge; without a target kind it is a deployment. */
  function MapScaledObject(o: Object): Desired
    requires o.ScaledObject?
  {
    var id := PrimaryId(o);
    var d1 := WithEntity(Desired([], []), id, SCALEDOBJECT, o.name, o.md);
    if o.targetName == "" then d1
    else WithTarget(d1, id, o.ns, if o.targetKind == "" then "Deployment" else o.targetKind, o.targetName)
  }

  function KindOfObject(o: Object): string {
    match o
    case Pod(_, _, _, _, _, _) => POD
    case Node(_, _, _) => NODE
    case Namespace(_, _) => NAMESPACE
    case Deployment(_, _, _) => DEPLOYMENT
    case StatefulSet(_, _, _) => STATEFULSET
    case DaemonSet(_, _, _) => DAEMONSET
    case Job(_, _, _, _) => JOB
    case CronJob(_, _, _) => CRONJOB
    case Hpa(_, _, _, _, _, _) => HPA
    case Rollout(_, _, _) => ROLLOUT
    case ScaledObject(_, _, _, _, _) => SCALEDOBJECT
  }

  /** What an object implies; only pods have a resolved owner. */
  function Desire(o: Object, owner: Owner): Desired {
    if o.Pod? then MapPod(o, owner)
    else if o.Node? then MapNode(o)
    else if o.Job? then MapJob(o)
    else if o.Hpa? then MapHpa(o)
    else if o.ScaledObject? then MapScaledObject(o)
    else WithEntity(Desired([], []), PrimaryId(o), KindOfObject(o), o.name, o.md)
  }

  // ----- the loops

  method MapPodLoop(o: Object, owner: Owner) returns (d: Desired)
    requires o.Pod?
    ensures d == MapPod(o, owner)
  {
    var id := PodId(o.ns, o.name);
    d := WithEntity(Desired([], []), id, POD, o.name, o.md);
    d := WithEntity(d, Id1(NAMESPACE, o.ns), NAMESPACE, o.ns, map[]);
    d := WithPair(d, Id1(NAMESPACE, o.ns), Contains, id);
    if o.node != "" {
      d := WithEntity(d, Id1(NODE, o.node), NODE, o.node, map[]);
      d := WithPair(d, Id1(NODE, o.node), Contains, id);
    }
    if owner.id != "" {
      d := WithEntity(d, owner.id, owner.kind, owner.name, map[]);
      d := WithPair(d, owner.id, Manages, id);
    }
    ghost var d4 := d;
    for i := 0 to |o.containers|
      invariant d == WithContainers(d4, o.ns, o.name, o.containers[..i])
    {
      var c := o.containers[i];
      var cId := ContainerId(o.ns, o.name, c.name);
      d := WithEntity(d, cId, CONTAINER, c.name, map["container.image.name" := c.image]);
      d := WithPair(d, id, Contains, cId);
      assert o.containers[..i + 1][..i] == o.containers[..i];
    }
    assert o.containers[..|o.containers|] == o.containers;
  }

  /** The reference loops of MapJob and MapHPA: stop at the first reference of the kind. */
  method FindRef(refs: seq<OwnerRef>, kind: string) returns (found: bool, name: string)
    ensures found <==> HasRef(refs, kind)
    ensures name == FirstRef(refs, kind)
  {
    for i := 0 to |refs|
      invariant forall k | 0 <= k < i :: refs[k].kind != kind
      invariant FirstRef(refs, kind) == FirstRef(refs[i..], kind)
    {
      if refs[i].kind == kind {
        return true, refs[i].name;
      }
      assert refs[i..][1..] == refs[i + 1..];
    }
    return false, "";
  }

  method MapJobLoop(o: Object) returns (d: Desired)
    requires o.Job?
    ensures d == MapJob(o)
  {
    d := WithEntity(Desired([], []), PrimaryId(o), JOB, o.name, o.md);
    var found, owner := FindRef(o.refs, "CronJob");
    if found {
      d := WithEntity(d, Id2(CRONJOB, o.ns, owner), CRONJOB, owner, map[]);
      d := WithPair(d, Id2(CRONJOB, o.ns, owner), Manages, PrimaryId(o));
    }
  }

  method MapHpaLoop(o: Object) returns (d: Desired)
    requires o.Hpa?
    ensures d == MapHpa(o)
  {
    d := WithEntity(Desired([], []), PrimaryId(o), HPA, o.name, o.md);
    d := WithTarget(d, PrimaryId(o), o.ns, o.targetKind, o.targetName);
    var found, owner := FindRef(o.refs, "ScaledObject");
    if found {
      d := WithEntity(d, Id2(SCALEDOBJECT, o.ns, owner), SCALEDOBJECT, owner, map[]);
      d := WithPair(d, Id2(SCALEDOBJECT, o.ns, owner), Manages, PrimaryId(o));
    }
  }

  // ----- resolving the owner of a pod

  /** What the ReplicaSet lister knows: the owner references of the sets in its cache. */
  type Lister = map<(string, string), seq<OwnerRef>>

  function ReplicaSetOwner(ns: string, refs: seq<OwnerRef>): Owner {
    if refs == [] then NOBODY
    else if refs[0].kind == "Deployment" then Owner(Id2(DEPLOYMENT, ns, refs[0].name), refs[0].name, DEPLOYMENT)
    else if refs[0].kind == "Rollout" then Owner(Id2(ROLLOUT, ns, refs[0].name), refs[0].name, ROLLOUT)
    else ReplicaSetOwner(ns, refs[1..])
  }

  function OwnerFor(ns: string, refs: seq<OwnerRef>, sets: Lister): Owner {
    if refs == [] then NOBODY
    else
      var r := refs[0];
      if r.kind == "StatefulSet" then Owner(Id2(STATEFULSET, ns, r.name), r.name, STATEFULSET)
      else if r.kind == "DaemonSet" then Owner(Id2(DAEMONSET, ns, r.name), r.name, DAEMONSET)
      else if r.kind == "Job" then Owner(Id2(JOB, ns, r.name), r.name, JOB)
      else if r.kind == "ReplicaSet" && (ns, r.name) in sets && ReplicaSetOwner(ns, sets[(ns, r.name)]) != NOBODY then
        ReplicaSetOwner(ns, sets[(ns, r.name)])
      else OwnerFor(ns, refs[1..], sets)
  }

  method OwnerForPod(ns: string, refs: seq<OwnerRef>, sets: Lister) returns (owner: Owner)
    ensures owner == OwnerFor(ns, refs, sets)
  {
    for i := 0 to |refs|
      invariant OwnerFor(ns, refs, sets) == OwnerFor(ns, refs[i..], sets)
    {
      var r := refs[i];
      assert refs[i..][1..] == refs[i + 1..];
      if r.kind == "ReplicaSet" {
        if (ns, r.name) !in sets {
          continue;
        }
        var rs := sets[(ns, r.name)];
        for j := 0 to |rs|
          invariant ReplicaSetOwner(ns, rs) == ReplicaSetOwner(ns, rs[j..])
        {
          assert rs[j..][1..] == rs[j + 1..];
          if rs[j].kind == "Deployment" {
            return Owner(Id2(DEPLOYMENT, ns, rs[j].name), rs[j].name, DEPLOYMENT);
          }
          if rs[j].kind == "Rollout" {
            return Owner(Id2(ROLLOUT, ns, rs[j].name), rs[j].name, ROLLOUT);
          }
        }
      } else if r.kind == "StatefulSet" {
        return Owner(Id2(STATEFULSET, ns, r.name), r.name, STATEFULSET);
      } else if r.kind == "DaemonSet" {
        return Owner(Id2(DAEMONSET, ns, r.name), r.name, DAEMONSET);
      } else if r.kind == "Job" {
        return Owner(Id2(JOB, ns, r.name), r.name, JOB);
      }
    }
    return NOBODY;
  }
}
