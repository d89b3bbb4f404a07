/** What one object refers to is the entity that the object referred to is stored as: owners,
    namespaces, nodes, scale targets, by the IDs and kinds of the objects themselves. */
module References {
  import opened Graph
  import opened Mapper
  import opened Ownership
  import opened Implications
  import opened EventEffects

  // ----- the texts of IDs

  /** Every object is stored under the text of its kind, its namespace, if it has one, and its name. */
  lemma IdTexts(ns: string, name: string, md: map<string, string>)
    ensures PrimaryId(Node(name, map[], md)) == "node:" + name
    ensures PrimaryId(Namespace(name, md)) == "namespace:" + name
    ensures PrimaryId(Pod(ns, name, "", [], [], md)) == "pod:" + (ns + "/" + name)
    ensures PrimaryId(Deployment(ns, name, md)) == "deployment:" + (ns + "/" + name)
    ensures PrimaryId(StatefulSet(ns, name, md)) == "statefulset:" + (ns + "/" + name)
    ensures PrimaryId(DaemonSet(ns, name, md)) == "daemonset:" + (ns + "/" + name)
    ensures PrimaryId(Job(ns, name, [], md)) == "job:" + (ns + "/" + name)
    ensures PrimaryId(CronJob(ns, name, md)) == "cronjob:" + (ns + "/" + name)
    ensures PrimaryId(Rollout(ns, name, md)) == "rollout:" + (ns + "/" + name)
    ensures PrimaryId(Hpa(ns, name, "", "", [], md)) == "hpa:" + (ns + "/" + name)
    ensures PrimaryId(ScaledObject(ns, name, "", "", md)) == "scaledobject:" + (ns + "/" + name)
    ensures Id1(ZONE, name) == "zone:" + name && Id1(REGION, name) == "region:" + name
  {
  }

  lemma ContainerText(ns: string, pod: string, name: string)
    ensures ContainerId(ns, pod, name) == "container:" + (ns + "/" + pod + "/" + name)
  {
  }

  /** The entity of an object, under its own ID, kind and name. */
  ghost predicate Stores(d: Desired, o: Object) {
    exists ent :: ent in d.entities && ent.id == PrimaryId(o) && ent.kind == KindOfObject(o) && ent.name == o.name
  }

  lemma StoresEntity(d: Desired, o: Object, md: map<string, string>)
    ensures Stores(WithEntity(d, PrimaryId(o), KindOfObject(o), o.name, md), o)
  {
    var ent := DesiredEntity(PrimaryId(o), KindOfObject(o), o.name, md);
    assert ent in WithEntity(d, PrimaryId(o), KindOfObject(o), o.name, md).entities;
  }

  lemma StoresMore(d: Desired, d': Desired, o: Object)
    requires Stores(d, o) && d.entities <= d'.entities
    ensures Stores(d', o)
  {
    var ent :| ent in d.entities && ent.id == PrimaryId(o) && ent.kind == KindOfObject(o) && ent.name == o.name;
    var i :| 0 <= i < |d.entities| && d.entities[i] == ent;
    assert d'.entities[i] == ent;
  }

  /** Both edges between two objects. */
  predicate Linked(d: Desired, from: Object, forward: EdgeKind, to: Object, back: EdgeKind) {
    && HasEdge(d, PrimaryId(from), Edge(forward, PrimaryId(to), ""))
    && HasEdge(d, PrimaryId(to), Edge(back, PrimaryId(from), ""))
  }

  lemma {:induction false} ContainersAppend(d: Desired, ns: string, pod: string, containers: seq<Container>)
    ensures d.entities <= WithContainers(d, ns, pod, containers).entities
  {
    if containers != [] {
      ContainersAppend(d, ns, pod, containers[..|containers| - 1]);
    }
  }

  // ----- an object stores itself

  lemma EntityMore(d: Desired, d': Desired, ent: DesiredEntity)
    requires ent in d.entities && d.entities <= d'.entities
    ensures ent in d'.entities
  {
    var i :| 0 <= i < |d.entities| && d.entities[i] == ent;
    assert d'.entities[i] == ent;
  }

  /** Every object is stored under its own ID, kind and name, with its metadata, whatever its owner. */
  lemma StoresItself(o: Object, owner: Owner)
    ensures DesiredEntity(PrimaryId(o), KindOfObject(o), o.name, o.md) in Desire(o, owner).entities
  {
    var ent := DesiredEntity(PrimaryId(o), KindOfObject(o), o.name, o.md);
    var d1 := WithEntity(Desired([], []), PrimaryId(o), KindOfObject(o), o.name, o.md);
    assert d1.entities[0] == ent;
    if o.Pod? {
      var d4 := WithOwner(WithNodeOf(PodInNamespace(o), o), o, owner);
      ContainersAppend(d4, o.ns, o.name, o.containers);
      assert d1.entities <= d4.entities;
    }
    EntityMore(d1, Desire(o, owner), ent);
  }

  lemma {:induction false} ContainerStored(d: Desired, ns: string, pod: string, containers: seq<Container>,
                                           c: Container)
    requires c in containers
    ensures DesiredEntity(ContainerId(ns, pod, c.name), "container", c.name, map["container.image.name" := c.image]) in
            WithContainers(d, ns, pod, containers).entities
  {
    var init, last := containers[..|containers| - 1], containers[|containers| - 1];
    assert containers == init + [last];
    var d' := WithContainers(d, ns, pod, containers);
    if c == last {
      assert d'.entities[|d'.entities| - 1].id == ContainerId(ns, pod, c.name);
    } else {
      ContainerStored(d, ns, pod, init, c);
      assert WithContainers(d, ns, pod, init).entities <= d'.entities;
      var id, md := ContainerId(ns, pod, c.name), map["container.image.name" := c.image];
      EntityMore(WithContainers(d, ns, pod, init), d', DesiredEntity(id, "container", c.name, md));
    }
  }

  /** Every container of a pod is stored with its image, contained in the pod, and runs in it. */
  lemma PodMeetsContainers(o: Object, owner: Owner, c: Container)
    requires o.Pod? && c in o.containers
    ensures var id, d := ContainerId(o.ns, o.name, c.name), MapPod(o, owner);
            && DesiredEntity(id, "container", c.name, map["container.image.name" := c.image]) in d.entities
            && HasEdge(d, PrimaryId(o), Edge(Contains, id, "")) && HasEdge(d, id, Edge(RunsIn, PrimaryId(o), ""))
  {
    var id := ContainerId(o.ns, o.name, c.name);
    ContainerStored(WithOwner(WithNodeOf(PodInNamespace(o), o), o, owner), o.ns, o.name, o.containers, c);
    PodImplies(o, owner, PrimaryId(o), Edge(Contains, id, ""), id);
    PodImplies(o, owner, id, Edge(RunsIn, PrimaryId(o), ""), id);
  }

  // ----- what a pod refers to

  /** The pod's namespace and, once it is scheduled, its node are those stored for the objects of
      these names; both contain the pod, and the pod runs in both. */
  lemma PodMeetsPlaces(o: Object, owner: Owner, place: Object)
    requires o.Pod?
    requires (place.Namespace? && place.name == o.ns) || (place.Node? && place.name == o.node != "")
    ensures Stores(MapPod(o, owner), place) && Linked(MapPod(o, owner), place, Contains, o, RunsIn)
  {
    var d2 := PodInNamespace(o);
    var d3 := WithNodeOf(d2, o);
    var d4 := WithOwner(d3, o, owner);
    ContainersAppend(d4, o.ns, o.name, o.containers);
    if place.Namespace? {
      StoresEntity(WithEntity(Desired([], []), PrimaryId(o), POD, o.name, o.md), place, map[]);
      StoresMore(d2, MapPod(o, owner), place);
    } else {
      StoresEntity(d2, place, map[]);
      StoresMore(d3, MapPod(o, owner), place);
    }
    PodImplies(o, owner, PrimaryId(place), Edge(Contains, PrimaryId(o), ""), "");
    PodImplies(o, owner, PrimaryId(o), Edge(RunsIn, PrimaryId(place), ""), "");
  }

  /** The objects a reference of a pod can name: a workload directly, or through a cached
      ReplicaSet, whose first reference to a deployment or rollout counts. */
  ghost predicate RefersTo(ns: string, r: OwnerRef, sets: Lister, x: Object) {
    || (x.StatefulSet? && r.kind == "StatefulSet" && x.ns == ns && x.name == r.name)
    || (x.DaemonSet? && r.kind == "DaemonSet" && x.ns == ns && x.name == r.name)
    || (x.Job? && r.kind == "Job" && x.ns == ns && x.name == r.name)
    || (r.kind == "ReplicaSet" && (ns, r.name) in sets && SetRefersTo(ns, sets[(ns, r.name)], x))
  }

  ghost predicate SetRefersTo(ns: string, refs: seq<OwnerRef>, x: Object) {
    exists i :: 0 <= i < |refs| && NoneOwnsSet(refs[..i]) && OwnedBy(ns, refs[i], x)
  }

  predicate OwnedBy(ns: string, r: OwnerRef, x: Object) {
    || (x.Deployment? && r.kind == "Deployment" && x.ns == ns && x.name == r.name)
    || (x.Rollout? && r.kind == "Rollout" && x.ns == ns && x.name == r.name)
  }

  function AsOwner(x: Object): Owner {
    Owner(PrimaryId(x), x.name, KindOfObject(x))
  }

  lemma {:induction false} SetOwnerIs(ns: string, refs: seq<OwnerRef>, x: Object)
    requires SetRefersTo(ns, refs, x)
    ensures ReplicaSetOwner(ns, refs) == AsOwner(x)
    decreases |refs|
  {
    var i :| 0 <= i < |refs| && NoneOwnsSet(refs[..i]) && OwnedBy(ns, refs[i], x);
    if i > 0 {
      assert refs[0] == refs[..i][0];
      assert refs[1..][..i - 1] == refs[..i][1..] && refs[1..][i - 1] == refs[i];
      SetOwnerIs(ns, refs[1..], x);
    }
  }

  lemma NobodyBefore(ns: string, r: OwnerRef, rest: seq<OwnerRef>, sets: Lister)
    requires LeadsNowhere(ns, r, sets)
    ensures OwnerFor(ns, [r] + rest, sets) == OwnerFor(ns, rest, sets)
  {
    assert ([r] + rest)[1..] == rest;
    if r.kind == "ReplicaSet" && (ns, r.name) in sets {
      SetOwnerIsFirst(ns, sets[(ns, r.name)]);
      NoSetOwner(ns, sets[(ns, r.name)]);
    }
  }

  lemma {:induction false} NoSetOwner(ns: string, refs: seq<OwnerRef>)
    requires NoneOwnsSet(refs)
    ensures ReplicaSetOwner(ns, refs) == NOBODY
  {
    if refs != [] {
      assert refs[0] in refs;
      NoSetOwner(ns, refs[1..]);
    }
  }

  /** The resolved owner of a pod is the entity stored for the object its first leading reference
      names: ID, name and kind. */
  lemma {:induction false} OwnerMeetsObject(ns: string, refs: seq<OwnerRef>, sets: Lister, i: nat, x: Object)
    requires i < |refs| && RefersTo(ns, refs[i], sets, x)
    requires forall j | 0 <= j < i :: LeadsNowhere(ns, refs[j], sets)
    ensures OwnerFor(ns, refs, sets) == AsOwner(x)
    decreases i
  {
    if i == 0 {
      if refs[0].kind == "ReplicaSet" {
        SetOwnerIs(ns, sets[(ns, refs[0].name)], x);
        assert AsOwner(x).kind != NOBODY.kind;
      }
    } else {
      assert refs == [refs[0]] + refs[1..];
      NobodyBefore(ns, refs[0], refs[1..], sets);
      assert refs[1..][i - 1] == refs[i];
      forall j | 0 <= j < i - 1 ensures LeadsNowhere(ns, refs[1..][j], sets) {
        assert refs[1..][j] == refs[j + 1];
      }
      OwnerMeetsObject(ns, refs[1..], sets, i - 1, x);
    }
  }

  /** And that object manages the pod. */
  lemma OwnerManagesPod(o: Object, sets: Lister, i: nat, x: Object)
    requires o.Pod? && i < |o.refs| && RefersTo(o.ns, o.refs[i], sets, x)
    requires forall j | 0 <= j < i :: LeadsNowhere(o.ns, o.refs[j], sets)
    ensures var d := MapPod(o, OwnerFor(o.ns, o.refs, sets)); Stores(d, x) && Linked(d, x, Manages, o, ManagedBy)
  {
    var owner := OwnerFor(o.ns, o.refs, sets);
    OwnerMeetsObject(o.ns, o.refs, sets, i, x);
    assert owner.id[|KindOfObject(x)|] == ':';
    var d3 := WithNodeOf(PodInNamespace(o), o);
    var d4 := WithOwner(d3, o, owner);
    StoresEntity(d3, x, map[]);
    ContainersAppend(d4, o.ns, o.name, o.containers);
    StoresMore(d4, MapPod(o, owner), x);
    PodImplies(o, owner, owner.id, Edge(Manages, PrimaryId(o), ""), "");
    PodImplies(o, owner, PrimaryId(o), Edge(ManagedBy, owner.id, ""), "");
  }

  // ----- what autoscalers and jobs refer to

  /** The object that a scale target of this kind and name in the namespace is. */
  predicate IsTarget(x: Object, ns: string, kind: string, name: string) {
    || (x.Deployment? && kind == "Deployment" && x.ns == ns && x.name == name)
    || (x.StatefulSet? && kind == "StatefulSet" && x.ns == ns && x.name == name)
    || (x.Rollout? && kind == "Rollout" && x.ns == ns && x.name == name)
  }

  lemma TargetMeets(d: Desired, o: Object, ns: string, kind: string, name: string, x: Object)
    requires IsTarget(x, ns, kind, name)
    ensures var d' := WithTarget(d, PrimaryId(o), ns, kind, name); Stores(d', x) && Linked(d', o, Scales, x, ScaledBy)
  {
    var d1 := WithEntity(d, PrimaryId(x), KindOfObject(x), x.name, map[]);
    StoresEntity(d, x, map[]);
    StoresMore(d1, WithTarget(d, PrimaryId(o), ns, kind, name), x);
    PairEdges(d1, PrimaryId(o), Scales, PrimaryId(x), PrimaryId(o), Edge(Scales, PrimaryId(x), ""));
    PairEdges(d1, PrimaryId(o), Scales, PrimaryId(x), PrimaryId(x), Edge(ScaledBy, PrimaryId(o), ""));
  }

  lemma EdgeMore(d: Desired, d': Desired, from: string, e: Edge)
    requires HasEdge(d, from, e) && d.edges <= d'.edges
    ensures HasEdge(d', from, e)
  {
    var ed := DesiredEdge(from, e);
    var i :| 0 <= i < |d.edges| && d.edges[i] == ed;
    assert d'.edges[i] == ed;
  }

  lemma LinkedMore(d: Desired, d': Desired, from: Object, forward: EdgeKind, to: Object, back: EdgeKind)
    requires Linked(d, from, forward, to, back) && d.edges <= d'.edges
    ensures Linked(d', from, forward, to, back)
  {
    var x, y := PrimaryId(from), PrimaryId(to);
    EdgeMore(d, d', x, Edge(forward, y, ""));
    EdgeMore(d, d', y, Edge(back, x, ""));
  }

  /** An autoscaler scales the entity stored for the object its target names. */
  lemma HpaMeetsTarget(o: Object, x: Object)
    requires o.Hpa? && IsTarget(x, o.ns, o.targetKind, o.targetName)
    ensures Stores(MapHpa(o), x) && Linked(MapHpa(o), o, Scales, x, ScaledBy)
  {
    var d0 := WithEntity(Desired([], []), PrimaryId(o), HPA, o.name, o.md);
    var d1 := WithTarget(d0, PrimaryId(o), o.ns, o.targetKind, o.targetName);
    TargetMeets(d0, o, o.ns, o.targetKind, o.targetName, x);
    StoresMore(d1, MapHpa(o), x);
    LinkedMore(d1, MapHpa(o), o, Scales, x, ScaledBy);
  }

  /** So does a ScaledObject, whose target is a deployment unless it says otherwise. */
  lemma ScaledObjectMeetsTarget(o: Object, x: Object)
    requires o.ScaledObject? && o.targetName != ""
    requires || IsTarget(x, o.ns, o.targetKind, o.targetName)
             || (o.targetKind == "" && x.Deployment? && x.ns == o.ns && x.name == o.targetName)
    ensures Stores(MapScaledObject(o), x) && Linked(MapScaledObject(o), o, Scales, x, ScaledBy)
  {
    var kind := if o.targetKind == "" then "Deployment" else o.targetKind;
    TargetMeets(WithEntity(Desired([], []), PrimaryId(o), SCALEDOBJECT, o.name, o.md), o, o.ns, kind, o.targetName, x);
  }

  /** The manager of a job is the entity stored for the CronJob its first such reference names; of
      an autoscaler, the ScaledObject. */
  lemma ManagerMeets(o: Object, x: Object)
    requires || (o.Job? && x.CronJob? && x.ns == o.ns && FirstOwner(o.refs, "CronJob", x.name))
             || (o.Hpa? && x.ScaledObject? && x.ns == o.ns && FirstOwner(o.refs, "ScaledObject", x.name))
    ensures Stores(Desire(o, NOBODY), x) && Linked(Desire(o, NOBODY), x, Manages, o, ManagedBy)
  {
    var id, d0 := PrimaryId(o), WithEntity(Desired([], []), PrimaryId(o), KindOfObject(o), o.name, o.md);
    FirstRefIsFirst(o.refs, if o.Job? then "CronJob" else "ScaledObject");
    var d1 := if o.Job? then d0 else WithTarget(d0, id, o.ns, o.targetKind, o.targetName);
    var d2 := WithEntity(d1, PrimaryId(x), KindOfObject(x), x.name, map[]);
    StoresEntity(d1, x, map[]);
    assert Desire(o, NOBODY) == WithPair(d2, PrimaryId(x), Manages, id);
    StoresMore(d2, Desire(o, NOBODY), x);
    PairEdges(d2, PrimaryId(x), Manages, id, PrimaryId(x), Edge(Manages, id, ""));
    PairEdges(d2, PrimaryId(x), Manages, id, id, Edge(ManagedBy, PrimaryId(x), ""));
  }

  /** The first of two labels that is there with a value gives it. */
  predicate ByLabels(labels: map<string, string>, modern: string, legacy: string, value: string) {
    if modern in labels && labels[modern] != "" then value == labels[modern]
    else if legacy in labels then value == labels[legacy]
    else value == ""
  }

  /** Zone and region of a node come from the topology labels, the modern ones first. */
  lemma TopologyByLabels(labels: map<string, string>)
    ensures ByLabels(labels, "topology.kubernetes.io/zone", "failure-domain.beta.kubernetes.io/zone",
                     TopologyLabel(labels, "zone"))
    ensures ByLabels(labels, "topology.kubernetes.io/region", "failure-domain.beta.kubernetes.io/region",
                     TopologyLabel(labels, "region"))
  {
    assert "topology.kubernetes.io/" + "zone" == "topology.kubernetes.io/zone";
    assert "topology.kubernetes.io/" + "region" == "topology.kubernetes.io/region";
    assert "failure-domain.beta.kubernetes.io/" + "zone" == "failure-domain.beta.kubernetes.io/zone";
    assert "failure-domain.beta.kubernetes.io/" + "region" == "failure-domain.beta.kubernetes.io/region";
  }

  /** So a labelled node's zone and region are those stored under these labels' values. */
  lemma NodeMeetsZone(o: Object, zone: string, region: string)
    requires o.Node? && zone != ""
    requires ByLabels(o.labels, "topology.kubernetes.io/zone", "failure-domain.beta.kubernetes.io/zone", zone)
    requires ByLabels(o.labels, "topology.kubernetes.io/region", "failure-domain.beta.kubernetes.io/region", region)
    ensures HasEdge(MapNode(o), "zone:" + zone, Edge(Contains, PrimaryId(o), ""))
    ensures HasEdge(MapNode(o), PrimaryId(o), Edge(RunsIn, "zone:" + zone, ""))
    ensures region != "" ==> HasEdge(MapNode(o), "region:" + region, Edge(Contains, "zone:" + zone, ""))
    ensures region != "" ==> HasEdge(MapNode(o), "zone:" + zone, Edge(RunsIn, "region:" + region, ""))
  {
    TopologyByLabels(o.labels);
    var z, r := "zone:" + zone, "region:" + region;
    assert Id1(ZONE, zone) == z && Id1(REGION, region) == r && Id1(NODE, o.name) == PrimaryId(o);
    NodeImplies(o, z, Edge(Contains, PrimaryId(o), ""), z);
    NodeImplies(o, PrimaryId(o), Edge(RunsIn, z, ""), z);
    NodeImplies(o, r, Edge(Contains, z, ""), z);
    NodeImplies(o, z, Edge(RunsIn, r, ""), z);
  }
}
