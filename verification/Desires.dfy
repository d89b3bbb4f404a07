/** Everything the mappers produce belongs to the object they were given. */
module Desires {
  import opened Strings
  import opened Graph
  import opened Mapper
  import opened Ownership

  // The edge pairs of the mappers, by the kinds of their ends.

  predicate PodPair(pid: string, from: string, fwd: EdgeKind, to: string) {
    && KindOf(to) == POD && to == pid
    && ((fwd == Contains && KindOf(from) in {NAMESPACE, NODE}) ||
        (fwd == Manages && KindOf(from) in {DEPLOYMENT, ROLLOUT, STATEFULSET, DAEMONSET, JOB}))
  }

  predicate ContainerPair(pid: string, from: string, fwd: EdgeKind, to: string) {
    KindOf(from) == POD && from == pid && KindOf(to) == CONTAINER && fwd == Contains && PodOf(to) == pid
  }

  predicate TopologyPair(pid: string, from: string, fwd: EdgeKind, to: string) {
    || (KindOf(from) == ZONE && KindOf(to) == NODE && to == pid && fwd == Contains)
    || (KindOf(from) == REGION && KindOf(to) == ZONE && KindOf(pid) == NODE && fwd == Contains)
  }

  predicate ManagerPair(pid: string, from: string, fwd: EdgeKind, to: string) {
    || (KindOf(from) == CRONJOB && KindOf(to) == JOB && to == pid && fwd == Manages)
    || (KindOf(from) == SCALEDOBJECT && KindOf(to) == HPA && to == pid && fwd == Manages)
  }

  predicate ScalePair(pid: string, from: string, fwd: EdgeKind, to: string) {
    KindOf(from) in {HPA, SCALEDOBJECT} && from == pid && fwd == Scales &&
      KindOf(to) in {DEPLOYMENT, STATEFULSET, ROLLOUT}
  }

  predicate KnownPair(pid: string, from: string, fwd: EdgeKind, to: string) {
    || PodPair(pid, from, fwd, to)
    || ContainerPair(pid, from, fwd, to)
    || TopologyPair(pid, from, fwd, to)
    || ManagerPair(pid, from, fwd, to)
    || ScalePair(pid, from, fwd, to)
  }

  predicate PairFine(pid: string, from: string, fwd: EdgeKind, to: string) {
    EdgeFine(pid, from, Edge(fwd, to, "")) && EdgeFine(pid, to, Edge(fwd.Reverse(), from, ""))
  }

  lemma PodStandsForItself(id: string)
    ensures KindOf(id) == POD ==> PodOf(id) == id
  {
  }

  lemma PodPairForward(pid: string, from: string, fwd: EdgeKind, to: string)
    requires PodPair(pid, from, fwd, to) && Free(from, '\0') && Free(to, '\0')
    ensures EdgeFine(pid, from, Edge(fwd, to, ""))
  {
    PodStandsForItself(to);
  }

  lemma PodPairBackward(pid: string, from: string, fwd: EdgeKind, to: string)
    requires PodPair(pid, from, fwd, to) && Free(from, '\0') && Free(to, '\0')
    ensures EdgeFine(pid, to, Edge(fwd.Reverse(), from, ""))
  {
    PodStandsForItself(to);
  }

  lemma PodPairFine(pid: string, from: string, fwd: EdgeKind, to: string)
    requires PodPair(pid, from, fwd, to) && Free(from, '\0') && Free(to, '\0')
    ensures PairFine(pid, from, fwd, to)
  {
    PodPairForward(pid, from, fwd, to);
    PodPairBackward(pid, from, fwd, to);
  }

  lemma ContainerPairFine(pid: string, from: string, fwd: EdgeKind, to: string)
    requires ContainerPair(pid, from, fwd, to) && Free(from, '\0') && Free(to, '\0')
    ensures PairFine(pid, from, fwd, to)
  {
    PodStandsForItself(from);
  }

  lemma TopologyPairFine(pid: string, from: string, fwd: EdgeKind, to: string)
    requires TopologyPair(pid, from, fwd, to) && Free(from, '\0') && Free(to, '\0')
    ensures PairFine(pid, from, fwd, to)
  {
  }

  lemma ManagerPairForward(pid: string, from: string, fwd: EdgeKind, to: string)
    requires ManagerPair(pid, from, fwd, to) && Free(from, '\0') && Free(to, '\0')
    ensures EdgeFine(pid, from, Edge(fwd, to, ""))
  {
  }

  lemma ManagerPairBackward(pid: string, from: string, fwd: EdgeKind, to: string)
    requires ManagerPair(pid, from, fwd, to) && Free(from, '\0') && Free(to, '\0')
    ensures EdgeFine(pid, to, Edge(fwd.Reverse(), from, ""))
  {
  }

  lemma ManagerPairFine(pid: string, from: string, fwd: EdgeKind, to: string)
    requires ManagerPair(pid, from, fwd, to) && Free(from, '\0') && Free(to, '\0')
    ensures PairFine(pid, from, fwd, to)
  {
    ManagerPairForward(pid, from, fwd, to);
    ManagerPairBackward(pid, from, fwd, to);
  }

  lemma ScalePairForward(pid: string, from: string, fwd: EdgeKind, to: string)
    requires ScalePair(pid, from, fwd, to) && Free(from, '\0') && Free(to, '\0')
    ensures EdgeFine(pid, from, Edge(fwd, to, ""))
  {
  }

  lemma ScalePairBackward(pid: string, from: string, fwd: EdgeKind, to: string)
    requires ScalePair(pid, from, fwd, to) && Free(from, '\0') && Free(to, '\0')
    ensures EdgeFine(pid, to, Edge(fwd.Reverse(), from, ""))
  {
  }

  lemma ScalePairFine(pid: string, from: string, fwd: EdgeKind, to: string)
    requires ScalePair(pid, from, fwd, to) && Free(from, '\0') && Free(to, '\0')
    ensures PairFine(pid, from, fwd, to)
  {
    ScalePairForward(pid, from, fwd, to);
    ScalePairBackward(pid, from, fwd, to);
  }

  lemma KnownPairFine(pid: string, from: string, fwd: EdgeKind, to: string)
    requires KnownPair(pid, from, fwd, to) && Free(from, '\0') && Free(to, '\0')
    ensures PairFine(pid, from, fwd, to)
  {
    if PodPair(pid, from, fwd, to) {
      PodPairFine(pid, from, fwd, to);
    } else if ContainerPair(pid, from, fwd, to) {
      ContainerPairFine(pid, from, fwd, to);
    } else if TopologyPair(pid, from, fwd, to) {
      TopologyPairFine(pid, from, fwd, to);
    } else if ManagerPair(pid, from, fwd, to) {
      ManagerPairFine(pid, from, fwd, to);
    } else {
      ScalePairFine(pid, from, fwd, to);
    }
  }

  /** An entity of kind `kind` other than a pod or container, or the object's own. */
  lemma PlainEntityFine(pid: string, id: string, kind: string, name: string, md: map<string, string>)
    requires KindOf(id) == kind && ShortName(id) == name
    requires SharedKind(kind) || (kind == POD && id == pid)
    requires md == map[] || id == pid
    ensures EntityFine(pid, DesiredEntity(id, kind, name, md))
  {
    PodStandsForItself(id);
    if SharedKind(kind) {
      SharedKindsApart(kind);
    }
  }

  lemma SharedKindsApart(kind: string)
    requires SharedKind(kind)
    ensures kind != POD && kind != CONTAINER && kind != ENDPOINT && kind != TOPIC && kind != DATABASE
  {
  }

  lemma EmptyBelongs(pid: string)
    ensures Belongs(pid, Desired([], []))
  {
  }

  /** Adds an entity and the pair that links it to the object. */
  lemma NeighbourBelongs(pid: string, d: Desired, id: string, kind: string, name: string, from: string, fwd: EdgeKind,
                         to: string)
    requires Belongs(pid, d) && KindOf(id) == kind && ShortName(id) == name
    requires SharedKind(kind)
    requires KnownPair(pid, from, fwd, to) && Free(from, '\0') && Free(to, '\0')
    requires (IsEmitter(from) ==> HasEntity(d, from)) && (IsEmitter(to) ==> HasEntity(d, to))
    ensures Belongs(pid, WithPair(WithEntity(d, id, kind, name, map[]), from, fwd, to))
    ensures forall x | HasEntity(d, x) :: HasEntity(WithPair(WithEntity(d, id, kind, name, map[]), from, fwd, to), x)
  {
    PlainEntityFine(pid, id, kind, name, map[]);
    EntityBelongs(pid, d, id, kind, name, map[]);
    KnownPairFine(pid, from, fwd, to);
    var d' := WithEntity(d, id, kind, name, map[]);
    PairBelongs(pid, d', from, fwd, to);
    PairKeepsEntities(d', from, fwd, to);
  }

  lemma PairKeepsEntities(d: Desired, from: string, fwd: EdgeKind, to: string)
    ensures forall x :: HasEntity(WithPair(d, from, fwd, to), x) <==> HasEntity(d, x)
  {
  }

  lemma {:induction false} ContainersBelong(d: Desired, ns: string, pod: string, containers: seq<Container>)
    requires Belongs(PodId(ns, pod), d) && HasEntity(d, PodId(ns, pod))
    requires Clean(ns) && Clean(pod) && forall c | c in containers :: Clean(c.name)
    ensures Belongs(PodId(ns, pod), WithContainers(d, ns, pod, containers))
    ensures HasEntity(WithContainers(d, ns, pod, containers), PodId(ns, pod))
  {
    if containers != [] {
      var init, c := containers[..|containers| - 1], containers[|containers| - 1];
      ContainersBelong(d, ns, pod, init);
      assert c in containers;
      ContainerBelongs(WithContainers(d, ns, pod, init), ns, pod, c);
    }
  }

  lemma ContainerBelongs(d: Desired, ns: string, pod: string, c: Container)
    requires Belongs(PodId(ns, pod), d) && HasEntity(d, PodId(ns, pod))
    requires Clean(ns) && Clean(pod) && Clean(c.name)
    ensures var id := ContainerId(ns, pod, c.name);
            var d' := WithPair(WithEntity(d, id, CONTAINER, c.name, map["container.image.name" := c.image]),
                               PodId(ns, pod), Contains, id);
            Belongs(PodId(ns, pod), d') && HasEntity(d', PodId(ns, pod))
  {
    var id, md := ContainerId(ns, pod, c.name), map["container.image.name" := c.image];
    var pid := PodId(ns, pod);
    Read3(ns, pod, c.name);
    KindsArePlain(POD);
    Read2(POD, ns, pod);
    EntityBelongs(pid, d, id, CONTAINER, c.name, md);
    var d1 := WithEntity(d, id, CONTAINER, c.name, md);
    KnownPairFine(pid, pid, Contains, id);
    PairBelongs(pid, d1, pid, Contains, id);
    PairKeepsEntities(d1, pid, Contains, id);
  }

  lemma PodInNamespaceBelongs(o: Object)
    requires o.Pod? && ValidObject(o)
    ensures Belongs(PodId(o.ns, o.name), PodInNamespace(o)) && HasEntity(PodInNamespace(o), PodId(o.ns, o.name))
  {
    var id, n := PodId(o.ns, o.name), Id1(NAMESPACE, o.ns);
    KindsArePlain(POD);
    Read2(POD, o.ns, o.name);
    EmptyBelongs(id);
    PlainEntityFine(id, id, POD, o.name, o.md);
    EntityBelongs(id, Desired([], []), id, POD, o.name, o.md);
    KindsArePlain(NAMESPACE);
    Read1(NAMESPACE, o.ns);
    NeighbourBelongs(id, WithEntity(Desired([], []), id, POD, o.name, o.md), n, NAMESPACE, o.ns, n, Contains, id);
  }

  lemma NodeOfBelongs(d: Desired, o: Object)
    requires o.Pod? && ValidObject(o) && Belongs(PodId(o.ns, o.name), d) && HasEntity(d, PodId(o.ns, o.name))
    ensures Belongs(PodId(o.ns, o.name), WithNodeOf(d, o)) && HasEntity(WithNodeOf(d, o), PodId(o.ns, o.name))
  {
    if o.node != "" {
      var id, nodeId := PodId(o.ns, o.name), Id1(NODE, o.node);
      KindsArePlain(POD);
      Read2(POD, o.ns, o.name);
      KindsArePlain(NODE);
      Read1(NODE, o.node);
      NeighbourBelongs(id, d, nodeId, NODE, o.node, nodeId, Contains, id);
    }
  }

  lemma OwnerPair(ns: string, pod: string, owner: Owner)
    requires Clean(ns) && ValidOwner(ns, owner) && owner != NOBODY && KindOf(pod) == POD
    ensures KindOf(owner.id) == owner.kind && ShortName(owner.id) == owner.name && Free(owner.id, '\0')
    ensures PodPair(pod, owner.id, Manages, pod) && !IsEmitter(owner.id)
    ensures SharedKind(owner.kind)
  {
    KindsArePlain(owner.kind);
    Read2(owner.kind, ns, owner.name);
  }

  lemma OwnerBelongs(d: Desired, o: Object, owner: Owner)
    requires o.Pod? && ValidObject(o) && ValidOwner(o.ns, owner)
    requires Belongs(PodId(o.ns, o.name), d) && HasEntity(d, PodId(o.ns, o.name))
    ensures Belongs(PodId(o.ns, o.name), WithOwner(d, o, owner)) &&
            HasEntity(WithOwner(d, o, owner), PodId(o.ns, o.name))
  {
    if owner.id != "" {
      var id := PodId(o.ns, o.name);
      KindsArePlain(POD);
      Read2(POD, o.ns, o.name);
      OwnerPair(o.ns, id, owner);
      NeighbourBelongs(id, d, owner.id, owner.kind, owner.name, owner.id, Manages, id);
    }
  }

  lemma PodBelongs(o: Object, owner: Owner)
    requires o.Pod? && ValidObject(o) && ValidOwner(o.ns, owner)
    ensures Belongs(PodId(o.ns, o.name), MapPod(o, owner)) && HasEntity(MapPod(o, owner), PodId(o.ns, o.name))
  {
    PodInNamespaceBelongs(o);
    NodeOfBelongs(PodInNamespace(o), o);
    OwnerBelongs(WithNodeOf(PodInNamespace(o), o), o, owner);
    ContainersBelong(WithOwner(WithNodeOf(PodInNamespace(o), o), o, owner), o.ns, o.name, o.containers);
  }

  lemma OwnEntityBelongs(pid: string, kind: string, name: string, md: map<string, string>)
    requires KindOf(pid) == kind && ShortName(pid) == name
    requires kind in {NAMESPACE, NODE, DEPLOYMENT, STATEFULSET, DAEMONSET, JOB, CRONJOB, ROLLOUT, HPA, SCALEDOBJECT}
    ensures Belongs(pid, WithEntity(Desired([], []), pid, kind, name, md))
    ensures HasEntity(WithEntity(Desired([], []), pid, kind, name, md), pid)
  {
    EmptyBelongs(pid);
    PlainEntityFine(pid, pid, kind, name, md);
    EntityBelongs(pid, Desired([], []), pid, kind, name, md);
  }

  lemma NodeBelongs(o: Object)
    requires o.Node? && ValidObject(o)
    ensures Belongs(PrimaryId(o), MapNode(o)) && HasEntity(MapNode(o), PrimaryId(o))
  {
    var id := PrimaryId(o);
    var zone, region := TopologyLabel(o.labels, "zone"), TopologyLabel(o.labels, "region");
    KindsArePlain(NODE);
    Read1(NODE, o.name);
    OwnEntityBelongs(id, NODE, o.name, o.md);
    var d1 := WithEntity(Desired([], []), id, NODE, o.name, o.md);
    if zone != "" {
      var z, r := Id1(ZONE, zone), Id1(REGION, region);
      KindsArePlain(ZONE);
      Read1(ZONE, zone);
      NeighbourBelongs(id, d1, z, ZONE, zone, z, Contains, id);
      var d2 := WithPair(WithEntity(d1, z, ZONE, zone, map[]), z, Contains, id);
      if region != "" {
        KindsArePlain(REGION);
        Read1(REGION, region);
        NeighbourBelongs(id, d2, r, REGION, region, r, Contains, z);
      }
    }
  }

  lemma {:induction false} FirstRefClean(refs: seq<OwnerRef>, kind: string)
    requires CleanRefs(refs)
    ensures Clean(FirstRef(refs, kind))
  {
    if refs != [] {
      assert refs[0] in refs;
      assert CleanRefs(refs[1..]);
      FirstRefClean(refs[1..], kind);
    }
  }

  lemma JobBelongs(o: Object)
    requires o.Job? && ValidObject(o)
    ensures Belongs(PrimaryId(o), MapJob(o)) && HasEntity(MapJob(o), PrimaryId(o))
  {
    var id := PrimaryId(o);
    KindsArePlain(JOB);
    Read2(JOB, o.ns, o.name);
    OwnEntityBelongs(id, JOB, o.name, o.md);
    var owner := FirstRef(o.refs, "CronJob");
    var c := Id2(CRONJOB, o.ns, owner);
    FirstRefClean(o.refs, "CronJob");
    KindsArePlain(CRONJOB);
    Read2(CRONJOB, o.ns, owner);
    NeighbourBelongs(id, WithEntity(Desired([], []), id, JOB, o.name, o.md), c, CRONJOB, owner, c, Manages, id);
  }

  lemma TargetBelongs(d: Desired, id: string, ns: string, kind: string, name: string)
    requires Belongs(id, d) && HasEntity(d, id) && KindOf(id) in {HPA, SCALEDOBJECT} && Free(id, '\0')
    requires Clean(ns) && Clean(name)
    ensures Belongs(id, WithTarget(d, id, ns, kind, name)) && HasEntity(WithTarget(d, id, ns, kind, name), id)
  {
    var k := TargetKind(kind);
    if k != "" {
      KindsArePlain(k);
      Read2(k, ns, name);
      NeighbourBelongs(id, d, Id2(k, ns, name), k, name, id, Scales, Id2(k, ns, name));
    }
  }

  lemma HpaBelongs(o: Object)
    requires o.Hpa? && ValidObject(o)
    ensures Belongs(PrimaryId(o), MapHpa(o)) && HasEntity(MapHpa(o), PrimaryId(o))
  {
    var id := PrimaryId(o);
    KindsArePlain(HPA);
    Read2(HPA, o.ns, o.name);
    OwnEntityBelongs(id, HPA, o.name, o.md);
    var d0 := WithEntity(Desired([], []), id, HPA, o.name, o.md);
    TargetBelongs(d0, id, o.ns, o.targetKind, o.targetName);
    var owner := FirstRef(o.refs, "ScaledObject");
    var so := Id2(SCALEDOBJECT, o.ns, owner);
    FirstRefClean(o.refs, "ScaledObject");
    KindsArePlain(SCALEDOBJECT);
    Read2(SCALEDOBJECT, o.ns, owner);
    NeighbourBelongs(id, WithTarget(d0, id, o.ns, o.targetKind, o.targetName), so, SCALEDOBJECT, owner, so, Manages,
                     id);
  }

  lemma ScaledObjectBelongs(o: Object)
    requires o.ScaledObject? && ValidObject(o)
    ensures Belongs(PrimaryId(o), MapScaledObject(o)) && HasEntity(MapScaledObject(o), PrimaryId(o))
  {
    var id := PrimaryId(o);
    KindsArePlain(SCALEDOBJECT);
    Read2(SCALEDOBJECT, o.ns, o.name);
    OwnEntityBelongs(id, SCALEDOBJECT, o.name, o.md);
    var d0 := WithEntity(Desired([], []), id, SCALEDOBJECT, o.name, o.md);
    TargetBelongs(d0, id, o.ns, if o.targetKind == "" then "Deployment" else o.targetKind, o.targetName);
  }

  /** Whatever the object: all it implies is its own, up to the shared region-zone pair. */
  lemma DesireBelongs(o: Object, owner: Owner)
    requires ValidObject(o) && (o.Pod? ==> ValidOwner(o.ns, owner))
    ensures Belongs(PrimaryId(o), Desire(o, owner)) && HasEntity(Desire(o, owner), PrimaryId(o))
  {
    if o.Pod? {
      PodBelongs(o, owner);
    } else if o.Node? {
      NodeBelongs(o);
    } else if o.Job? {
      JobBelongs(o);
    } else if o.Hpa? {
      HpaBelongs(o);
    } else if o.ScaledObject? {
      ScaledObjectBelongs(o);
    } else {
      KindsArePlain(KindOfObject(o));
      if o.Namespace? {
        Read1(NAMESPACE, o.name);
      } else {
        Read2(KindOfObject(o), o.ns, o.name);
      }
      OwnEntityBelongs(PrimaryId(o), KindOfObject(o), o.name, o.md);
    }
  }

  lemma {:induction false} SetOwnerValid(ns: string, refs: seq<OwnerRef>)
    requires CleanRefs(refs)
    ensures ValidOwner(ns, ReplicaSetOwner(ns, refs))
  {
    if refs != [] {
      assert refs[0] in refs;
      assert CleanRefs(refs[1..]);
      SetOwnerValid(ns, refs[1..]);
    }
  }

  lemma {:induction false} ResolvedOwnerValid(ns: string, refs: seq<OwnerRef>, sets: Lister)
    requires CleanRefs(refs) && ValidLister(sets)
    ensures ValidOwner(ns, OwnerFor(ns, refs, sets))
  {
    if refs != [] {
      assert refs[0] in refs;
      assert CleanRefs(refs[1..]);
      ResolvedOwnerValid(ns, refs[1..], sets);
      if (ns, refs[0].name) in sets {
        SetOwnerValid(ns, sets[(ns, refs[0].name)]);
      }
    }
  }

  lemma Id2Injective(kind: string, ns: string, name: string, ns': string, name': string)
    requires Id2(kind, ns, name) == Id2(kind, ns', name') && Free(ns, '/') && Free(ns', '/')
    ensures ns == ns' && name == name'
  {
    var x, y := ns + "/" + name, ns' + "/" + name';
    assert (kind + ":" + x)[|kind| + 1..] == x && (kind + ":" + y)[|kind| + 1..] == y;
    IndexOfAt(ns, '/', name);
    IndexOfAt(ns', '/', name');
    assert ns + ['/'] + name == x && ns' + ['/'] + name' == y;
    assert ns == x[..|ns|] && ns' == y[..|ns'|];
    assert name == x[|ns| + 1..] && name' == y[|ns'| + 1..];
  }

  lemma OwnerIsNoEmitter(ns: string, owner: Owner)
    requires ValidOwner(ns, owner)
    ensures !IsEmitter(owner.id)
  {
    if owner != NOBODY {
      KindsArePlain(owner.kind);
      KindOfPrefixed(owner.kind, ns + "/" + owner.name);
    }
  }

  /** Different objects have different primary IDs. */
  lemma PrimaryIdInjective(o: Object, p: Object)
    requires ValidObject(o) && ValidObject(p) && PrimaryId(o) == PrimaryId(p)
    ensures KindOfObject(o) == KindOfObject(p) && o.name == p.name
    ensures !o.Node? && !o.Namespace? && !p.Node? && !p.Namespace? ==> o.ns == p.ns
  {
    PrimaryParts(o);
    PrimaryParts(p);
    if !o.Node? && !o.Namespace? && !p.Node? && !p.Namespace? {
      Id2Injective(KindOfObject(o), o.ns, o.name, p.ns, p.name);
    }
  }

  lemma PrimaryParts(o: Object)
    requires ValidObject(o)
    ensures KindOf(PrimaryId(o)) == KindOfObject(o) && ShortName(PrimaryId(o)) == o.name
    ensures !o.Node? && !o.Namespace? ==> PrimaryId(o) == Id2(KindOfObject(o), o.ns, o.name)
  {
    KindsArePlain(KindOfObject(o));
    if o.Node? || o.Namespace? {
      Read1(KindOfObject(o), o.name);
    } else {
      Read2(KindOfObject(o), o.ns, o.name);
    }
  }
}
