/** Which Kubernetes object each structural entity and edge belongs to. With names free of
    slashes, an edge is implied by one object only, the region-zone pair excepted. */
module Ownership {
  import opened Strings
  import opened Graph
  import opened Mapper

  /** Object and label names, as Kubernetes admits them: no '/' and no NUL. */
  predicate Clean(s: string) {
    Free(s, '/') && Free(s, '\0')
  }

  predicate CleanRefs(refs: seq<OwnerRef>) {
    forall r | r in refs :: Clean(r.name)
  }

  predicate ValidObject(o: Object) {
    && Clean(o.name)
    && (o.Node? || o.Namespace? || Clean(o.ns))
    && (o.Pod? ==> Clean(o.node) && CleanRefs(o.refs) && forall c | c in o.containers :: Clean(c.name))
    && (o.Node? ==> Clean(TopologyLabel(o.labels, "zone")) && Clean(TopologyLabel(o.labels, "region")))
    && (o.Job? || o.Hpa? ==> CleanRefs(o.refs))
    && (o.Hpa? || o.ScaledObject? ==> Clean(o.targetName))
  }

  predicate ValidLister(sets: Lister) {
    forall k | k in sets :: CleanRefs(sets[k])
  }

  /** An owner is nobody or one of the workload kinds that manage pods. */
  predicate ValidOwner(ns: string, owner: Owner) {
    owner == NOBODY ||
    (Clean(owner.name) && owner.id == Id2(owner.kind, ns, owner.name) &&
     owner.kind in {DEPLOYMENT, ROLLOUT, STATEFULSET, DAEMONSET, JOB})
  }

  // ----- reading IDs back

  /** The display name in an ID: what follows the last '/', or else the first ':'. */
  function ShortName(id: string): string {
    var i := LastIndexOf(id, '/');
    if i >= 0 then id[i + 1..]
    else
      var j := IndexOf(id, ':');
      if j >= 0 then id[j + 1..] else id
  }

  /** The pod of a container ID; a pod itself otherwise. */
  function PodOf(id: string): string {
    var i := LastIndexOf(id, '/');
    if KindOf(id) == CONTAINER && |CONTAINER| <= i then POD + id[|CONTAINER|..i] else id
  }

  predicate PlainKind(kind: string) {
    Free(kind, ':') && Free(kind, '/') && Free(kind, '\0')
  }

  /** Kinds of entities that several objects may bring along. */
  predicate SharedKind(kind: string) {
    kind in {NAMESPACE, NODE, ZONE, REGION, DEPLOYMENT, STATEFULSET, DAEMONSET, JOB, CRONJOB, ROLLOUT, HPA,
             SCALEDOBJECT}
  }

  lemma KindsArePlain(kind: string)
    requires SharedKind(kind) || kind == POD || kind == CONTAINER
    ensures PlainKind(kind)
  {
  }

  lemma Read1(kind: string, name: string)
    requires PlainKind(kind) && Clean(name)
    ensures KindOf(Id1(kind, name)) == kind && ShortName(Id1(kind, name)) == name
    ensures Free(Id1(kind, name), '\0')
  {
    KindOfPrefixed(kind, name);
    IndexOfAt(kind, ':', name);
    assert kind + [':'] + name == Id1(kind, name);
    assert Free(Id1(kind, name), '/');
    assert Id1(kind, name)[|kind| + 1..] == name;
  }

  lemma Read2(kind: string, ns: string, name: string)
    requires PlainKind(kind) && Clean(ns) && Clean(name)
    ensures KindOf(Id2(kind, ns, name)) == kind && ShortName(Id2(kind, ns, name)) == name
    ensures Free(Id2(kind, ns, name), '\0')
  {
    KindOfPrefixed(kind, ns + "/" + name);
    LastCut(kind + ":" + ns, name);
    assert Id2(kind, ns, name) == kind + ":" + ns + "/" + name;
  }

  lemma Middle(a: string, b: string, c: string)
    ensures (a + b + c)[|a|..|a| + |b|] == b
  {
  }

  lemma LastCut(stem: string, name: string)
    requires Free(name, '/')
    ensures LastIndexOf(stem + "/" + name, '/') == |stem|
    ensures (stem + "/" + name)[|stem| + 1..] == name
  {
    LastIndexOfAt(stem, '/', name);
    assert stem + ['/'] + name == stem + "/" + name;
  }

  lemma ContainerPod(ns: string, pod: string, name: string)
    requires Free(name, '/')
    ensures KindOf(ContainerId(ns, pod, name)) == CONTAINER && ShortName(ContainerId(ns, pod, name)) == name
    ensures PodOf(ContainerId(ns, pod, name)) == PodId(ns, pod)
  {
    var middle := ":" + (ns + "/" + pod);
    KindOfPrefixed(CONTAINER, ns + "/" + pod + "/" + name);
    ContainerShape(ns + "/" + pod, name);
    LastCut(CONTAINER + middle, name);
    Middle(CONTAINER, middle, "/" + name);
    Chained(POD, ":", ns + "/" + pod);
  }

  lemma ContainerShape(stem: string, name: string)
    ensures CONTAINER + ":" + (stem + "/" + name) == (CONTAINER + (":" + stem)) + "/" + name
    ensures CONTAINER + ":" + (stem + "/" + name) == CONTAINER + (":" + stem) + ("/" + name)
  {
  }

  lemma Chained(a: string, b: string, c: string)
    ensures a + b + c == a + (b + c)
  {
  }

  lemma Read3(ns: string, pod: string, name: string)
    requires Clean(ns) && Clean(pod) && Clean(name)
    ensures KindOf(ContainerId(ns, pod, name)) == CONTAINER && ShortName(ContainerId(ns, pod, name)) == name
    ensures PodOf(ContainerId(ns, pod, name)) == PodId(ns, pod)
    ensures Free(ContainerId(ns, pod, name), '\0')
  {
    ContainerPod(ns, pod, name);
    FreeJoin(ns, pod, '\0');
    FreeJoin(ns + "/" + pod, name, '\0');
    KindsArePlain(CONTAINER);
  }

  lemma FreeJoin(a: string, b: string, c: char)
    requires Free(a, c) && Free(b, c) && c != '/'
    ensures Free(a + "/" + b, c)
  {
  }

  // ----- ownership of edges

  /** The one kind of edge that several objects imply: every node of a zone implies the pair
      between the zone and its region. */
  predicate SharedEdge(from: string, e: Edge) {
    (KindOf(from) == ZONE && KindOf(e.to) == REGION) || (KindOf(from) == REGION && KindOf(e.to) == ZONE)
  }

  /** The ID of the object that maintains a structural edge, read off its ends. */
  function EdgeOwner(from: string, e: Edge): string {
    var f, t := KindOf(from), KindOf(e.to);
    if f == CONTAINER then e.to
    else if t == CONTAINER then from
    else if f == POD then from
    else if t == POD then e.to
    else if f == NODE then from
    else if t == NODE then e.to
    else if f == CRONJOB then e.to
    else if t == CRONJOB then from
    else if e.kind == Scales then from
    else if e.kind == ScaledBy then e.to
    else if f == HPA then from
    else e.to
  }

  predicate EntityFine(pid: string, ent: DesiredEntity) {
    && ent.kind == KindOf(ent.id) && ent.name == ShortName(ent.id)
    && !IsRelation(ent.id)
    && (IsEmitter(ent.id) ==> PodOf(ent.id) == pid)
    && (ent.md != map[] ==> ent.id == pid || KindOf(ent.id) == CONTAINER)
  }

  predicate EdgeFine(pid: string, from: string, e: Edge) {
    && e.kind.Structural() && e.action == "" && !IsRelation(from)
    && (if SharedEdge(from, e) then KindOf(pid) == NODE else EdgeOwner(from, e) == pid)
    && (IsEmitter(from) ==> PodOf(from) == pid)
    && Free(from, '\0') && Free(e.to, '\0')
  }

  predicate HasEntity(d: Desired, id: string) {
    exists ent :: ent in d.entities && ent.id == id
  }

  predicate HasEdge(d: Desired, from: string, e: Edge) {
    DesiredEdge(from, e) in d.edges
  }

  /** Everything in `d` belongs to the object `pid`, and edges stored on pods and containers
      come with the entity they are stored on. */
  ghost predicate Belongs(pid: string, d: Desired) {
    && (forall ent | ent in d.entities :: EntityFine(pid, ent))
    && (forall ed | ed in d.edges :: EdgeFine(pid, ed.from, ed.edge))
    && (forall ed | ed in d.edges :: IsEmitter(ed.from) ==> HasEntity(d, ed.from))
  }

  lemma EntityBelongs(pid: string, d: Desired, id: string, kind: string, name: string, md: map<string, string>)
    requires Belongs(pid, d) && EntityFine(pid, DesiredEntity(id, kind, name, md))
    ensures Belongs(pid, WithEntity(d, id, kind, name, md)) && HasEntity(WithEntity(d, id, kind, name, md), id)
    ensures forall x | HasEntity(d, x) :: HasEntity(WithEntity(d, id, kind, name, md), x)
  {
    var d' := WithEntity(d, id, kind, name, md);
    assert DesiredEntity(id, kind, name, md) in d'.entities;
    forall x | HasEntity(d, x) ensures HasEntity(d', x) {
      var ent :| ent in d.entities && ent.id == x;
      assert ent in d'.entities;
    }
  }

  lemma PairBelongs(pid: string, d: Desired, from: string, fwd: EdgeKind, to: string)
    requires Belongs(pid, d)
    requires EdgeFine(pid, from, Edge(fwd, to, "")) && EdgeFine(pid, to, Edge(fwd.Reverse(), from, ""))
    requires (IsEmitter(from) ==> HasEntity(d, from)) && (IsEmitter(to) ==> HasEntity(d, to))
    ensures Belongs(pid, WithPair(d, from, fwd, to))
  {
    var d' := WithPair(d, from, fwd, to);
    forall ed | ed in d'.edges
      ensures EdgeFine(pid, ed.from, ed.edge) && (IsEmitter(ed.from) ==> HasEntity(d', ed.from))
    {
      if ed in d.edges && IsEmitter(ed.from) {
        assert HasEntity(d, ed.from);
      }
    }
  }
}
