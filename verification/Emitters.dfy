/** The emitter that deriving hangs relationship edges on is the pod or container that the watcher
    stores, under the watcher's ID. */
module Emitters {
  import opened Graph
  import opened GraphStore
  import opened Builder
  import opened Mapper
  import opened Implications
  import opened Ownership
  import opened EventEffects
  import opened WatcherRuns
  import opened Interleaving
  import opened SystemRuns

  /** The attribute has this value; an absent one counts as empty. */
  predicate Reads(m: map<string, string>, k: string, v: string) {
    if k in m then m[k] == v else v == ""
  }

  predicate EmittedBy(r: Record, ns: string, pod: string, container: string) {
    && Reads(r.attrs, "k8s.namespace.name", ns)
    && Reads(r.attrs, "k8s.pod.name", pod)
    && Reads(r.attrs, "k8s.container.name", container)
  }

  /** In the watcher's IDs: the container, if the record names one, or else the pod; nobody exactly
      when the pod or the namespace is missing. */
  lemma EmitterIsWatchers(r: Record, ns: string, pod: string, container: string)
    requires EmittedBy(r, ns, pod, container)
    ensures Emitter(r) ==
            if pod == "" || ns == "" then ""
            else if container == "" then PodId(ns, pod)
            else ContainerId(ns, pod, container)
    ensures Emitter(r) == "" <==> pod == "" || ns == ""
  {
  }

  /** The record is about this pod, and about one of its containers if it names any. */
  ghost predicate FromPod(r: Record, o: Object) {
    && o.Pod? && o.ns != "" && o.name != ""
    && exists container :: EmittedBy(r, o.ns, o.name, container) && NoneOrOneOf(container, o.containers)
  }

  predicate NoneOrOneOf(container: string, containers: seq<Container>) {
    container == "" || exists c :: c in containers && c.name == container
  }

  /** Whatever its owner, the pod implies the emitter of the record. */
  lemma EmitterIsImplied(r: Record, o: Object, owner: Owner)
    requires FromPod(r, o)
    ensures HasEntity(MapPod(o, owner), Emitter(r)) && IsEmitter(Emitter(r))
  {
    var container :| EmittedBy(r, o.ns, o.name, container) && NoneOrOneOf(container, o.containers);
    EmitterIsWatchers(r, o.ns, o.name, container);
    PodEntities(o, owner, container);
    EmitterIdKinds(o.ns, o.name, container);
  }

  lemma PodEntities(o: Object, owner: Owner, container: string)
    requires o.Pod? && NoneOrOneOf(container, o.containers)
    ensures HasEntity(MapPod(o, owner), PodId(o.ns, o.name))
    ensures container != "" ==> HasEntity(MapPod(o, owner), ContainerId(o.ns, o.name, container))
  {
    var e := Edge(Contains, "", "");
    PodImplies(o, owner, "", e, PodId(o.ns, o.name));
    PodImplies(o, owner, "", e, ContainerId(o.ns, o.name, container));
  }

  lemma EmitterIdKinds(ns: string, pod: string, container: string)
    ensures IsEmitter(PodId(ns, pod)) && IsEmitter(ContainerId(ns, pod, container))
  {
    KindOfPrefixed(POD, ns + "/" + pod);
    KindOfPrefixed(CONTAINER, ns + "/" + pod + "/" + container);
  }

  /** With all writers at work, in any interleaving: as long as the pod is alive, the entity its
      records hang their edges on is stored, index included. */
  lemma EmitterOnServer(tr: Trace, evs: Deliveries, opss: Issuance, r: Record, o: Object, at: Atom)
    requires Interleaves(tr, evs, opss) && FromPod(r, o) && Presence(at, Emitter(r))
    requires PrimaryId(o) in LiveAfter(evs(POD)) && LiveAfter(evs(POD))[PrimaryId(o)].o == o
    ensures ActAll(All(tr), at, Absent) != Absent
  {
    assert OneInformer(tr, POD, evs(POD), opss(POD));
    LivesFine(evs(POD), opss(POD));
    var entry := LiveAfter(evs(POD))[PrimaryId(o)];
    EmitterIsImplied(r, o, entry.owner);
    EmitterBelongs(PrimaryId(o), entry.d, Emitter(r));
    SystemEmittersExact(tr, evs, opss, Emitter(r), at);
  }
}
