/** Relationship edges stored on pods and containers: both the flusher and the deletion of their
    carrier write them. When the order of the two matters, exactly, and what it costs. */
module AnchoredEdges {
  import opened Wrappers
  import opened Graph
  import opened GraphStore
  import opened Interleaving
  import opened BatchSet
  import opened DeltaFlush
  import opened Coherence
  import opened DeltaFacts
  import opened Flusher

  // ----- order

  /** The commands of everyone but the flusher, and those of the flusher, each in order. */
  function Part(tr: Trace, mine: bool): Trace {
    if tr == [] then []
    else
      var init, last := Part(tr[..|tr| - 1], mine), tr[|tr| - 1];
      if (last.0 == OTEL) == mine then init + [last] else init
  }

  lemma ProjectSnoc(tr: Trace, p: (string, Command), source: string)
    ensures Project(tr + [p], source) == if p.0 == source then Project(tr, source) + [p.1] else Project(tr, source)
  {
    assert (tr + [p])[..|tr|] == tr;
  }

  lemma AllSnoc(tr: Trace, p: (string, Command))
    ensures All(tr + [p]) == All(tr) + [p.1]
  {
    assert (tr + [p])[..|tr|] == tr;
  }

  lemma {:induction false} ProjectConcat(x: Trace, y: Trace, source: string)
    ensures Project(x + y, source) == Project(x, source) + Project(y, source)
  {
    if y == [] {
      assert x + y == x;
    } else {
      var init, last := y[..|y| - 1], y[|y| - 1];
      ProjectConcat(x, init, source);
      LastOff(x, y);
      ProjectSnoc(x + init, last, source);
      ProjectSnoc(init, last, source);
      if last.0 == source {
        Assoc(Project(x, source), Project(init, source), [last.1]);
      }
    }
  }

  lemma {:induction false} AllConcat(x: Trace, y: Trace)
    ensures All(x + y) == All(x) + All(y)
  {
    if y == [] {
      assert x + y == x;
    } else {
      var init, last := y[..|y| - 1], y[|y| - 1];
      AllConcat(x, init);
      LastOff(x, y);
      AllSnoc(x + init, last);
      AllSnoc(init, last);
      Assoc(All(x), All(init), [last.1]);
    }
  }

  lemma {:induction false} PartProjects(tr: Trace, mine: bool, source: string)
    ensures Project(Part(tr, mine), source) == if (source == OTEL) == mine then Project(tr, source) else []
  {
    if tr != [] {
      var init, last := tr[..|tr| - 1], tr[|tr| - 1];
      PartProjects(init, mine, source);
      ProjectSnoc(Part(init, mine), last, source);
    }
  }

  lemma {:induction false} MineIsProjection(tr: Trace)
    ensures All(Part(tr, true)) == Project(tr, OTEL)
  {
    if tr != [] {
      var init, last := tr[..|tr| - 1], tr[|tr| - 1];
      MineIsProjection(init);
      AllSnoc(Part(init, true), last);
    }
  }

  /** The flusher's commands all before, or all after, those of the others. */
  function Sorted(tr: Trace, flusherFirst: bool): Trace {
    Part(tr, flusherFirst) + Part(tr, !flusherFirst)
  }

  lemma SortedIsReordering(tr: Trace, flusherFirst: bool)
    ensures SameStreams(tr, Sorted(tr, flusherFirst))
  {
    forall source ensures Project(tr, source) == Project(Sorted(tr, flusherFirst), source) {
      ProjectConcat(Part(tr, flusherFirst), Part(tr, !flusherFirst), source);
      PartProjects(tr, flusherFirst, source);
      PartProjects(tr, !flusherFirst, source);
      NothingMore(Project(tr, source));
    }
  }

  lemma NothingMore(cs: seq<Command>)
    ensures cs + [] == cs == [] + cs
  {
  }

  lemma {:induction false} PartElements(tr: Trace, mine: bool)
    ensures forall p :: p in Part(tr, mine) <==> p in tr && (p.0 == OTEL) == mine
  {
    if tr != [] {
      PartElements(tr[..|tr| - 1], mine);
      assert tr == tr[..|tr| - 1] + [tr[|tr| - 1]];
    }
  }

  predicate Deletes(tr: Trace, id: string) {
    exists p :: p in tr && p.1 == DelEntity(id)
  }

  /** Others than the flusher touch such an edge by deleting its carrier only, and the flusher
      never deletes that. */
  lemma WhoTouches(source: string, c: Command, from: string, e: Edge)
    requires Permitted(source, c) && EdgeHome(from, e).Mixed? && Touches(c, EdgeMember(from, e))
    ensures c == DelEntity(from) <==> source != OTEL
    ensures source == OTEL ==> c == SAddEdge(from, e) || c == SRemEdge(from, e)
  {
    KindsApart(from);
  }

  /** Commands of the others leave the edge absent once they touch it. */
  lemma {:induction false} OthersDrop(tr: Trace, from: string, e: Edge, cell: Cell)
    requires AllPermitted(tr) && EdgeHome(from, e).Mixed? && forall p | p in tr :: p.0 != OTEL
    ensures ActAll(All(tr), EdgeMember(from, e), cell) == if Deletes(tr, from) then Absent else cell
  {
    if tr != [] {
      var init, last := tr[..|tr| - 1], tr[|tr| - 1];
      OthersDrop(init, from, e, cell);
      ActSnoc(All(init), last.1, EdgeMember(from, e), cell);
      DeletesSnoc(tr, from);
      assert last in tr;
      OtherCommand(last.0, last.1, from, e, ActAll(All(init), EdgeMember(from, e), cell));
    }
  }

  lemma DeletesSnoc(tr: Trace, id: string)
    requires tr != []
    ensures Deletes(tr, id) <==> Deletes(tr[..|tr| - 1], id) || tr[|tr| - 1].1 == DelEntity(id)
  {
    assert tr == tr[..|tr| - 1] + [tr[|tr| - 1]];
    assert tr[|tr| - 1] in tr;
  }

  lemma OtherCommand(source: string, c: Command, from: string, e: Edge, cell: Cell)
    requires Permitted(source, c) && EdgeHome(from, e).Mixed? && source != OTEL
    ensures Act(c, EdgeMember(from, e), cell) == if c == DelEntity(from) then Absent else cell
  {
    if Touches(c, EdgeMember(from, e)) {
      WhoTouches(source, c, from, e);
    }
  }

  /** The flusher's commands end in the same reading from anywhere, unless none touches it. */
  lemma {:induction false} FlusherDecides(cs: seq<Command>, from: string, e: Edge, cell: Cell)
    requires EdgeHome(from, e).Mixed? && forall c | c in cs :: Permitted(OTEL, c)
    ensures var a := EdgeMember(from, e);
            ActAll(cs, a, Absent) != Absent ==> ActAll(cs, a, Absent) == ActAll(cs, a, cell) == Member
  {
    if cs != [] {
      var init, last := cs[..|cs| - 1], cs[|cs| - 1];
      assert cs == init + [last] && last in cs;
      FlusherDecides(init, from, e, cell);
      if Touches(last, EdgeMember(from, e)) {
        WhoTouches(OTEL, last, from, e);
      }
    }
  }

  /** In any order the edge is stored at most if the flusher alone would have stored it. */
  lemma {:induction false} AtMostFlusher(tr: Trace, from: string, e: Edge)
    requires AllPermitted(tr) && EdgeHome(from, e).Mixed?
    ensures var a := EdgeMember(from, e);
            ActAll(All(tr), a, Absent) == Absent || ActAll(All(tr), a, Absent) == ActAll(Project(tr, OTEL), a, Absent)
  {
    if tr != [] {
      var init, last, a := tr[..|tr| - 1], tr[|tr| - 1], EdgeMember(from, e);
      assert tr == init + [last] && last in tr;
      AtMostFlusher(init, from, e);
      ActSnoc(All(init), last.1, a, Absent);
      ActSnoc(Project(init, OTEL), last.1, a, Absent);
      if Touches(last.1, a) {
        WhoTouches(last.0, last.1, from, e);
      }
    }
  }

  /** Every interleaving of the same streams leaves the edge alike. */
  ghost predicate OrderIrrelevant(tr: Trace, a: Atom) {
    forall tr' | SameStreams(tr, tr') :: ActAll(All(tr'), a, Absent) == ActAll(All(tr), a, Absent)
  }

  lemma ReorderedDeletes(tr: Trace, tr': Trace, id: string)
    requires SameStreams(tr, tr') && Deletes(tr', id)
    ensures Deletes(tr, id)
  {
    var p :| p in tr' && p.1 == DelEntity(id);
    Projected(tr', p.0, p.1);
    Projected(tr, p.0, p.1);
    assert (p.0, p.1) == p;
  }

  lemma SettledIsIrrelevant(tr: Trace, from: string, e: Edge)
    requires AllPermitted(tr) && EdgeHome(from, e).Mixed?
    requires !Deletes(tr, from) || ActAll(Project(tr, OTEL), EdgeMember(from, e), Absent) == Absent
    ensures OrderIrrelevant(tr, EdgeMember(from, e))
  {
    forall tr' | SameStreams(tr, tr')
      ensures ActAll(All(tr'), EdgeMember(from, e), Absent) == ActAll(All(tr), EdgeMember(from, e), Absent)
    {
      ReorderedPermitted(tr, tr');
      assert Project(tr, OTEL) == Project(tr', OTEL);
      if Deletes(tr, from) {
        AtMostFlusher(tr, from, e);
        AtMostFlusher(tr', from, e);
      } else {
        if Deletes(tr', from) {
          ReorderedDeletes(tr, tr', from);
        }
        MixedWithoutDeletion(tr, from, e, Absent);
        MixedWithoutDeletion(tr', from, e, Absent);
      }
    }
  }

  /** The two extreme orders: the edge survives if the flusher comes last, and goes with its
      carrier if the flusher comes first. */
  lemma ExtremeOrders(tr: Trace, from: string, e: Edge)
    requires AllPermitted(tr) && EdgeHome(from, e).Mixed? && Deletes(tr, from)
    requires ActAll(Project(tr, OTEL), EdgeMember(from, e), Absent) != Absent
    ensures ActAll(All(Sorted(tr, false)), EdgeMember(from, e), Absent) == Member
    ensures ActAll(All(Sorted(tr, true)), EdgeMember(from, e), Absent) == Absent
  {
    var a, mine, others := EdgeMember(from, e), Part(tr, true), Part(tr, false);
    PartElements(tr, true);
    PartElements(tr, false);
    MineIsProjection(tr);
    AllConcat(others, mine);
    AllConcat(mine, others);
    ActConcat(All(others), All(mine), a, Absent);
    ActConcat(All(mine), All(others), a, Absent);
    var p :| p in tr && p.1 == DelEntity(from);
    WhoTouches(p.0, p.1, from, e);
    assert p in others;
    OthersDrop(others, from, e, ActAll(All(mine), a, Absent));
    forall c | c in Project(tr, OTEL) ensures Permitted(OTEL, c) {
      Projected(tr, OTEL, c);
      assert Permitted((OTEL, c).0, (OTEL, c).1);
    }
    FlusherDecides(Project(tr, OTEL), from, e, ActAll(All(others), a, Absent));
  }

  /** For a relationship edge on a pod or container, every interleaving of the streams leaves it
      alike if and only if its carrier is never deleted or the flusher alone would not leave it
      stored. */
  lemma OrderIrrelevantIff(tr: Trace, from: string, e: Edge)
    requires AllPermitted(tr) && EdgeHome(from, e).Mixed?
    ensures OrderIrrelevant(tr, EdgeMember(from, e)) <==>
            !Deletes(tr, from) || ActAll(Project(tr, OTEL), EdgeMember(from, e), Absent) == Absent
  {
    if !Deletes(tr, from) || ActAll(Project(tr, OTEL), EdgeMember(from, e), Absent) == Absent {
      SettledIsIrrelevant(tr, from, e);
    } else {
      ExtremeOrders(tr, from, e);
      SortedIsReordering(tr, true);
      SortedIsReordering(tr, false);
    }
  }

  // ----- what a drop costs

  lemma KeptEdgeOp(p: Snap, f: Snap, now: int, op: Op, c: Command, from: string, e: Edge)
    requires DeltaOp(f, p, now, op) && c in Commands(op) && !RemovedId(f, p, from)
    requires Key(from, e) in p.edges && Key(from, e) in f.edges
    ensures !Touches(c, EdgeMember(from, e))
  {
  }

  /** No command of a delta, executed or lost, touches an edge that is in both snapshots. */
  lemma KeptEdgeUntouched(p: Snap, f: Snap, now: int, c: Command, from: string, e: Edge)
    requires Coherent(p) && Coherent(f) && FromDelta(f, p, now, c)
    requires Key(from, e) in p.edges && Key(from, e) in f.edges
    ensures !Touches(c, EdgeMember(from, e))
  {
    CarrierKept(p, f, from, e);
    var op :| DeltaOp(f, p, now, op) && c in Commands(op);
    KeptEdgeOp(p, f, now, op, c, from, e);
  }

  lemma CarrierKept(p: Snap, f: Snap, from: string, e: Edge)
    requires Coherent(p) && Coherent(f) && Key(from, e) in f.edges
    ensures !RemovedId(f, p, from)
  {
    if RemovedId(f, p, from) {
      RemovalErasesNoLiveEdge(p, f, from, Key(from, e));
    }
  }

  lemma KeptEdgePartial(p: Snap, f: Snap, now: int, before: Store, after: Store, from: string, e: Edge)
    requires Coherent(p) && Coherent(f) && PartialDelta(f, p, now, before, after)
    requires Key(from, e) in p.edges && Key(from, e) in f.edges
    ensures Look(after, EdgeMember(from, e)) == Look(before, EdgeMember(from, e))
  {
    var kept :| after == ApplyAll(kept, before) && forall c | c in kept :: FromDelta(f, p, now, c);
    forall c | c in kept ensures !Touches(c, EdgeMember(from, e)) {
      KeptEdgeUntouched(p, f, now, c, from, e);
    }
    LookApplyAll(kept, before, EdgeMember(from, e));
    ActUntouched(kept, EdgeMember(from, e), Look(before, EdgeMember(from, e)));
  }

  /** The step flushes, if anything, a snapshot that has the edge, as the last one had; nobody
      else stores the edge. */
  ghost predicate StillSeen(w: World, step: Step, from: string, e: Edge) {
    && (step.FlushOk? || step.FlushFailed? ==>
          w.flight.Some? && Key(from, e) in w.previous.edges && Key(from, e) in w.flight.value.snap.edges &&
          EdgeMember(from, e) !in w.stirred)
    && (step.Foreign? ==> Look(step.after, EdgeMember(from, e)) == Look(w.store, EdgeMember(from, e)))
  }

  ghost predicate AlwaysSeen(w: World, steps: seq<Step>, from: string, e: Edge) {
    steps == [] ||
    (AlwaysSeen(w, steps[..|steps| - 1], from, e) &&
     StillSeen(Run(w, steps[..|steps| - 1]), steps[|steps| - 1], from, e))
  }

  lemma FlushOkLeavesDropped(naming: Naming, w: World, after: Store, from: string, e: Edge)
    requires Good(naming, w) && Enabled(naming, w, FlushOk(after)) && StillSeen(w, FlushOk(after), from, e)
    ensures Look(after, EdgeMember(from, e)) == Look(w.store, EdgeMember(from, e))
  {
    CarrierKept(w.previous, w.flight.value.snap, from, e);
  }

  lemma FlushFailedLeavesDropped(naming: Naming, w: World, after: Store, from: string, e: Edge)
    requires Good(naming, w) && Enabled(naming, w, FlushFailed(after)) && StillSeen(w, FlushFailed(after), from, e)
    ensures Look(after, EdgeMember(from, e)) == Look(w.store, EdgeMember(from, e))
  {
    var snap, now := w.flight.value.snap, w.flight.value.now;
    var done :| PartialDelta(snap, w.previous, now, w.store, done) &&
                forall b | b !in w.stirred :: Look(after, b) == Look(done, b);
    KeptEdgePartial(w.previous, snap, now, w.store, done, from, e);
  }

  lemma StepLeavesDropped(naming: Naming, w: World, step: Step, from: string, e: Edge)
    requires Good(naming, w) && Enabled(naming, w, step) && StillSeen(w, step, from, e)
    ensures Look(Next(w, step).store, EdgeMember(from, e)) == Look(w.store, EdgeMember(from, e))
  {
    match step
    case FlushOk(after) => FlushOkLeavesDropped(naming, w, after, from, e);
    case FlushFailed(after) => FlushFailedLeavesDropped(naming, w, after, from, e);
    case _ =>
  }

  /** An edge dropped with its carrier stays away, through any number of flushes, complete or
      not, for as long as the relationship goes on being seen. */
  lemma {:induction false} DroppedStaysDropped(naming: Naming, w: World, steps: seq<Step>, from: string, e: Edge)
    requires Good(naming, w) && Possible(naming, w, steps) && AlwaysSeen(w, steps, from, e)
    ensures Good(naming, Run(w, steps))
    ensures Look(Run(w, steps).store, EdgeMember(from, e)) == Look(w.store, EdgeMember(from, e))
    decreases |steps|
  {
    if steps != [] {
      var init := steps[..|steps| - 1];
      DroppedStaysDropped(naming, w, init, from, e);
      StepIsGood(naming, Run(w, init), steps[|steps| - 1]);
      StepLeavesDropped(naming, Run(w, init), steps[|steps| - 1], from, e);
    }
  }
}
