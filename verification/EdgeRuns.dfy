/** Edges over whole histories: what the store holds of each at every moment, and when that is
    what the live objects imply. */
module EdgeRuns {
  import opened Graph
  import opened GraphStore
  import opened Mapper
  import opened Ownership
  import opened Desires
  import opened Watcher
  import opened EventEffects
  import opened WatcherRuns

  // ----- who implies an edge

  ghost predicate Implied(live: Live, from: string, e: Edge) {
    exists k :: k in live && HasEdge(live[k].d, from, e)
  }

  ghost predicate ImpliedElsewhere(live: Live, key: string, from: string, e: Edge) {
    exists k :: k in live && k != key && HasEdge(live[k].d, from, e)
  }

  /** The object loses an edge that another live object still implies. */
  ghost predicate Orphans(live: Live, ev: Event, from: string, e: Edge) {
    HasEdge(Believed(ev), from, e) && !HasEdge(Wanted(ev), from, e) && ImpliedElsewhere(live, Key(ev), from, e)
  }

  lemma HereOrElsewhere(live: Live, key: string, d: Desired, from: string, e: Edge)
    requires if key in live then live[key].d == d else d == NO_DESIRES
    ensures Implied(live, from, e) <==> HasEdge(d, from, e) || ImpliedElsewhere(live, key, from, e)
  {
  }

  lemma EdgeBelongs(pid: string, d: Desired, from: string, e: Edge)
    requires Belongs(pid, d) && HasEdge(d, from, e)
    ensures EdgeFine(pid, from, e)
  {
    var ed := DesiredEdge(from, e);
    assert ed in d.edges;
  }

  /** Nobody else implies an edge stored on a pod or container of this object. */
  lemma DroppedIsPrivate(live: Live, key: string, b: Desired, a: Desired, from: string, e: Edge)
    requires LiveFine(live) && Belongs(key, b) && Dropped(b, a, from)
    ensures !ImpliedElsewhere(live, key, from, e)
  {
    EmitterBelongs(key, b, from);
    forall k | k in live && k != key ensures !HasEdge(live[k].d, from, e) {
      if HasEdge(live[k].d, from, e) {
        EdgeBelongs(k, live[k].d, from, e);
      }
    }
  }

  /** A dropped pod or container carries no edge any more. */
  lemma DroppedCarriesNothing(key: string, b: Desired, a: Desired, from: string, e: Edge)
    requires Belongs(key, a) && Dropped(b, a, from)
    ensures !HasEdge(a, from, e)
  {
    var ed := DesiredEdge(from, e);
    assert ed in a.edges ==> HasEntity(a, ed.from);
  }

  function Shown(stored: bool): Cell {
    if stored then Member else Absent
  }

  /** Two objects never imply the same edge, the region-zone pair excepted. */
  lemma PrivateNotElsewhere(live: Live, key: string, d: Desired, from: string, e: Edge)
    requires LiveFine(live) && Belongs(key, d) && HasEdge(d, from, e) && !SharedEdge(from, e)
    ensures !ImpliedElsewhere(live, key, from, e)
  {
    EdgeBelongs(key, d, from, e);
    forall k | k in live && k != key ensures !HasEdge(live[k].d, from, e) {
      if HasEdge(live[k].d, from, e) {
        EdgeBelongs(k, live[k].d, from, e);
      }
    }
  }

  // ----- what the store holds at each moment

  ghost predicate Gains(ev: Event, from: string, e: Edge) {
    HasEdge(Wanted(ev), from, e) && !HasEdge(Believed(ev), from, e)
  }

  ghost predicate Loses(ev: Event, from: string, e: Edge) {
    Dropped(Believed(ev), Wanted(ev), from) || (HasEdge(Believed(ev), from, e) && !HasEdge(Wanted(ev), from, e))
  }

  /** Of the first `n` events, the last one that gained or lost the edge gained it. */
  ghost predicate GainedLast(evs: seq<Event>, n: nat, from: string, e: Edge)
    requires n <= |evs|
  {
    exists i :: 0 <= i < n && GainedAt(evs, i, n, from, e)
  }

  ghost predicate GainedAt(evs: seq<Event>, i: nat, n: nat, from: string, e: Edge)
    requires i < n <= |evs|
  {
    Gains(evs[i], from, e) && NoneLoses(evs[i + 1..n], from, e)
  }

  ghost predicate NoneLoses(evs: seq<Event>, from: string, e: Edge) {
    forall ev | ev in evs :: !Loses(ev, from, e)
  }

  lemma NoneLosesSnoc(evs: seq<Event>, ev: Event, from: string, e: Edge)
    ensures NoneLoses(evs + [ev], from, e) <==> NoneLoses(evs, from, e) && !Loses(ev, from, e)
  {
  }

  lemma GainedNow(evs: seq<Event>, n: nat, m: nat, from: string, e: Edge)
    requires n < |evs| && m == n + 1
    ensures GainedAt(evs, n, m, from, e) <==> Gains(evs[n], from, e)
  {
    assert evs[n + 1..m] == [];
  }

  lemma GainedBefore(evs: seq<Event>, i: nat, n: nat, m: nat, from: string, e: Edge)
    requires i < n < |evs| && m == n + 1
    ensures GainedAt(evs, i, m, from, e) <==> GainedAt(evs, i, n, from, e) && !Loses(evs[n], from, e)
  {
    var between := evs[i + 1..n];
    assert evs[i + 1..m] == between + [evs[n]];
    NoneLosesSnoc(between, evs[n], from, e);
  }

  lemma GainedThen(evs: seq<Event>, n: nat, m: nat, from: string, e: Edge)
    requires n < |evs| && m == n + 1
    requires Gains(evs[n], from, e) || (GainedLast(evs, n, from, e) && !Loses(evs[n], from, e))
    ensures GainedLast(evs, m, from, e)
  {
    if Gains(evs[n], from, e) {
      GainedNow(evs, n, m, from, e);
    } else {
      var i :| 0 <= i < n && GainedAt(evs, i, n, from, e);
      GainedBefore(evs, i, n, m, from, e);
    }
  }

  lemma GainedSince(evs: seq<Event>, n: nat, m: nat, from: string, e: Edge)
    requires n < |evs| && m == n + 1 && GainedLast(evs, m, from, e)
    ensures Gains(evs[n], from, e) || (GainedLast(evs, n, from, e) && !Loses(evs[n], from, e))
  {
    var i :| 0 <= i < m && GainedAt(evs, i, m, from, e);
    if i == n {
      GainedNow(evs, n, m, from, e);
    } else {
      GainedBefore(evs, i, n, m, from, e);
    }
  }

  lemma EdgeAfterEvent(live: Live, ev: Event, ops: seq<Op>, from: string, e: Edge, cell: Cell)
    requires Happens(live, ev, ops)
    ensures ActOps(ops, EdgeMember(from, e), cell) ==
            if Gains(ev, from, e) then Member else if Loses(ev, from, e) then Absent else cell
  {
    IssuesTurn(live, ev, ops);
    EdgeAfterTurn(Believed(ev), Wanted(ev), ops, from, e, cell);
  }

  /** Nothing changes it and it was there, or the last event that gained or lost it gained it. */
  ghost predicate Kept(evs: seq<Event>, n: nat, from: string, e: Edge, cell: Cell)
    requires n <= |evs|
  {
    cell == Member && NoneLoses(evs[..n], from, e)
  }

  lemma KeptNext(evs: seq<Event>, n: nat, m: nat, from: string, e: Edge, cell: Cell)
    requires n < |evs| && m == n + 1
    ensures Kept(evs, m, from, e, cell) <==> Kept(evs, n, from, e, cell) && !Loses(evs[n], from, e)
  {
    assert evs[..m] == evs[..n] + [evs[n]];
    NoneLosesSnoc(evs[..n], evs[n], from, e);
  }

  lemma ChangedNext(evs: seq<Event>, n: nat, m: nat, from: string, e: Edge)
    requires n < |evs| && m == n + 1
    ensures GainedLast(evs, m, from, e) <==>
            Gains(evs[n], from, e) || (GainedLast(evs, n, from, e) && !Loses(evs[n], from, e))
  {
    if GainedLast(evs, m, from, e) {
      GainedSince(evs, n, m, from, e);
    }
    if Gains(evs[n], from, e) || (GainedLast(evs, n, from, e) && !Loses(evs[n], from, e)) {
      GainedThen(evs, n, m, from, e);
    }
  }

  lemma ShownNext(evs: seq<Event>, n: nat, m: nat, from: string, e: Edge, cell: Cell)
    requires n < |evs| && m == n + 1
    ensures Shown(GainedLast(evs, m, from, e) || Kept(evs, m, from, e, cell)) ==
            if Gains(evs[n], from, e) then Member
            else if Loses(evs[n], from, e) then Absent
            else Shown(GainedLast(evs, n, from, e) || Kept(evs, n, from, e, cell))
  {
    ChangedNext(evs, n, m, from, e);
    KeptNext(evs, n, m, from, e, cell);
  }

  /** At each moment of every history, for every edge and whatever the server held before: it is
      stored if and only if the last event so far that gained or lost it gained it, or it was
      there and none lost it. */
  lemma {:induction false} LastChangeDecides(evs: seq<Event>, opss: seq<seq<Op>>, n: nat, from: string, e: Edge,
                                             cell: Cell)
    requires History(evs, opss) && n <= |evs| && (cell == Absent || cell == Member)
    ensures From(opss[..n], EdgeMember(from, e), cell) ==
            Shown(GainedLast(evs, n, from, e) || Kept(evs, n, from, e, cell))
  {
    if n > 0 {
      var m, at := n - 1, EdgeMember(from, e);
      LastChangeDecides(evs, opss, m, from, e, cell);
      FromNext(opss, m, at, cell);
      EventAt(evs, opss, m);
      ShownNext(evs, m, n, from, e, cell);
      EdgeAfterEvent(LiveAfter(evs[..m]), evs[m], opss[m], from, e, From(opss[..m], at, cell));
    }
  }

  // ----- when it is right about one edge

  ghost predicate ExactAt(evs: seq<Event>, opss: seq<seq<Op>>, n: nat, from: string, e: Edge)
    requires n <= |evs| == |opss|
  {
    Finally(opss[..n], EdgeMember(from, e)) == Shown(Implied(LiveAfter(evs[..n]), from, e))
  }

  ghost predicate OrphansAt(evs: seq<Event>, n: nat, from: string, e: Edge)
    requires n < |evs|
  {
    Orphans(LiveAfter(evs[..n]), evs[n], from, e)
  }

  /** What the handler believes does no harm to this edge. */
  ghost predicate Fits(live: Live, ev: Event, from: string, e: Edge) {
    if Gains(ev, from, e) then true
    else if Loses(ev, from, e) then !ImpliedElsewhere(live, Key(ev), from, e)
    else HasEdge(Wanted(ev), from, e) != HasEdge(Stored(live, ev), from, e) ==> ImpliedElsewhere(live, Key(ev), from, e)
  }

  lemma OthersStay(live: Live, ev: Event, from: string, e: Edge)
    ensures Implied(live, from, e) <==> HasEdge(Stored(live, ev), from, e) || ImpliedElsewhere(live, Key(ev), from, e)
    ensures Implied(Next(live, ev), from, e) <==>
            HasEdge(Wanted(ev), from, e) || ImpliedElsewhere(live, Key(ev), from, e)
  {
    var next, key := Next(live, ev), Key(ev);
    HereOrElsewhere(live, key, Stored(live, ev), from, e);
    HereOrElsewhere(next, key, Wanted(ev), from, e);
    assert forall k | k != key :: (k in live <==> k in next) && (k in live ==> next[k] == live[k]);
    assert ImpliedElsewhere(live, key, from, e) <==> ImpliedElsewhere(next, key, from, e);
  }

  lemma LosesNothingWanted(live: Live, ev: Event, from: string, e: Edge)
    requires ValidEvent(ev) && Delivered(live, ev) && Loses(ev, from, e)
    ensures !HasEdge(Wanted(ev), from, e)
  {
    if Dropped(Believed(ev), Wanted(ev), from) {
      EventBelongs(live, ev);
      DroppedCarriesNothing(Key(ev), Believed(ev), Wanted(ev), from, e);
    }
  }

  lemma StepFitsIff(live: Live, ev: Event, ops: seq<Op>, from: string, e: Edge)
    requires Happens(live, ev, ops)
    ensures ActOps(ops, EdgeMember(from, e), Shown(Implied(live, from, e))) == Shown(Implied(Next(live, ev), from, e))
            <==> Fits(live, ev, from, e)
  {
    EdgeAfterEvent(live, ev, ops, from, e, Shown(Implied(live, from, e)));
    OthersStay(live, ev, from, e);
    if Loses(ev, from, e) {
      LosesNothingWanted(live, ev, from, e);
    }
  }

  ghost predicate FitsAt(evs: seq<Event>, n: nat, from: string, e: Edge)
    requires n < |evs|
  {
    Fits(LiveAfter(evs[..n]), evs[n], from, e)
  }

  /** A chain of truth values, each linked to the next by the absence of an obstacle. */
  lemma {:induction false} Chain(holds: seq<bool>, blocked: seq<bool>, n: nat)
    requires |holds| == |blocked| + 1 && holds[0] && n <= |blocked|
    requires forall i | 0 <= i < |blocked| && holds[i] :: holds[i + 1] <==> !blocked[i]
    ensures (forall i | 0 <= i <= n :: holds[i]) <==> (forall i | 0 <= i < n :: !blocked[i])
  {
    if n > 0 {
      Chain(holds, blocked, n - 1);
      assert holds[n - 1] ==> (holds[n - 1 + 1] <==> !blocked[n - 1]);
    }
  }

  lemma ExactAtFirst(evs: seq<Event>, opss: seq<seq<Op>>, from: string, e: Edge)
    requires |evs| == |opss|
    ensures ExactAt(evs, opss, 0, from, e)
  {
  }

  lemma NextFitsIff(evs: seq<Event>, opss: seq<seq<Op>>, n: nat, from: string, e: Edge)
    requires History(evs, opss) && n < |evs| && ExactAt(evs, opss, n, from, e)
    ensures ExactAt(evs, opss, n + 1, from, e) <==> FitsAt(evs, n, from, e)
  {
    EventAt(evs, opss, n);
    FromNext(opss, n, EdgeMember(from, e), Absent);
    StepFitsIff(LiveAfter(evs[..n]), evs[n], opss[n], from, e);
  }

  /** The store is right about an edge at all times if and only if every event's belief fits. */
  lemma EdgeFitsIff(evs: seq<Event>, opss: seq<seq<Op>>, from: string, e: Edge)
    requires History(evs, opss)
    ensures (forall n | 0 <= n <= |evs| :: ExactAt(evs, opss, n, from, e)) <==>
            (forall n | 0 <= n < |evs| :: FitsAt(evs, n, from, e))
  {
    var holds := seq(|evs| + 1, n requires 0 <= n <= |evs| => ExactAt(evs, opss, n, from, e));
    var blocked := seq(|evs|, n requires 0 <= n < |evs| => !FitsAt(evs, n, from, e));
    ExactAtFirst(evs, opss, from, e);
    forall i | 0 <= i < |blocked| && holds[i] ensures holds[i + 1] <==> !blocked[i] {
      NextFitsIff(evs, opss, i, from, e);
    }
    Chain(holds, blocked, |blocked|);
    assert forall n | 0 <= n <= |evs| :: holds[n] == ExactAt(evs, opss, n, from, e);
    assert forall n | 0 <= n < |evs| :: blocked[n] == !FitsAt(evs, n, from, e);
  }
}
