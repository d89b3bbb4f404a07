/** Retrying after failures: several flushes against the same previous snapshot fail, each
    having applied an arbitrary part of its commands, and a later one succeeds. */
module Retry {
  import opened Graph
  import opened GraphStore
  import opened BatchSet
  import opened DeltaFlush
  import opened Coherence
  import opened DeltaFacts
  import opened Flusher
  import opened Derivation

  ghost predicate InSync(s: Snap, st: Store) {
    forall a | Owned(a) :: Agrees(AnyName, s, a, Look(st, a))
  }

  /** `states` is a possible course of the failing flushes `failed`, all against `p`. */
  ghost predicate Failures(p: Snap, failed: seq<Flight>, states: seq<Store>) {
    && |states| == |failed| + 1
    && forall i | 0 <= i < |failed| ::
         PartialDelta(failed[i].snap, p, failed[i].now, states[i], states[i + 1])
  }

  /** A possible course of all flushes: the failing ones and then the complete one. */
  ghost predicate Course(p: Snap, failed: seq<Flight>, s: Snap, now: int, states: seq<Store>, final: Store) {
    Failures(p, failed, states) && FullDelta(s, p, now, states[|failed|], final)
  }

  /** No fact was changed on the way by a failing flush and then left alone by the complete
      one because `p` and `s` agree on it. */
  ghost predicate NoFlipBack(p: Snap, failed: seq<Flight>, s: Snap) {
    forall a, i | Owned(a) && 0 <= i < |failed| && Shaken(p, failed[i].snap, a) :: Rewrites(p, s, a)
  }

  ghost predicate AllCoherent(p: Snap, failed: seq<Flight>, s: Snap) {
    Coherent(p) && Coherent(s) && forall i | 0 <= i < |failed| :: Coherent(failed[i].snap)
  }

  lemma {:induction false} UnshakenStays(p: Snap, failed: seq<Flight>, states: seq<Store>, a: Atom, n: nat)
    requires Failures(p, failed, states) && n <= |failed| && Coherent(p)
    requires forall i | 0 <= i < |failed| :: Coherent(failed[i].snap) && !Shaken(p, failed[i].snap, a)
    requires Agrees(AnyName, p, a, Look(states[0], a))
    ensures Agrees(AnyName, p, a, Look(states[n], a))
  {
    if n > 0 {
      UnshakenStays(p, failed, states, a, n - 1);
      var f := failed[n - 1];
      assert PartialDelta(f.snap, p, f.now, states[n - 1], states[n - 1 + 1]);
      PartialDeltaAgrees(AnyName, p, f.snap, f.now, states[n - 1], states[n], a);
    }
  }

  /** The retry is exact on every fact that did not flip back. */
  lemma RetryHeals(p: Snap, failed: seq<Flight>, s: Snap, now: int, states: seq<Store>, final: Store, a: Atom)
    requires AllCoherent(p, failed, s) && Course(p, failed, s, now, states, final)
    requires InSync(p, states[0]) && Owned(a)
    requires Rewrites(p, s, a) || forall i | 0 <= i < |failed| :: !Shaken(p, failed[i].snap, a)
    ensures Agrees(AnyName, s, a, Look(final, a))
  {
    if !Rewrites(p, s, a) {
      UnshakenStays(p, failed, states, a, |failed|);
    }
    FullDeltaAgrees(AnyName, p, s, now, a, Look(states[|failed|], a));
  }

  /** The command of a failing flush that writes this fact. */
  function WritingCommand(p: Snap, f: Snap, now: int, a: Atom): Command
    requires Shaken(p, f, a)
  {
    match a
    case EdgeMember(from, e) => if Key(from, e) in f.edges then SAddEdge(from, e) else SRemEdge(from, e)
    case CoreOf(id) =>
      if id in f.entities then HSetCore(id, f.entities[id].kind, f.entities[id].name, now) else DelEntity(id)
    case IdMember(id) => if id in f.entities then SAddId(id) else SRemId(id)
    case KindMember(kind, id) =>
      if id in f.entities then SAddKind(f.entities[id].kind, id) else SRemKind(p.entities[id].kind, id)
  }

  lemma WritingCommandIssued(p: Snap, f: Snap, now: int, a: Atom)
    requires Shaken(p, f, a)
    ensures FromDelta(f, p, now, WritingCommand(p, f, now, a))
  {
    var c := WritingCommand(p, f, now, a);
    if a.EdgeMember? {
      var op := if Key(a.from, a.edge) in f.edges then Link(a.from, a.edge) else Unlink(a.from, a.edge);
      assert DeltaOp(f, p, now, op) && c in Commands(op);
    } else {
      var op := if a.id in f.entities then AddOp(f, now, a.id) else RemoveOp(p, a.id);
      assert DeltaOp(f, p, now, op);
      var cs := Commands(op);
      assert c == cs[0] || c == cs[1] || c == cs[2];
    }
  }

  /** Alone, that command makes the fact disagree with any snapshot that agrees with `p` on it. */
  lemma ShakingCommand(p: Snap, f: Snap, s: Snap, now: int, a: Atom, cell: Cell)
    requires Shaped(p) && Shaped(f) && Shaped(s)
    requires Shaken(p, f, a) && !Rewrites(p, s, a)
    ensures Touches(WritingCommand(p, f, now, a), a)
    ensures !Agrees(AnyName, s, a, Effect(WritingCommand(p, f, now, a), cell))
  {
    if a.KindMember? {
      assert a.id in f.entities ==> f.entities[a.id].kind == KindOf(a.id);
      assert a.id in p.entities ==> p.entities[a.id].kind == KindOf(a.id);
      assert a.id in s.entities ==> s.entities[a.id].kind == KindOf(a.id);
    }
  }

  lemma LeftAlone(p: Snap, s: Snap, now: int, a: Atom, cell: Cell)
    requires Coherent(p) && Coherent(s) && !Rewrites(p, s, a) && !a.MetaOf?
    ensures DeltaCell(s, p, now, a, cell) == cell
  {
  }

  lemma NothingApplied(f: Snap, p: Snap, now: int, st: Store)
    ensures PartialDelta(f, p, now, st, st)
  {
    assert st == ApplyAll([], st);
  }

  lemma OneApplied(f: Snap, p: Snap, now: int, st: Store, c: Command)
    requires FromDelta(f, p, now, c)
    ensures PartialDelta(f, p, now, st, Apply(c, st))
  {
    assert [c][..0] == [];
    assert Apply(c, st) == ApplyAll([c], st);
  }

  /** When a fact flips back, there is a course after which the store is out of sync. */
  lemma FlipBackStays(p: Snap, failed: seq<Flight>, s: Snap, now: int, start: Store, a: Atom, i: nat)
    returns (states: seq<Store>, final: Store)
    requires AllCoherent(p, failed, s)
    requires Owned(a) && i < |failed| && Shaken(p, failed[i].snap, a) && !Rewrites(p, s, a)
    ensures Course(p, failed, s, now, states, final) && states[0] == start
    ensures !InSync(s, final)
  {
    var c := WritingCommand(p, failed[i].snap, failed[i].now, a);
    WritingCommandIssued(p, failed[i].snap, failed[i].now, a);
    ShakingCommand(p, failed[i].snap, s, failed[i].now, a, Look(start, a));
    var bad := Apply(c, start);
    states := seq(|failed| + 1, (j: nat) => if j <= i then start else bad);
    forall j | 0 <= j < |failed|
      ensures PartialDelta(failed[j].snap, p, failed[j].now, states[j], states[j + 1])
    {
      NothingApplied(failed[j].snap, p, failed[j].now, states[j]);
      if j == i {
        OneApplied(failed[j].snap, p, failed[j].now, start, c);
      }
    }
    final := DeltaStore(s, p, now, bad);
    DeltaStoreIsFull(s, p, now, bad);
    LookApply(c, start, a);
    LeftAlone(p, s, now, a, Look(bad, a));
    assert Look(final, a) == Effect(c, Look(start, a));
  }

  /** From a store in sync with `p`, every possible course of the failures ends in sync with
      the snapshot of the successful flush exactly when no fact flips back. */
  lemma RetryExactIff(p: Snap, failed: seq<Flight>, s: Snap, now: int, start: Store)
    requires AllCoherent(p, failed, s) && InSync(p, start)
    ensures NoFlipBack(p, failed, s) <==>
            forall states, final | Course(p, failed, s, now, states, final) && states[0] == start :: InSync(s, final)
  {
    if NoFlipBack(p, failed, s) {
      forall states, final | Course(p, failed, s, now, states, final) && states[0] == start
        ensures InSync(s, final)
      {
        forall a | Owned(a)
          ensures Agrees(AnyName, s, a, Look(final, a))
        {
          RetryHeals(p, failed, s, now, states, final, a);
        }
      }
    } else {
      var a, i :| Owned(a) && 0 <= i < |failed| && Shaken(p, failed[i].snap, a) && !Rewrites(p, s, a);
      var states, final := FlipBackStays(p, failed, s, now, start, a, i);
    }
  }

  lemma FlipBackOf(snap: Snap, id: string) returns (states: seq<Store>, final: Store)
    requires Coherent(snap) && id in snap.entities && IsRelation(id)
    ensures AllCoherent(NOTHING, [Flight(snap, 0)], NOTHING) && InSync(NOTHING, EMPTY)
    ensures Course(NOTHING, [Flight(snap, 0)], NOTHING, 0, states, final) && states[0] == EMPTY
    ensures !InSync(NOTHING, final)
  {
    var failed, a := [Flight(snap, 0)], CoreOf(id);
    NothingCoherent();
    EmptyInSync();
    assert Owned(a) && Shaken(NOTHING, failed[0].snap, a) && !Rewrites(NOTHING, NOTHING, a);
    states, final := FlipBackStays(NOTHING, failed, NOTHING, 0, EMPTY, a, 0);
  }

  lemma EmptyInSync()
    ensures InSync(NOTHING, EMPTY)
  {
  }

  /** Facts do flip back: a topic seen while the only failing flush ran and expired by the next
      one can stay on the server for good. */
  lemma FlipBackExists() returns (states: seq<Store>, final: Store)
    ensures AllCoherent(NOTHING, [Flight(ONE_TOPIC, 0)], NOTHING) && InSync(NOTHING, EMPTY)
    ensures Course(NOTHING, [Flight(ONE_TOPIC, 0)], NOTHING, 0, states, final) && states[0] == EMPTY
    ensures !InSync(NOTHING, final)
  {
    OneTopic();
    states, final := FlipBackOf(ONE_TOPIC, A_TOPIC.id);
  }
}
