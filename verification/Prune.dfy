/** Pruning: entities not seen since a cutoff are deleted, then the edges that pointed at
    them are stripped from the remaining indexed entities. */
module Prune {
  import opened Wrappers
  import opened Graph
  import opened GraphStore
  import opened Index
  import Decimal
  import Query

  /** Indexed entities whose last-seen text parses to a time before the cutoff. */
  function Stale(st: Store, cutoff: int): set<string> {
    set id | id in st.ids && id in st.core && SeenBefore(st.core[id].lastSeen, cutoff)
  }

  predicate SeenBefore(text: string, cutoff: int) {
    var t := Decimal.Parse(text);
    t.Some? && t.value < cutoff
  }

  /** The entities in `gone` deleted with their metadata, edges and index entries. An entity
      stored under the empty kind keeps its place in that kind's set. */
  function Without(st: Store, gone: set<string>): Store {
    Store(st.core - gone, st.meta - gone,
          (set p | p in st.edges && p.0 !in gone),
          (set p | p in st.byKind && !(p.1 in gone && p.1 in st.core && st.core[p.1].kind == p.0 && p.0 != "")),
          st.ids - gone)
  }

  /** Edges into `gone` removed from the indexed entities. */
  function Stripped(st: Store, gone: set<string>): Store {
    st.(edges := set p | p in st.edges && !(p.0 in st.ids && p.1.to in gone))
  }

  function Pruned(st: Store, cutoff: int): Store {
    Stripped(Without(st, Stale(st, cutoff)), Stale(st, cutoff))
  }

  lemma WithoutNothing(st: Store)
    ensures Stripped(Without(st, {}), {}) == st && Without(st, {}) == st
  {
    var t := Without(st, {});
    assert t.core == st.core && t.meta == st.meta && t.edges == st.edges && t.byKind == st.byKind && t.ids == st.ids;
    assert Stripped(t, {}).edges == st.edges;
  }

  /** The commands that delete one entity. */
  function Drop(st: Store, id: string, kind: string): Store {
    var rest := Apply(SRemId(id), Apply(DelEntity(id), st));
    if kind != "" then Apply(SRemKind(kind, id), rest) else rest
  }

  lemma DropMore(st: Store, done: set<string>, id: string)
    requires id in st.core && id !in done
    ensures Drop(Without(st, done), id, st.core[id].kind) == Without(st, done + {id})
  {
    var kind := st.core[id].kind;
    var x, y := Drop(Without(st, done), id, kind), Without(st, done + {id});
    assert x.core == y.core && x.meta == y.meta && x.ids == y.ids;
    assert x.edges == y.edges;
    assert x.byKind == y.byKind;
  }

  // ----- pruning that fails half-way

  /** A fact that deleting `gone` and stripping the edges into it removes. */
  predicate Removable(st: Store, gone: set<string>, a: Atom) {
    match a
    case CoreOf(id) => id in gone
    case MetaOf(id) => id in gone
    case IdMember(id) => id in gone
    case KindMember(kind, id) => id in gone && id in st.core && st.core[id].kind == kind && kind != ""
    case EdgeMember(from, e) => from in gone || (from in st.ids && e.to in gone)
  }

  /** Some of the facts to be removed are gone, and nothing else has changed. */
  ghost predicate Partly(st: Store, now: Store, gone: set<string>) {
    forall a :: Look(now, a) == Look(st, a) || (Removable(st, gone, a) && Look(now, a) == Absent)
  }

  /** A complete prune removes exactly the removable facts of the stale entities. */
  lemma PrunedReads(st: Store, cutoff: int, a: Atom)
    ensures Look(Pruned(st, cutoff), a) == if Removable(st, Stale(st, cutoff), a) then Absent else Look(st, a)
  {
  }

  ghost predicate Removes(c: Command, st: Store, gone: set<string>) {
    (forall a | Touches(c, a) :: Removable(st, gone, a)) && forall cell :: Effect(c, cell) == Absent
  }

  lemma RemovesMore(c: Command, st: Store, now: Store, gone: set<string>)
    requires Partly(st, now, gone) && Removes(c, st, gone)
    ensures Partly(st, Apply(c, now), gone)
  {
    forall a
      ensures Look(Apply(c, now), a) == Look(st, a) || (Removable(st, gone, a) && Look(Apply(c, now), a) == Absent)
    {
      LookApply(c, now, a);
      assert Look(now, a) == Look(st, a) || Look(now, a) == Absent;
    }
  }

  ghost predicate AllRemove(cs: seq<Command>, st: Store, gone: set<string>) {
    forall c | c in cs :: Removes(c, st, gone)
  }

  /** The pipeline that deletes one entity, by the kind it was read with. */
  function DropCommands(id: string, kind: string): seq<Command> {
    [DelEntity(id), SRemId(id)] + if kind != "" then [SRemKind(kind, id)] else []
  }

  lemma DeletionRemoves(st: Store, gone: set<string>, id: string)
    requires id in gone
    ensures Removes(DelEntity(id), st, gone)
  {
    forall a | Touches(DelEntity(id), a) ensures Removable(st, gone, a) {
      assert if a.EdgeMember? then a.from == id else a == CoreOf(id) || a == MetaOf(id);
    }
  }

  lemma DropRemoves(st: Store, gone: set<string>, id: string, kind: string)
    requires id in gone && (kind != "" ==> id in st.core && st.core[id].kind == kind)
    ensures AllRemove(DropCommands(id, kind), st, gone)
  {
    DeletionRemoves(st, gone, id);
    if kind != "" {
      assert Removable(st, gone, KindMember(kind, id));
    }
  }

  lemma DropRuns(st: Store, id: string, kind: string)
    ensures ApplyAll(DropCommands(id, kind), st) == Drop(st, id, kind)
  {
    var two := [DelEntity(id), SRemId(id)];
    assert two[..1] == [DelEntity(id)] && [DelEntity(id)][..0] == [];
    assert ApplyAll([DelEntity(id)], st) == Apply(DelEntity(id), st);
    assert ApplyAll(two, st) == Apply(SRemId(id), Apply(DelEntity(id), st));
    if kind == "" {
      assert DropCommands(id, kind) == two;
    } else {
      assert (two + [SRemKind(kind, id)])[..2] == two;
    }
  }

  lemma StripRemoves(st: Store, gone: set<string>, sid: string, e: Edge)
    requires sid in st.ids && e.to in gone
    ensures Removes(SRemEdge(sid, e), st, gone)
  {
  }

  lemma PartlyCore(st: Store, now: Store, gone: set<string>, id: string)
    requires Partly(st, now, gone)
    ensures id in now.core ==> id in st.core && now.core[id] == st.core[id]
    ensures id in now.ids ==> id in st.ids
  {
    assert Look(now, CoreOf(id)) == Look(st, CoreOf(id)) || Look(now, CoreOf(id)) == Absent;
    assert Look(now, IdMember(id)) == Look(st, IdMember(id)) || Look(now, IdMember(id)) == Absent;
  }

  // ----- the method

  class RedisGraph {
    var store: Store

    constructor (store: Store)
      ensures this.store == store
    {
      this.store := store;
    }

    /** Sends a pipeline, or a single command. Any of the commands may fail to take effect. */
    method Exec(cmds: seq<Command>, ghost st: Store, ghost gone: set<string>) returns (ghost ok: bool)
      requires Partly(st, store, gone) && AllRemove(cmds, st, gone)
      modifies this
      ensures Partly(st, store, gone)
      ensures ok ==> store == ApplyAll(cmds, old(store))
    {
      ok := true;
      for i := 0 to |cmds|
        invariant Partly(st, store, gone)
        invariant ok ==> store == ApplyAll(cmds[..i], old(store))
      {
        assert cmds[..i + 1][..i] == cmds[..i];
        var reached: bool := *;
        if reached {
          RemovesMore(cmds[i], st, store, gone);
          store := Apply(cmds[i], store);
        } else {
          ok := false;
        }
      }
      assert cmds[..|cmds|] == cmds;
    }

    /** Entities whose last-seen time cannot be read are passed over. */
    method FindStale(cutoff: int) returns (dropped: set<string>, ghost ok: bool)
      ensures dropped <= Stale(store, cutoff)
      ensures ok ==> dropped == Stale(store, cutoff)
    {
      dropped, ok := {}, true;
      var todo := store.ids;
      while todo != {}
        invariant todo <= store.ids && dropped <= Stale(store, cutoff)
        invariant ok ==> forall id :: id in dropped <==> id in Stale(store, cutoff) && id !in todo
        decreases todo
      {
        var id :| id in todo;
        todo := todo - {id};
        var answered: bool := *;
        if !answered {
          ok := false;
        } else if id in store.core {
          var v := Decimal.ParseInt64(store.core[id].lastSeen);
          if v.Some? && v.value < cutoff {
            dropped := dropped + {id};
          }
        }
      }
    }

    /** Deletes one entity; when its kind cannot be read it stays in that kind's set. */
    method DeleteOne(id: string, ghost st: Store, ghost gone: set<string>) returns (ghost ok: bool)
      requires Partly(st, store, gone) && id in gone
      modifies this
      ensures Partly(st, store, gone)
      ensures ok && id in old(store.core) ==> store == Drop(old(store), id, old(store.core[id].kind))
    {
      var answered: bool := *;
      var kind := if answered && id in store.core then store.core[id].kind else "";
      PartlyCore(st, store, gone, id);
      DropRemoves(st, gone, id, kind);
      DropRuns(store, id, kind);
      ok := Exec(DropCommands(id, kind), st, gone);
      ok := ok && answered;
    }

    method DeleteAll(dropped: set<string>) returns (ghost ok: bool)
      requires dropped <= store.core.Keys
      modifies this
      ensures Partly(old(store), store, dropped)
      ensures ok ==> store == Without(old(store), dropped)
    {
      var todo := dropped;
      ok := true;
      ghost var st, done := store, {};
      WithoutNothing(st);
      while todo != {}
        invariant done !! todo && done + todo == dropped && Partly(st, store, dropped)
        invariant ok ==> store == Without(st, done)
        decreases todo
      {
        var id :| id in todo;
        todo := todo - {id};
        DropMore(st, done, id);
        ghost var so := ok;
        ghost var sent := DeleteOne(id, st, dropped);
        ok := so && sent;
        done := done + {id};
      }
      assert done == dropped;
    }

    /** Removes the edges of one entity that point into `dropped`. */
    method StripOne(sid: string, dropped: set<string>, ghost st: Store) returns (ghost ok: bool)
      requires Partly(st, store, dropped) && sid in st.ids
      modifies this
      ensures Partly(st, store, dropped)
      ensures ok ==>
                store == old(store).(edges := set p | p in old(store.edges) && !(p.0 == sid && p.1.to in dropped))
    {
      ok := true;
      var answered: bool := *;
      if !answered {
        return false;
      }
      var todo := Query.Outgoing(store, sid);
      ghost var was := store;
      while todo != {}
        invariant Partly(st, store, dropped)
        invariant ok ==> StrippedFrom(was, store, sid, dropped, todo)
        decreases todo
      {
        var e :| e in todo;
        todo := todo - {e};
        ghost var sent := true;
        if e.to in dropped {
          StripRemoves(st, dropped, sid, e);
          assert [SRemEdge(sid, e)][..0] == [];
          sent := Exec([SRemEdge(sid, e)], st, dropped);
        }
        ok := ok && sent;
      }
      forall p | p in was.edges && p.0 == sid ensures p.1 in Query.Outgoing(was, sid) {
      }
    }

    method StripAll(dropped: set<string>, ghost st: Store) returns (ghost ok: bool)
      requires Partly(st, store, dropped)
      modifies this
      ensures Partly(st, store, dropped)
      ensures ok ==> store == Stripped(old(store), dropped)
    {
      ok := true;
      var answered: bool := *;
      if !answered {
        return false;
      }
      var todo := store.ids;
      ghost var was := store;
      while todo != {}
        invariant todo <= was.ids && Partly(st, store, dropped)
        invariant ok ==> StrippedBut(was, store, dropped, todo)
        decreases todo
      {
        var sid :| sid in todo;
        todo := todo - {sid};
        PartlyCore(st, was, dropped, sid);
        ghost var sent := StripOne(sid, dropped, st);
        ok := ok && sent;
      }
      assert ok ==> store.edges == Stripped(was, dropped).edges;
    }

    /** Returns how many entities it set out to delete. Whatever fails on the way, nothing but
        facts a complete prune removes is touched; without failures all of them are removed. */
    method Prune(cutoff: int) returns (n: nat, ghost ok: bool)
      modifies this
      ensures n <= |Stale(old(store), cutoff)| && Partly(old(store), store, Stale(old(store), cutoff))
      ensures ok ==> store == Pruned(old(store), cutoff) && n == |Stale(old(store), cutoff)|
    {
      var answered: bool := *;
      ghost var st, gone := store, Stale(store, cutoff);
      if !answered {
        return 0, false;
      }
      var dropped, found := FindStale(cutoff);
      Fewer(dropped, gone);
      if dropped == {} {
        WithoutNothing(store);
        return 0, found;
      }
      ghost var deleted := DeleteAll(dropped);
      ghost var stripped := StripAll(dropped, st);
      PartlyMore(st, store, dropped, gone);
      return |dropped|, found && deleted && stripped;
    }
  }

  ghost predicate StrippedFrom(was: Store, now: Store, sid: string, dropped: set<string>, todo: set<Edge>) {
    && now == was.(edges := now.edges)
    && forall p :: p in now.edges <==> p in was.edges && !(p.0 == sid && p.1.to in dropped && p.1 !in todo)
  }

  ghost predicate StrippedBut(was: Store, now: Store, dropped: set<string>, todo: set<string>) {
    && now == was.(edges := now.edges)
    && forall p :: p in now.edges <==> p in was.edges && !(p.0 in was.ids && p.0 !in todo && p.1.to in dropped)
  }

  lemma Fewer(a: set<string>, b: set<string>)
    requires a <= b
    ensures |a| <= |b|
  {
    assert b == a + (b - a);
  }

  lemma PartlyMore(st: Store, now: Store, some: set<string>, all: set<string>)
    requires Partly(st, now, some) && some <= all
    ensures Partly(st, now, all)
  {
    forall a ensures Look(now, a) == Look(st, a) || (Removable(st, all, a) && Look(now, a) == Absent) {
      assert Look(now, a) == Look(st, a) || (Removable(st, some, a) && Look(now, a) == Absent);
    }
  }

  // ----- pruning again after a failure

  /** Nothing that a prune removes along with this entity is left, but for edges into it from
      entities that are to be deleted themselves. */
  ghost predicate LeftNothing(st: Store, now: Store, again: set<string>, id: string) {
    forall a | Removable(st, {id}, a) && !(a.EdgeMember? && a.from in again) :: Look(now, a) == Absent
  }

  /** Each entity to be deleted is found again, or left nothing. */
  ghost predicate FoundOrGone(st: Store, now: Store, cutoff: int) {
    forall id | id in Stale(st, cutoff) :: id in Stale(now, cutoff) || LeftNothing(st, now, Stale(now, cutoff), id)
  }

  lemma StaleAgain(st: Store, now: Store, cutoff: int, id: string)
    requires Partly(st, now, Stale(st, cutoff))
    ensures id in Stale(now, cutoff) <==> id in Stale(st, cutoff) && id in now.core && id in now.ids
  {
    PartlyCore(st, now, Stale(st, cutoff), id);
  }

  /** What is removable is so because of one entity. */
  lemma RemovableBy(st: Store, gone: set<string>, a: Atom) returns (id: string)
    requires Removable(st, gone, a)
    ensures id in gone && Removable(st, {id}, a)
  {
    id := if a.EdgeMember? then (if a.from in gone then a.from else a.edge.to) else a.id;
  }

  /** Deletion is a matter of the sources of edges, stripping of their indexed sources: after a
      failure a source may have left the index and kept its edges. */
  lemma StillRemovable(st: Store, now: Store, cutoff: int, id: string, a: Atom)
    requires Partly(st, now, Stale(st, cutoff)) && id in Stale(now, cutoff) && Removable(st, {id}, a)
    requires FoundOrGone(st, now, cutoff)
    ensures Look(Pruned(now, cutoff), a) == Absent
  {
    PrunedReads(now, cutoff, a);
    PartlyCore(st, now, Stale(st, cutoff), id);
    StaleAgain(st, now, cutoff, id);
    if a.EdgeMember? && a.from != id && a.from !in now.ids {
      SourceStale(st, now, cutoff, a.from);
      assert LeftNothing(st, now, Stale(now, cutoff), a.from);
      assert Removable(st, {a.from}, a);
    }
  }

  /** An entity leaves the index only when it is stale. */
  lemma SourceStale(st: Store, now: Store, cutoff: int, id: string)
    requires Partly(st, now, Stale(st, cutoff)) && id in st.ids && id !in now.ids
    ensures id in Stale(st, cutoff) && id !in Stale(now, cutoff)
  {
    assert Look(now, IdMember(id)) != Look(st, IdMember(id));
    assert Removable(st, Stale(st, cutoff), IdMember(id));
  }

  lemma RetryRemoves(st: Store, now: Store, cutoff: int, a: Atom)
    requires Partly(st, now, Stale(st, cutoff)) && Removable(st, Stale(st, cutoff), a)
    requires FoundOrGone(st, now, cutoff)
    ensures Look(Pruned(now, cutoff), a) == Absent
  {
    var id := RemovableBy(st, Stale(st, cutoff), a);
    if id in Stale(now, cutoff) {
      StillRemovable(st, now, cutoff, id, a);
    } else {
      assert LeftNothing(st, now, Stale(now, cutoff), id);
      PrunedReads(now, cutoff, a);
    }
  }

  /** What was not to be removed is not removed by the second prune either. */
  lemma RetryKeeps(st: Store, now: Store, cutoff: int, a: Atom)
    requires Partly(st, now, Stale(st, cutoff)) && !Removable(st, Stale(st, cutoff), a)
    ensures Look(Pruned(now, cutoff), a) == Look(st, a)
  {
    PrunedReads(now, cutoff, a);
    assert Look(now, a) == Look(st, a);
    if Removable(now, Stale(now, cutoff), a) {
      KeptAgain(st, now, cutoff, a);
    }
  }

  lemma KeptAgain(st: Store, now: Store, cutoff: int, a: Atom)
    requires Partly(st, now, Stale(st, cutoff)) && Removable(now, Stale(now, cutoff), a)
    ensures Removable(st, Stale(st, cutoff), a)
  {
    var id := if a.EdgeMember? then a.from else a.id;
    PartlyCore(st, now, Stale(st, cutoff), id);
    StaleAgain(st, now, cutoff, id);
    if a.EdgeMember? {
      StaleAgain(st, now, cutoff, a.edge.to);
    }
  }

  lemma NotAgain(st: Store, now: Store, cutoff: int, id: string, a: Atom)
    requires Partly(st, now, Stale(st, cutoff)) && id !in Stale(now, cutoff) && id !in now.ids
    requires Removable(st, {id}, a) && !(a.EdgeMember? && a.from in Stale(now, cutoff))
    ensures !Removable(now, Stale(now, cutoff), a)
  {
  }

  lemma NotIndexed(st: Store, now: Store, cutoff: int, id: string)
    requires id in Stale(st, cutoff) && id !in Stale(now, cutoff) && Pruned(now, cutoff) == Pruned(st, cutoff)
    ensures id !in now.ids
  {
    PrunedReads(st, cutoff, IdMember(id));
    PrunedReads(now, cutoff, IdMember(id));
    assert Removable(st, Stale(st, cutoff), IdMember(id));
  }

  /** What is neither found again nor gone stays for good. */
  lemma LeftoverStays(st: Store, now: Store, cutoff: int, id: string)
    requires Partly(st, now, Stale(st, cutoff)) && id in Stale(st, cutoff) && id !in Stale(now, cutoff)
    requires Pruned(now, cutoff) == Pruned(st, cutoff)
    ensures LeftNothing(st, now, Stale(now, cutoff), id)
  {
    var again := Stale(now, cutoff);
    NotIndexed(st, now, cutoff, id);
    forall a | Removable(st, {id}, a) && !(a.EdgeMember? && a.from in again) ensures Look(now, a) == Absent {
      NotAgain(st, now, cutoff, id, a);
      PrunedReads(st, cutoff, a);
      PrunedReads(now, cutoff, a);
      assert Removable(st, Stale(st, cutoff), a);
    }
  }

  lemma RetryCompletes(st: Store, now: Store, cutoff: int)
    requires Partly(st, now, Stale(st, cutoff)) && FoundOrGone(st, now, cutoff)
    ensures Pruned(now, cutoff) == Pruned(st, cutoff)
  {
    forall a ensures Look(Pruned(now, cutoff), a) == Look(Pruned(st, cutoff), a) {
      PrunedReads(st, cutoff, a);
      if Removable(st, Stale(st, cutoff), a) {
        RetryRemoves(st, now, cutoff, a);
      } else {
        RetryKeeps(st, now, cutoff, a);
      }
    }
    Extensional(Pruned(now, cutoff), Pruned(st, cutoff));
  }

  /** After any failures, pruning again to the same cutoff completes the work if and only if each
      entity to be deleted is found again or left nothing: an entity that lost its core or its
      place in the index but kept anything else keeps it for good. */
  lemma PruneRetryIff(st: Store, now: Store, cutoff: int)
    requires Partly(st, now, Stale(st, cutoff))
    ensures Pruned(now, cutoff) == Pruned(st, cutoff) <==> FoundOrGone(st, now, cutoff)
  {
    if FoundOrGone(st, now, cutoff) {
      RetryCompletes(st, now, cutoff);
    }
    if Pruned(now, cutoff) == Pruned(st, cutoff) {
      forall id | id in Stale(st, cutoff) && id !in Stale(now, cutoff)
        ensures LeftNothing(st, now, Stale(now, cutoff), id)
      {
        LeftoverStays(st, now, cutoff, id);
      }
    }
  }

  /** It is not always so: when the keys of a stale entity were deleted and its place in the index
      was not, no later prune finds it and it stays in the index. */
  lemma LostToTheIndex(st: Store, cutoff: int, id: string)
    requires id in Stale(st, cutoff)
    ensures var now := Apply(DelEntity(id), st);
            && Partly(st, now, Stale(st, cutoff)) && !FoundOrGone(st, now, cutoff)
            && id in Pruned(now, cutoff).ids && id !in Pruned(st, cutoff).ids
  {
    var now := Apply(DelEntity(id), st);
    assert Partly(st, st, Stale(st, cutoff));
    DeletionRemoves(st, Stale(st, cutoff), id);
    RemovesMore(DelEntity(id), st, st, Stale(st, cutoff));
    assert Removable(st, {id}, IdMember(id)) && Look(now, IdMember(id)) == Member;
  }

  // ----- what pruning keeps

  /** The index stays exact precisely when no deleted entity was stored under the empty kind. */
  lemma PruneKeepsIndexIff(st: Store, cutoff: int)
    requires Indexed(st)
    ensures Indexed(Pruned(st, cutoff)) <==> forall id | id in Stale(st, cutoff) :: st.core[id].kind != ""
  {
    var gone, t := Stale(st, cutoff), Pruned(st, cutoff);
    if id :| id in gone && st.core[id].kind == "" {
      assert ("", id) in st.byKind;
      assert ("", id) in t.byKind && ("", id).1 !in t.core;
    }
    if forall id | id in gone :: st.core[id].kind != "" {
      forall p ensures p in t.byKind <==> p.1 in t.core && t.core[p.1].kind == p.0 {
        assert p in st.byKind <==> p.1 in st.core && st.core[p.1].kind == p.0;
      }
    }
  }

  /** Survivors are the entities not stale, untouched; with an exact index none of them keeps
      an edge to a deleted one, and every other edge of theirs stays. */
  lemma PruneIsExact(st: Store, cutoff: int, id: string, e: Edge)
    requires Indexed(st)
    ensures var t, gone := Pruned(st, cutoff), Stale(st, cutoff);
            && (id in t.core <==> id in st.core && !SeenBefore(st.core[id].lastSeen, cutoff))
            && (id in t.core ==> t.core[id] == st.core[id])
            && (id in t.meta <==> id in st.meta && id !in gone)
            && (id in t.core ==> ((id, e) in t.edges <==> (id, e) in st.edges && e.to !in gone))
  {
  }
}
