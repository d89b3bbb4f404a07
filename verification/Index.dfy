/** The index invariant: `:ids` and the `by_kind` sets list exactly the stored entities. */
module Index {
  import opened Graph
  import opened GraphStore

  ghost predicate Indexed(st: Store) {
    && (forall id :: id in st.ids <==> id in st.core)
    && (forall id | id in st.core :: st.core[id].id == id)
    && (forall p :: p in st.byKind <==> p.1 in st.core && st.core[p.1].kind == p.0)
  }

  /** Stored kinds are the ones the ID prefixes announce. */
  ghost predicate Kinded(st: Store) {
    forall id | id in st.core :: st.core[id].kind == KindOf(id)
  }

  /** The operation names the kind the entity is already stored under, if it is stored. */
  predicate KindMatches(op: Op, st: Store) {
    (op.Upsert? || op.Delete?) && op.id in st.core ==> st.core[op.id].kind == op.kind
  }

  predicate WellKinded(op: Op) {
    op.Upsert? || op.Delete? ==> op.kind == KindOf(op.id)
  }

  function ApplyOp(op: Op, st: Store): Store {
    ApplyOps([op], st)
  }

  lemma LookOp(op: Op, st: Store, a: Atom)
    ensures Look(ApplyOp(op, st), a) == ActOp(op, a, Look(st, a))
  {
    LookOps([op], st, a);
    assert [op][..0] == [];
  }

  /** What an operation does to the fields the index is about. */
  lemma IndexFields(op: Op, st: Store)
    ensures forall id :: id in ApplyOp(op, st).core <==>
                         (op.Upsert? && id == op.id) || (id in st.core && !(op.Delete? && id == op.id))
    ensures forall id | id in ApplyOp(op, st).core ::
              var c := ApplyOp(op, st).core[id];
              if op.Upsert? && id == op.id then c.id == id && c.kind == op.kind
              else id in st.core && c == st.core[id]
    ensures forall id :: id in ApplyOp(op, st).ids <==>
                         (op.Upsert? && id == op.id) || (id in st.ids && !(op.Delete? && id == op.id))
    ensures forall p :: p in ApplyOp(op, st).byKind <==>
                        (op.Upsert? && p == (op.kind, op.id)) ||
                        (p in st.byKind && !(op.Delete? && p == (op.kind, op.id)))
  {
    var t := ApplyOp(op, st);
    forall id
      ensures id in t.core <==> (op.Upsert? && id == op.id) || (id in st.core && !(op.Delete? && id == op.id))
      ensures id in t.core ==>
                var c := t.core[id];
                if op.Upsert? && id == op.id then c.id == id && c.kind == op.kind
                else id in st.core && c == st.core[id]
      ensures id in t.ids <==> (op.Upsert? && id == op.id) || (id in st.ids && !(op.Delete? && id == op.id))
    {
      LookOp(op, st, CoreOf(id));
      LookOp(op, st, IdMember(id));
    }
    forall p
      ensures p in t.byKind <==> (op.Upsert? && p == (op.kind, op.id)) ||
                                 (p in st.byKind && !(op.Delete? && p == (op.kind, op.id)))
    {
      LookOp(op, st, KindMember(p.0, p.1));
    }
  }

  /** One operation keeps the index exact when, and only when, it names the stored kind. */
  lemma KeepsIndexIff(op: Op, st: Store)
    requires Indexed(st)
    ensures Indexed(ApplyOp(op, st)) <==> KindMatches(op, st)
  {
    IndexFields(op, st);
    if !KindMatches(op, st) {
      var p := (st.core[op.id].kind, op.id);
      assert p in st.byKind;
      assert p in ApplyOp(op, st).byKind;
    }
  }

  lemma {:induction false} RunKeepsIndex(ops: seq<Op>, st: Store)
    requires Indexed(st) && Kinded(st)
    requires forall op | op in ops :: WellKinded(op)
    ensures Indexed(ApplyOps(ops, st)) && Kinded(ApplyOps(ops, st))
  {
    if ops != [] {
      var init, last := ops[..|ops| - 1], ops[|ops| - 1];
      RunKeepsIndex(init, st);
      var mid := ApplyOps(init, st);
      ApplyConcat(CommandsOf(init), Commands(last), st);
      assert CommandsOf([last]) == Commands(last) by {
        assert [last][..0] == [];
      }
      assert ApplyOps(ops, st) == ApplyOp(last, mid);
      assert WellKinded(last);
      KeepsIndexIff(last, mid);
      IndexFields(last, mid);
    }
  }
}
