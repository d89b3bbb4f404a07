/** The graph as it is kept in Redis, the commands that change it, and the four logical
    operations both writers are made of. */
module GraphStore {
  import opened Graph
  import Decimal

  /** The core hash of an entity: always written with all four fields. */
  datatype Core = Core(id: string, kind: string, name: string, lastSeen: string)

  datatype Store = Store(
    core: map<string, Core>,
    meta: map<string, map<string, string>>,
    edges: set<(string, Edge)>,
    byKind: set<(string, string)>,
    ids: set<string>)

  const EMPTY := Store(map[], map[], {}, {}, {})

  datatype Command =
    | HSetCore(id: string, kind: string, name: string, ms: int)
    | HSetMeta(id: string, fields: map<string, string>)
    | DelEntity(id: string)  // one DEL of the core, metadata and edges keys
    | SAddId(id: string)
    | SRemId(id: string)
    | SAddKind(kind: string, id: string)
    | SRemKind(kind: string, id: string)
    | SAddEdge(from: string, edge: Edge)
    | SRemEdge(from: string, edge: Edge)

  function Apply(c: Command, st: Store): Store {
    match c
    case HSetCore(id, kind, name, ms) =>
      st.(core := st.core[id := Core(id, kind, name, Decimal.Print(ms))])
    case HSetMeta(id, fields) =>
      st.(meta := st.meta[id := (if id in st.meta then st.meta[id] else map[]) + fields])
    case DelEntity(id) =>
      st.(core := st.core - {id}, meta := st.meta - {id},
          edges := set p | p in st.edges && p.0 != id)
    case SAddId(id) => st.(ids := st.ids + {id})
    case SRemId(id) => st.(ids := st.ids - {id})
    case SAddKind(kind, id) => st.(byKind := st.byKind + {(kind, id)})
    case SRemKind(kind, id) => st.(byKind := st.byKind - {(kind, id)})
    case SAddEdge(from, e) => st.(edges := st.edges + {(from, e)})
    case SRemEdge(from, e) => st.(edges := st.edges - {(from, e)})
  }

  function ApplyAll(cs: seq<Command>, st: Store): Store {
    if cs == [] then st else Apply(cs[|cs| - 1], ApplyAll(cs[..|cs| - 1], st))
  }

  lemma {:induction false} ApplyConcat(xs: seq<Command>, ys: seq<Command>, st: Store)
    ensures ApplyAll(xs + ys, st) == ApplyAll(ys, ApplyAll(xs, st))
  {
    if ys == [] {
      assert xs + ys == xs;
    } else {
      assert (xs + ys)[..|xs + ys| - 1] == xs + ys[..|ys| - 1];
      ApplyConcat(xs, ys[..|ys| - 1], st);
    }
  }

  // ----- the store read one fact at a time

  /** One independently readable fact of the store. */
  datatype Atom =
    | CoreOf(id: string)
    | MetaOf(id: string)
    | IdMember(id: string)
    | KindMember(kind: string, id: string)
    | EdgeMember(from: string, edge: Edge)

  datatype Cell =
    | Absent
    | Member
    | Hash(core: Core)
    | Fields(fields: map<string, string>)

  function Look(st: Store, a: Atom): Cell {
    match a
    case CoreOf(id) => if id in st.core then Hash(st.core[id]) else Absent
    case MetaOf(id) => if id in st.meta then Fields(st.meta[id]) else Absent
    case IdMember(id) => if id in st.ids then Member else Absent
    case KindMember(kind, id) => if (kind, id) in st.byKind then Member else Absent
    case EdgeMember(from, e) => if (from, e) in st.edges then Member else Absent
  }

  /** A store is determined by its facts. */
  lemma Extensional(s: Store, t: Store)
    requires forall a :: Look(s, a) == Look(t, a)
    ensures s == t
  {
    forall id ensures (id in s.core <==> id in t.core) && (id in s.core ==> s.core[id] == t.core[id]) {
      assert Look(s, CoreOf(id)) == Look(t, CoreOf(id));
    }
    forall id ensures (id in s.meta <==> id in t.meta) && (id in s.meta ==> s.meta[id] == t.meta[id]) {
      assert Look(s, MetaOf(id)) == Look(t, MetaOf(id));
    }
    forall id ensures id in s.ids <==> id in t.ids {
      assert Look(s, IdMember(id)) == Look(t, IdMember(id));
    }
    forall p ensures p in s.byKind <==> p in t.byKind {
      assert Look(s, KindMember(p.0, p.1)) == Look(t, KindMember(p.0, p.1));
    }
    forall p ensures p in s.edges <==> p in t.edges {
      assert Look(s, EdgeMember(p.0, p.1)) == Look(t, EdgeMember(p.0, p.1));
    }
    assert s.core == t.core && s.meta == t.meta;
    assert s.edges == t.edges && s.byKind == t.byKind && s.ids == t.ids;
  }

  function Touches(c: Command, a: Atom): bool {
    match c
    case HSetCore(id, _, _, _) => a == CoreOf(id)
    case HSetMeta(id, _) => a == MetaOf(id)
    case DelEntity(id) => a == CoreOf(id) || a == MetaOf(id) || (a.EdgeMember? && a.from == id)
    case SAddId(id) => a == IdMember(id)
    case SRemId(id) => a == IdMember(id)
    case SAddKind(kind, id) => a == KindMember(kind, id)
    case SRemKind(kind, id) => a == KindMember(kind, id)
    case SAddEdge(from, e) => a == EdgeMember(from, e)
    case SRemEdge(from, e) => a == EdgeMember(from, e)
  }

  /** What a command that touches a fact makes of it. */
  function Effect(c: Command, cell: Cell): Cell {
    match c
    case HSetCore(id, kind, name, ms) => Hash(Core(id, kind, name, Decimal.Print(ms)))
    case HSetMeta(id, fields) => Fields((if cell.Fields? then cell.fields else map[]) + fields)
    case SAddId(_) => Member
    case SAddKind(_, _) => Member
    case SAddEdge(_, _) => Member
    case DelEntity(_) => Absent
    case SRemId(_) => Absent
    case SRemKind(_, _) => Absent
    case SRemEdge(_, _) => Absent
  }

  function Act(c: Command, a: Atom, cell: Cell): Cell {
    if Touches(c, a) then Effect(c, cell) else cell
  }

  function ActAll(cs: seq<Command>, a: Atom, cell: Cell): Cell {
    if cs == [] then cell else Act(cs[|cs| - 1], a, ActAll(cs[..|cs| - 1], a, cell))
  }

  lemma LookApply(c: Command, st: Store, a: Atom)
    ensures Look(Apply(c, st), a) == Act(c, a, Look(st, a))
  {
  }

  /** Commands act on every fact separately. */
  lemma {:induction false} LookApplyAll(cs: seq<Command>, st: Store, a: Atom)
    ensures Look(ApplyAll(cs, st), a) == ActAll(cs, a, Look(st, a))
  {
    if cs != [] {
      LookApplyAll(cs[..|cs| - 1], st, a);
      LookApply(cs[|cs| - 1], ApplyAll(cs[..|cs| - 1], st), a);
    }
  }

  lemma {:induction false} ActConcat(xs: seq<Command>, ys: seq<Command>, a: Atom, cell: Cell)
    ensures ActAll(xs + ys, a, cell) == ActAll(ys, a, ActAll(xs, a, cell))
  {
    if ys == [] {
      assert xs + ys == xs;
    } else {
      assert (xs + ys)[..|xs + ys| - 1] == xs + ys[..|ys| - 1];
      ActConcat(xs, ys[..|ys| - 1], a, cell);
    }
  }

  /** Commands that leave a fact alone may be dropped when only that fact is read. */
  lemma {:induction false} ActUntouched(cs: seq<Command>, a: Atom, cell: Cell)
    requires forall c | c in cs :: !Touches(c, a)
    ensures ActAll(cs, a, cell) == cell
  {
    if cs != [] {
      ActUntouched(cs[..|cs| - 1], a, cell);
    }
  }

  // ----- logical operations

  datatype Op =
    | Upsert(id: string, kind: string, name: string, ms: int, md: map<string, string>)
    | Delete(id: string, kind: string)
    | Link(from: string, edge: Edge)
    | Unlink(from: string, edge: Edge)

  /** The commands one operation appends to the pipeline, in order. */
  function Commands(op: Op): seq<Command> {
    match op
    case Upsert(id, kind, name, ms, md) =>
      [HSetCore(id, kind, name, ms), SAddKind(kind, id), SAddId(id)] +
      (if md == map[] then [] else [HSetMeta(id, md)])
    case Delete(id, kind) => [DelEntity(id), SRemId(id), SRemKind(kind, id)]
    case Link(from, e) => [SAddEdge(from, e)]
    case Unlink(from, e) => [SRemEdge(from, e)]
  }

  function CommandsOf(ops: seq<Op>): seq<Command> {
    if ops == [] then [] else CommandsOf(ops[..|ops| - 1]) + Commands(ops[|ops| - 1])
  }

  lemma Assoc<T>(a: seq<T>, b: seq<T>, c: seq<T>)
    ensures (a + b) + c == a + (b + c)
  {
  }

  lemma LastOff<T>(xs: seq<T>, ys: seq<T>)
    requires ys != []
    ensures xs + ys == (xs + ys[..|ys| - 1]) + [ys[|ys| - 1]]
    ensures ys == ys[..|ys| - 1] + [ys[|ys| - 1]]
  {
  }

  lemma CommandsSnoc(xs: seq<Op>, op: Op)
    ensures CommandsOf(xs + [op]) == CommandsOf(xs) + Commands(op)
  {
    assert (xs + [op])[..|xs|] == xs;
  }

  lemma ConcatSnoc(xs: seq<Op>, ys: seq<Op>, op: Op)
    requires CommandsOf(xs + ys) == CommandsOf(xs) + CommandsOf(ys)
    ensures CommandsOf((xs + ys) + [op]) == CommandsOf(xs) + CommandsOf(ys + [op])
  {
    CommandsSnoc(xs + ys, op);
    CommandsSnoc(ys, op);
    Assoc(CommandsOf(xs), CommandsOf(ys), Commands(op));
  }

  lemma {:induction false} CommandsConcat(xs: seq<Op>, ys: seq<Op>)
    ensures CommandsOf(xs + ys) == CommandsOf(xs) + CommandsOf(ys)
  {
    if ys == [] {
      assert xs + ys == xs;
    } else {
      var init, last := ys[..|ys| - 1], ys[|ys| - 1];
      CommandsConcat(xs, init);
      LastOff(xs, ys);
      ConcatSnoc(xs, init, last);
    }
  }

  lemma {:induction false} CommandFromOp(ops: seq<Op>, c: Command)
    requires c in CommandsOf(ops)
    ensures exists op :: op in ops && c in Commands(op)
  {
    if c in CommandsOf(ops[..|ops| - 1]) {
      CommandFromOp(ops[..|ops| - 1], c);
      var op :| op in ops[..|ops| - 1] && c in Commands(op);
      assert op in ops;
    } else {
      assert ops[|ops| - 1] in ops && c in Commands(ops[|ops| - 1]);
    }
  }

  function ApplyOps(ops: seq<Op>, st: Store): Store {
    ApplyAll(CommandsOf(ops), st)
  }

  /** An operation's effect on one fact. */
  function ActOp(op: Op, a: Atom, cell: Cell): Cell {
    match op
    case Upsert(id, kind, name, ms, md) =>
      if a == CoreOf(id) then Hash(Core(id, kind, name, Decimal.Print(ms)))
      else if a == IdMember(id) || a == KindMember(kind, id) then Member
      else if a == MetaOf(id) && md != map[] then
        Fields((if cell.Fields? then cell.fields else map[]) + md)
      else cell
    case Delete(id, kind) =>
      if a == CoreOf(id) || a == MetaOf(id) || (a.EdgeMember? && a.from == id) ||
         a == IdMember(id) || a == KindMember(kind, id) then Absent
      else cell
    case Link(from, e) => if a == EdgeMember(from, e) then Member else cell
    case Unlink(from, e) => if a == EdgeMember(from, e) then Absent else cell
  }

  function ActOps(ops: seq<Op>, a: Atom, cell: Cell): Cell {
    if ops == [] then cell else ActOp(ops[|ops| - 1], a, ActOps(ops[..|ops| - 1], a, cell))
  }

  lemma ActOne(c: Command, a: Atom, cell: Cell)
    ensures ActAll([c], a, cell) == Act(c, a, cell)
  {
    assert [c][..0] == [];
  }

  lemma ActThree(c0: Command, c1: Command, c2: Command, a: Atom, cell: Cell)
    ensures ActAll([c0, c1, c2], a, cell) == Act(c2, a, Act(c1, a, Act(c0, a, cell)))
  {
    assert [c0, c1, c2][..2] == [c0, c1] && [c0, c1][..1] == [c0];
    ActOne(c0, a, cell);
  }

  lemma ActCommands(op: Op, a: Atom, cell: Cell)
    ensures ActAll(Commands(op), a, cell) == ActOp(op, a, cell)
  {
    match op
    case Upsert(id, kind, name, ms, md) =>
      var three := [HSetCore(id, kind, name, ms), SAddKind(kind, id), SAddId(id)];
      ActThree(three[0], three[1], three[2], a, cell);
      if md != map[] {
        ActConcat(three, [HSetMeta(id, md)], a, cell);
        ActOne(HSetMeta(id, md), a, ActAll(three, a, cell));
      } else {
        assert three + [] == three;
      }
    case Delete(id, kind) => ActThree(DelEntity(id), SRemId(id), SRemKind(kind, id), a, cell);
    case Link(from, e) => ActOne(SAddEdge(from, e), a, cell);
    case Unlink(from, e) => ActOne(SRemEdge(from, e), a, cell);
  }

  lemma {:induction false} ActCommandsOf(ops: seq<Op>, a: Atom, cell: Cell)
    ensures ActAll(CommandsOf(ops), a, cell) == ActOps(ops, a, cell)
  {
    if ops != [] {
      var init, last := ops[..|ops| - 1], ops[|ops| - 1];
      ActConcat(CommandsOf(init), Commands(last), a, cell);
      ActCommandsOf(init, a, cell);
      ActCommands(last, a, ActOps(init, a, cell));
    }
  }

  lemma LookOps(ops: seq<Op>, st: Store, a: Atom)
    ensures Look(ApplyOps(ops, st), a) == ActOps(ops, a, Look(st, a))
  {
    LookApplyAll(CommandsOf(ops), st, a);
    ActCommandsOf(ops, a, Look(st, a));
  }

  lemma {:induction false} ActOpsConcat(xs: seq<Op>, ys: seq<Op>, a: Atom, cell: Cell)
    ensures ActOps(xs + ys, a, cell) == ActOps(ys, a, ActOps(xs, a, cell))
  {
    if ys == [] {
      assert xs + ys == xs;
    } else {
      assert (xs + ys)[..|xs + ys| - 1] == xs + ys[..|ys| - 1];
      ActOpsConcat(xs, ys[..|ys| - 1], a, cell);
    }
  }
}
