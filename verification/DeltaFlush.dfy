/** WriteDeltaToRedis: only what changed since the previous snapshot is written, in chunked
    pipelines that may fail. */
module DeltaFlush {
  import opened Graph
  import opened GraphStore
  import opened RedisServer
  import opened BatchSet
  import Decimal

  // ----- what a delta flush is supposed to do

  function EdgeOf(k: EdgeKey): Edge {
    Edge(k.kind, k.to, k.action)
  }

  function MetaOfId(s: Snap, id: string): map<string, string> {
    if id in s.metas then s.metas[id] else map[]
  }

  predicate AddedId(s: Snap, p: Snap, id: string) { id in s.entities && id !in p.entities }
  predicate RemovedId(s: Snap, p: Snap, id: string) { id in p.entities && id !in s.entities }
  predicate AddedEdge(s: Snap, p: Snap, k: EdgeKey) { k in s.edges && k !in p.edges }
  predicate RemovedEdge(s: Snap, p: Snap, k: EdgeKey) { k in p.edges && k !in s.edges }

  /** What the store says about one fact after the delta from `p` to `s`, given what it said
      before. Entities and edges in both snapshots are not written, except that removing an
      entity drops its whole edge set. */
  function DeltaCell(s: Snap, p: Snap, now: int, a: Atom, cell: Cell): Cell {
    match a
    case CoreOf(id) =>
      if AddedId(s, p, id) then Hash(Core(id, s.entities[id].kind, s.entities[id].name, Decimal.Print(now)))
      else if RemovedId(s, p, id) then Absent
      else cell
    case MetaOf(id) =>
      if AddedId(s, p, id) && MetaOfId(s, id) != map[] then
        Fields((if cell.Fields? then cell.fields else map[]) + MetaOfId(s, id))
      else if RemovedId(s, p, id) then Absent
      else cell
    case IdMember(id) =>
      if AddedId(s, p, id) then Member else if RemovedId(s, p, id) then Absent else cell
    case KindMember(kind, id) =>
      if AddedId(s, p, id) && kind == s.entities[id].kind then Member
      else if RemovedId(s, p, id) && kind == p.entities[id].kind then Absent
      else cell
    case EdgeMember(from, e) =>
      if AddedEdge(s, p, Key(from, e)) then Member
      else if RemovedEdge(s, p, Key(from, e)) || RemovedId(s, p, from) then Absent
      else cell
  }

  /** The whole delta took effect. */
  ghost predicate FullDelta(s: Snap, p: Snap, now: int, before: Store, after: Store) {
    forall a :: Look(after, a) == DeltaCell(s, p, now, a, Look(before, a))
  }

  function AddOp(s: Snap, now: int, id: string): Op
    requires id in s.entities
  {
    Upsert(id, s.entities[id].kind, s.entities[id].name, now, MetaOfId(s, id))
  }

  function RemoveOp(p: Snap, id: string): Op
    requires id in p.entities
  {
    Delete(id, p.entities[id].kind)
  }

  /** An operation that the delta from `p` to `s` contains. */
  predicate DeltaOp(s: Snap, p: Snap, now: int, op: Op) {
    match op
    case Upsert(id, _, _, _, _) => AddedId(s, p, id) && op == AddOp(s, now, id)
    case Delete(id, _) => RemovedId(s, p, id) && op == RemoveOp(p, id)
    case Link(from, e) => AddedEdge(s, p, Key(from, e))
    case Unlink(from, e) => RemovedEdge(s, p, Key(from, e))
  }

  ghost predicate FromDelta(s: Snap, p: Snap, now: int, c: Command) {
    exists op :: DeltaOp(s, p, now, op) && c in Commands(op)
  }

  /** Some commands of the delta took effect and nothing else did. */
  ghost predicate PartialDelta(s: Snap, p: Snap, now: int, before: Store, after: Store) {
    exists kept: seq<Command> ::
      after == ApplyAll(kept, before) && forall c | c in kept :: FromDelta(s, p, now, c)
  }

  // ----- any order of each phase has the same effect

  // What a phase makes of a fact once it has handled every key outside `todo`.

  function AddsCell(s: Snap, p: Snap, now: int, todo: set<string>, a: Atom, cell: Cell): Cell {
    if !a.EdgeMember? && AddedId(s, p, a.id) && a.id !in todo then ActOp(AddOp(s, now, a.id), a, cell) else cell
  }

  function RemovesCell(s: Snap, p: Snap, todo: set<string>, a: Atom, cell: Cell): Cell {
    var id := if a.EdgeMember? then a.from else a.id;
    if RemovedId(s, p, id) && id !in todo then ActOp(RemoveOp(p, id), a, cell) else cell
  }

  function LinksCell(s: Snap, p: Snap, todo: set<EdgeKey>, a: Atom, cell: Cell): Cell {
    if a.EdgeMember? && AddedEdge(s, p, Key(a.from, a.edge)) && Key(a.from, a.edge) !in todo then Member else cell
  }

  function UnlinksCell(s: Snap, p: Snap, todo: set<EdgeKey>, a: Atom, cell: Cell): Cell {
    if a.EdgeMember? && RemovedEdge(s, p, Key(a.from, a.edge)) && Key(a.from, a.edge) !in todo then Absent else cell
  }

  // The commands issued in a phase have exactly that effect.

  ghost predicate Adds(s: Snap, p: Snap, now: int, todo: set<string>, cs: seq<Command>) {
    forall a, cell :: ActAll(cs, a, cell) == AddsCell(s, p, now, todo, a, cell)
  }

  ghost predicate Removes(s: Snap, p: Snap, todo: set<string>, cs: seq<Command>) {
    forall a, cell :: ActAll(cs, a, cell) == RemovesCell(s, p, todo, a, cell)
  }

  ghost predicate Links(s: Snap, p: Snap, todo: set<EdgeKey>, cs: seq<Command>) {
    forall a, cell :: ActAll(cs, a, cell) == LinksCell(s, p, todo, a, cell)
  }

  ghost predicate Unlinks(s: Snap, p: Snap, todo: set<EdgeKey>, cs: seq<Command>) {
    forall a, cell :: ActAll(cs, a, cell) == UnlinksCell(s, p, todo, a, cell)
  }

  lemma ActMore(cs: seq<Command>, op: Op, a: Atom, cell: Cell)
    ensures ActAll(cs + Commands(op), a, cell) == ActOp(op, a, ActAll(cs, a, cell))
  {
    ActConcat(cs, Commands(op), a, cell);
    ActCommands(op, a, ActAll(cs, a, cell));
  }

  lemma AddsOne(s: Snap, p: Snap, now: int, todo: set<string>, cs: seq<Command>, id: string)
    requires Adds(s, p, now, todo, cs) && id in todo
    ensures AddedId(s, p, id) ==> Adds(s, p, now, todo - {id}, cs + Commands(AddOp(s, now, id)))
    ensures !AddedId(s, p, id) ==> Adds(s, p, now, todo - {id}, cs)
  {
    if AddedId(s, p, id) {
      forall a, cell
        ensures ActAll(cs + Commands(AddOp(s, now, id)), a, cell) == AddsCell(s, p, now, todo - {id}, a, cell)
      {
        ActMore(cs, AddOp(s, now, id), a, cell);
      }
    }
  }

  lemma RemovesOne(s: Snap, p: Snap, todo: set<string>, cs: seq<Command>, id: string)
    requires Removes(s, p, todo, cs) && id in todo
    ensures RemovedId(s, p, id) ==> Removes(s, p, todo - {id}, cs + Commands(RemoveOp(p, id)))
    ensures !RemovedId(s, p, id) ==> Removes(s, p, todo - {id}, cs)
  {
    if RemovedId(s, p, id) {
      forall a, cell
        ensures ActAll(cs + Commands(RemoveOp(p, id)), a, cell) == RemovesCell(s, p, todo - {id}, a, cell)
      {
        ActMore(cs, RemoveOp(p, id), a, cell);
      }
    }
  }

  lemma LinksOne(s: Snap, p: Snap, todo: set<EdgeKey>, cs: seq<Command>, k: EdgeKey)
    requires Links(s, p, todo, cs) && k in todo
    ensures AddedEdge(s, p, k) ==> Links(s, p, todo - {k}, cs + Commands(Link(k.from, EdgeOf(k))))
    ensures !AddedEdge(s, p, k) ==> Links(s, p, todo - {k}, cs)
  {
    if AddedEdge(s, p, k) {
      forall a, cell
        ensures ActAll(cs + Commands(Link(k.from, EdgeOf(k))), a, cell) == LinksCell(s, p, todo - {k}, a, cell)
      {
        ActMore(cs, Link(k.from, EdgeOf(k)), a, cell);
      }
    }
  }

  lemma UnlinksOne(s: Snap, p: Snap, todo: set<EdgeKey>, cs: seq<Command>, k: EdgeKey)
    requires Unlinks(s, p, todo, cs) && k in todo
    ensures RemovedEdge(s, p, k) ==> Unlinks(s, p, todo - {k}, cs + Commands(Unlink(k.from, EdgeOf(k))))
    ensures !RemovedEdge(s, p, k) ==> Unlinks(s, p, todo - {k}, cs)
  {
    if RemovedEdge(s, p, k) {
      forall a, cell
        ensures ActAll(cs + Commands(Unlink(k.from, EdgeOf(k))), a, cell) == UnlinksCell(s, p, todo - {k}, a, cell)
      {
        ActMore(cs, Unlink(k.from, EdgeOf(k)), a, cell);
      }
    }
  }

  /** The four phases one after the other make the full delta, whatever the iteration order
      inside each of them. */
  lemma PhasesMakeDelta(s: Snap, p: Snap, now: int, before: Store,
                        adds: seq<Command>, removes: seq<Command>, links: seq<Command>, unlinks: seq<Command>)
    requires Adds(s, p, now, {}, adds) && Removes(s, p, {}, removes)
    requires Links(s, p, {}, links) && Unlinks(s, p, {}, unlinks)
    ensures FullDelta(s, p, now, before, ApplyAll(adds + removes + links + unlinks, before))
  {
    var all := adds + removes + links + unlinks;
    forall a ensures Look(ApplyAll(all, before), a) == DeltaCell(s, p, now, a, Look(before, a)) {
      LookApplyAll(all, before, a);
      PhasesCell(s, p, now, adds, removes, links, unlinks, a, Look(before, a));
    }
  }

  lemma PhasesCell(s: Snap, p: Snap, now: int,
                   adds: seq<Command>, removes: seq<Command>, links: seq<Command>, unlinks: seq<Command>, a: Atom,
                   cell: Cell)
    requires Adds(s, p, now, {}, adds) && Removes(s, p, {}, removes)
    requires Links(s, p, {}, links) && Unlinks(s, p, {}, unlinks)
    ensures ActAll(adds + removes + links + unlinks, a, cell) == DeltaCell(s, p, now, a, cell)
  {
    ActConcat(adds + removes + links, unlinks, a, cell);
    ActConcat(adds + removes, links, a, cell);
    ActConcat(adds, removes, a, cell);
    var c1 := AddsCell(s, p, now, {}, a, cell);
    var c2 := RemovesCell(s, p, {}, a, c1);
    var c3 := LinksCell(s, p, {}, a, c2);
    assert ActAll(adds, a, cell) == c1 && ActAll(removes, a, c1) == c2;
    assert ActAll(links, a, c2) == c3 && ActAll(unlinks, a, c3) == UnlinksCell(s, p, {}, a, c3);
  }

  // ----- the chunked pipeline

  /** The local variables `pipe`, `n` and `st.Commands` of a flush, with its two closures.
      Ghost fields record what was issued and the batches it was sent in. */
  class Pipe {
    const redis: Redis
    const chunk: nat
    var cmds: seq<Command>
    var n: nat
    var commands: nat
    ghost const start: seq<Command>       // the server's log when the flush began
    ghost var issued: seq<Command>        // every command appended so far
    ghost var batches: seq<seq<Command>>  // the batches executed so far

    constructor (redis: Redis, chunk: nat)
      requires chunk > 0
      ensures Valid() && this.redis == redis && this.chunk == chunk && start == redis.log
      ensures issued == [] && commands == 0
    {
      this.redis, this.chunk := redis, chunk;
      cmds, n, commands := [], 0, 0;
      start, issued, batches := redis.log, [], [];
      new;
      NoOps();
    }

    /** The server has executed all that was issued but for the buffer; the buffer holds
        whole operations, is counted right and is not full. */
    ghost predicate Valid()
      reads this, redis
    {
      Buffered() && n < chunk
    }

    ghost predicate Buffered()
      reads this, redis
    {
      && Pending(redis.log, cmds, start, issued, batches, chunk)
      && n == |cmds| && commands == |issued| && n < chunk + 4
    }

    /** Executes the buffer. Without an error the server has executed everything issued;
        with an error it has executed some of it. */
    method Flush() returns (ok: bool)
      requires Buffered()
      modifies this, redis
      ensures issued == old(issued) && commands == old(commands)
      ensures ok ==> Valid() && redis.log == start + issued
      ensures !ok ==> SomeOf(issued, start, redis.log, chunk)
    {
      if n == 0 {
        NothingPending(redis.log, cmds, start, issued, batches, chunk);
        return true;
      }
      ghost var kept;
      ghost var before, sent, earlier := redis.log, cmds, batches;
      ok, kept := Send();
      BatchSent(ok, before, sent, start, issued, earlier, chunk, kept, redis.log, cmds, batches);
    }

    /** Hands the buffer to the server and starts a new one, whether or not it went well. */
    method Send() returns (ok: bool, ghost kept: seq<Command>)
      modifies this, redis
      ensures redis.log == old(redis.log) + kept && Subsequence(kept, old(cmds)) && (ok ==> kept == old(cmds))
      ensures cmds == [] && n == 0 && batches == old(batches) + [old(cmds)]
      ensures issued == old(issued) && commands == old(commands)
    {
      ok, kept := redis.Exec(cmds);
      batches := batches + [cmds];
      cmds, n := [], 0;
    }

    /** Appends the commands of one operation and counts them; flushes when the chunk is full.
        `count` is the number the caller announces. */
    method Add(cs: seq<Command>, count: nat, ghost op: Op) returns (ok: bool)
      requires Valid() && cs == Commands(op) && count == |cs|
      modifies this, redis
      ensures issued == old(issued) + cs && commands == old(commands) + |cs|
      ensures old(n) + count < chunk ==> ok && redis.log == old(redis.log)
      ensures ok && old(n) + count >= chunk ==> redis.log == start + issued
      ensures ok ==> Valid()
      ensures !ok ==> SomeOf(issued, start, redis.log, chunk)
    {
      OneMorePending(redis.log, cmds, start, issued, batches, chunk, op);
      issued := issued + cs;
      cmds, n, commands := cmds + cs, n + count, commands + count;
      ok := true;
      if n >= chunk {
        ok := Flush();
      }
    }
  }

  ghost predicate WholeOps(cs: seq<Command>) {
    exists ops :: cs == CommandsOf(ops)
  }

  lemma NoOps()
    ensures WholeOps([])
  {
    assert CommandsOf([]) == [];
  }

  lemma OneMoreOp(cs: seq<Command>, op: Op)
    requires WholeOps(cs)
    ensures WholeOps(cs + Commands(op))
  {
    var ops :| cs == CommandsOf(ops);
    CommandsSnoc(ops, op);
  }

  /** Batches hold whole operations and stay below the chunk size plus one operation. */
  ghost predicate BatchesFit(batches: seq<seq<Command>>, chunk: nat) {
    forall b | b in batches :: 0 < |b| < chunk + 4 && WholeOps(b)
  }

  /** Since `start`, the server has executed the first commands of `issued`, in order, and an
      arbitrary part of the rest, in order: the rest is one batch of whole operations. */
  ghost predicate SomeOf(issued: seq<Command>, start: seq<Command>, log: seq<Command>, chunk: nat) {
    exists n, kept :: CutShort(issued, start, log, chunk, n, kept)
  }

  ghost predicate CutShort(issued: seq<Command>, start: seq<Command>, log: seq<Command>, chunk: nat, n: int,
                           kept: seq<Command>) {
    && 0 <= n <= |issued| < n + chunk + 4 && WholeOps(issued[n..])
    && log == start + issued[..n] + kept && Subsequence(kept, issued[n..])
  }

  lemma OneMoreBatch(batches: seq<seq<Command>>, b: seq<Command>, chunk: nat)
    requires BatchesFit(batches, chunk) && 0 < |b| < chunk + 4 && WholeOps(b)
    ensures BatchesFit(batches + [b], chunk)
  {
  }

  lemma AppendNothing<T>(xs: seq<T>, ys: seq<T>)
    requires |ys| == 0
    ensures xs + ys == xs
  {
  }

  /** The server has executed all that was issued since `start` but for the buffer, which holds
      whole operations; the batches sent so far fit. */
  ghost predicate Pending(log: seq<Command>, cmds: seq<Command>, start: seq<Command>, issued: seq<Command>,
                          batches: seq<seq<Command>>, chunk: nat) {
    && log + cmds == start + issued && start <= log
    && WholeOps(cmds) && BatchesFit(batches, chunk) && 0 < chunk
  }

  lemma AllExecuted(before: seq<Command>, cmds: seq<Command>, start: seq<Command>, issued: seq<Command>,
                    batches: seq<seq<Command>>, chunk: nat, log: seq<Command>, rest: seq<Command>,
                    batches': seq<seq<Command>>)
    requires Pending(before, cmds, start, issued, batches, chunk) && log == before + cmds && 0 < |cmds| < chunk + 4
    requires rest == [] && batches' == batches + [cmds]
    ensures log == start + issued && Pending(log, rest, start, issued, batches', chunk)
  {
    OneMoreBatch(batches, cmds, chunk);
    NoOps();
  }

  lemma NothingPending(log: seq<Command>, cmds: seq<Command>, start: seq<Command>, issued: seq<Command>,
                       batches: seq<seq<Command>>, chunk: nat)
    requires Pending(log, cmds, start, issued, batches, chunk) && |cmds| == 0
    ensures log == start + issued
  {
    AppendNothing(log, cmds);
  }

  lemma OneMorePending(log: seq<Command>, cmds: seq<Command>, start: seq<Command>, issued: seq<Command>,
                       batches: seq<seq<Command>>, chunk: nat, op: Op)
    requires Pending(log, cmds, start, issued, batches, chunk)
    ensures Pending(log, cmds + Commands(op), start, issued + Commands(op), batches, chunk)
  {
    Assoc(log, cmds, Commands(op));
    Assoc(start, issued, Commands(op));
    OneMoreOp(cmds, op);
  }

  /** Two ways to cut the same sequence. */
  lemma CutTwice<T>(log: seq<T>, cmds: seq<T>, start: seq<T>, issued: seq<T>) returns (n: nat)
    requires log + cmds == start + issued && start <= log
    ensures n <= |issued| && log == start + issued[..n] && cmds == issued[n..]
  {
    n := |issued| - |cmds|;
    assert log == (start + issued)[..|log|] == start + issued[..n];
    assert cmds == (start + issued)[|log|..] == issued[n..];
  }

  lemma SomeExecuted(log: seq<Command>, cmds: seq<Command>, start: seq<Command>, issued: seq<Command>,
                     batches: seq<seq<Command>>, chunk: nat, kept: seq<Command>, log': seq<Command>)
    requires Pending(log, cmds, start, issued, batches, chunk) && |cmds| < chunk + 4
    requires Subsequence(kept, cmds) && log' == log + kept
    ensures SomeOf(issued, start, log', chunk)
  {
    var n := CutTwice(log, cmds, start, issued);
    assert CutShort(issued, start, log', chunk, n, kept);
  }

  lemma BatchSent(ok: bool, before: seq<Command>, cmds: seq<Command>, start: seq<Command>, issued: seq<Command>,
                  batches: seq<seq<Command>>, chunk: nat, kept: seq<Command>, log: seq<Command>, rest: seq<Command>,
                  batches': seq<seq<Command>>)
    requires Pending(before, cmds, start, issued, batches, chunk) && 0 < |cmds| < chunk + 4
    requires log == before + kept && Subsequence(kept, cmds) && (ok ==> kept == cmds)
    requires rest == [] && batches' == batches + [cmds]
    ensures ok ==> log == start + issued && Pending(log, rest, start, issued, batches', chunk)
    ensures !ok ==> SomeOf(issued, start, log, chunk)
  {
    if ok {
      AllExecuted(before, cmds, start, issued, batches, chunk, log, rest, batches');
    } else {
      SomeExecuted(before, cmds, start, issued, batches, chunk, kept, log);
    }
  }
}
