/** The watcher's write path: operations are appended whole to a buffer that is executed as
    one pipeline when it is full, on a ticker, and on close. */
module RedisWriter {
  import opened Graph
  import opened GraphStore
  import opened RedisServer
  import opened DeltaFlush

  const DEFAULT_BATCH := 1000

  class Writer {
    const redis: Redis
    const batchSize: nat
    var pipe: seq<Command>
    var n: nat
    var warnings: nat              // flush failures, which are only logged
    var closed: bool
    ghost var ops: seq<Op>         // every operation issued, in order
    ghost var sent: seq<Command>   // the batches executed so far, one after the other

    constructor (redis: Redis, batchSize: int)
      ensures Valid() && this.redis == redis && ops == [] && !closed
      ensures this.batchSize == if batchSize <= 0 then 1000 else batchSize
    {
      this.redis, this.batchSize := redis, if batchSize <= 0 then DEFAULT_BATCH else batchSize;
      pipe, n, warnings, closed, ops, sent := [], 0, 0, false, [], [];
      new;
      NoOps();
    }

    /** Executed batches followed by the buffer are the operations issued, the buffer holds
        whole operations, and `n` counts it. */
    ghost predicate Valid()
      reads this
    {
      Accounted(ops, sent, pipe) && n == |pipe| && n < batchSize
    }

    /** The part of the buffer that a flush executes: all of it, or on failure an arbitrary
        part. A failed batch is logged and dropped. */
    method FlushLocked()
      requires Accounted(ops, sent, pipe) && n == |pipe| && n < batchSize + 4 && batchSize > 0
      modifies this, redis
      ensures Valid() && n == 0 && ops == old(ops) && closed == old(closed)
      ensures pipe == [] && sent == old(sent) + old(pipe)
      ensures Delivered(old(sent), sent, old(redis.log), redis.log, warnings == old(warnings), batchSize)
    {
      if n == 0 {
        NothingDelivered(sent, redis.log, batchSize);
        AppendNothing(sent, pipe);
        return;
      }
      ghost var before, kept := redis.log, [];
      var ok;
      ok, kept := redis.Exec(pipe);
      BatchDelivered(sent, pipe, before, kept, ok, batchSize, ops);
      if !ok {
        warnings := warnings + 1;
      }
      sent := sent + pipe;
      pipe, n := [], 0;
    }

    /** The ticker's flush. */
    method Flush()
      requires Valid()
      modifies this, redis
      ensures Valid() && n == 0 && ops == old(ops) && closed == old(closed)
      ensures pipe == [] && sent == old(sent) + old(pipe)
      ensures Delivered(old(sent), sent, old(redis.log), redis.log, warnings == old(warnings), batchSize)
    {
      FlushLocked();
    }

    /** Safe to call repeatedly: only the first call flushes. */
    method Close()
      requires Valid()
      modifies this, redis
      ensures Valid() && closed && ops == old(ops)
      ensures !old(closed) ==> pipe == [] && sent == old(sent) + old(pipe)
      ensures old(closed) ==> pipe == old(pipe) && sent == old(sent) && redis.log == old(redis.log)
      ensures Delivered(old(sent), sent, old(redis.log), redis.log, warnings == old(warnings), batchSize)
    {
      if !closed {
        closed := true;
        FlushLocked();
      } else {
        NothingDelivered(sent, redis.log, batchSize);
      }
    }

    /** Appends the commands of one operation under the lock, flushing inline when full. */
    method Add(count: nat, cs: seq<Command>, ghost op: Op)
      requires Valid() && cs == Commands(op) && count == |cs|
      modifies this, redis
      ensures Valid() && ops == old(ops) + [op] && closed == old(closed)
      ensures if old(n) + count < batchSize then
                pipe == old(pipe) + cs && sent == old(sent) && redis.log == old(redis.log)
              else pipe == [] && sent == old(sent) + (old(pipe) + cs)
      ensures Delivered(old(sent), sent, old(redis.log), redis.log, warnings == old(warnings), batchSize)
    {
      OneMore(ops, sent, pipe, op);
      ops := ops + [op];
      pipe := pipe + cs;
      n := n + count;
      if n >= batchSize {
        FlushLocked();
      } else {
        NothingDelivered(sent, redis.log, batchSize);
      }
    }

    /** The clock is read once per call; empty metadata values are not written. */
    method UpsertEntity(id: string, kind: string, name: string,
                        metadata: map<string, string>) returns (ghost nowMs: int)
      requires Valid()
      modifies this, redis
      ensures Valid() && closed == old(closed)
      ensures ops == old(ops) + [Upsert(id, kind, name, nowMs, NonEmpty(metadata))]
      ensures Delivered(old(sent), sent, old(redis.log), redis.log, warnings == old(warnings), batchSize)
    {
      var ms: int := *;
      nowMs := ms;
      var args := NonEmpty(metadata);
      var cs, count := [HSetCore(id, kind, name, ms), SAddKind(kind, id), SAddId(id)], 3;
      if |args| > 0 {
        cs, count := cs + [HSetMeta(id, args)], 4;
      }
      Add(count, cs, Upsert(id, kind, name, ms, args));
    }

    method DeleteEntity(id: string, kind: string)
      requires Valid()
      modifies this, redis
      ensures Valid() && closed == old(closed) && ops == old(ops) + [Delete(id, kind)]
      ensures Delivered(old(sent), sent, old(redis.log), redis.log, warnings == old(warnings), batchSize)
    {
      Add(3, [DelEntity(id), SRemId(id), SRemKind(kind, id)], Delete(id, kind));
    }

    method AddEdge(from: string, e: Edge)
      requires Valid()
      modifies this, redis
      ensures Valid() && closed == old(closed) && ops == old(ops) + [Link(from, e)]
      ensures Delivered(old(sent), sent, old(redis.log), redis.log, warnings == old(warnings), batchSize)
    {
      Add(1, [SAddEdge(from, e)], Link(from, e));
    }

    method RemoveEdge(from: string, e: Edge)
      requires Valid()
      modifies this, redis
      ensures Valid() && closed == old(closed) && ops == old(ops) + [Unlink(from, e)]
      ensures Delivered(old(sent), sent, old(redis.log), redis.log, warnings == old(warnings), batchSize)
    {
      Add(1, [SRemEdge(from, e)], Unlink(from, e));
    }
  }

  ghost predicate Accounted(ops: seq<Op>, sent: seq<Command>, pipe: seq<Command>) {
    sent + pipe == CommandsOf(ops) && WholeOps(pipe)
  }

  /** Between two states of a writer at most one batch was executed, holding whole operations
      and fewer than `batchSize + 4` commands; the server received it in full if nothing was
      logged, and in part otherwise. */
  ghost predicate Delivered(sent: seq<Command>, sent': seq<Command>, log: seq<Command>, log': seq<Command>,
                            clean: bool, batchSize: nat) {
    exists batch, kept ::
      sent' == sent + batch && log' == log + kept && Executes(batch, kept, clean, batchSize)
  }

  ghost predicate Executes(batch: seq<Command>, kept: seq<Command>, clean: bool, batchSize: nat) {
    Subsequence(kept, batch) && (clean ==> kept == batch) && WholeOps(batch) && |batch| < batchSize + 4
  }

  lemma NothingDelivered(sent: seq<Command>, log: seq<Command>, batchSize: nat)
    ensures Delivered(sent, sent, log, log, true, batchSize)
  {
    NoOps();
    assert Picks([], [], []);
    AppendNothing(sent, []);
    AppendNothing(log, []);
    assert Executes([], [], true, batchSize);
  }

  lemma BatchDelivered(sent: seq<Command>, pipe: seq<Command>, log: seq<Command>, kept: seq<Command>, ok: bool,
                       batchSize: nat, ops: seq<Op>)
    requires Accounted(ops, sent, pipe) && |pipe| < batchSize + 4
    requires Subsequence(kept, pipe) && (ok ==> kept == pipe)
    ensures Delivered(sent, sent + pipe, log, log + kept, ok, batchSize)
    ensures Accounted(ops, sent + pipe, [])
  {
    assert Executes(pipe, kept, ok, batchSize);
    NoOps();
    AppendNothing(sent + pipe, []);
  }

  lemma OneMore(ops: seq<Op>, sent: seq<Command>, pipe: seq<Command>, op: Op)
    requires Accounted(ops, sent, pipe)
    ensures Accounted(ops + [op], sent, pipe + Commands(op))
  {
    CommandsSnoc(ops, op);
    OneMoreOp(pipe, op);
    Assoc(sent, pipe, Commands(op));
  }

  /** Buffering refines writing directly: as long as nothing is logged, what the server holds
      once the buffer is drained is what it would hold had the operation been executed on the
      spot, after everything issued before it. */
  lemma BufferedRefinesDirect(ops: seq<Op>, sent: seq<Command>, pipe: seq<Command>, log: seq<Command>,
                              sent': seq<Command>, pipe': seq<Command>, log': seq<Command>,
                              op: Op, batchSize: nat, initial: Store)
    requires Accounted(ops, sent, pipe) && Accounted(ops + [op], sent', pipe')
    requires Delivered(sent, sent', log, log', true, batchSize)
    ensures ApplyAll(log' + pipe', initial) == ApplyAll(Commands(op), ApplyAll(log + pipe, initial))
  {
    var batch, kept :| sent' == sent + batch && log' == log + kept && Executes(batch, kept, true, batchSize);
    CommandsSnoc(ops, op);
    assert sent + (batch + pipe') == sent + (pipe + Commands(op)) by {
      Assoc(sent, batch, pipe');
      Assoc(sent, pipe, Commands(op));
    }
    SamePrefix(sent, batch + pipe', pipe + Commands(op));
    Assoc(log, batch, pipe');
    Assoc(log, pipe, Commands(op));
    ApplyConcat(log + pipe, Commands(op), initial);
  }

  lemma SamePrefix<T>(p: seq<T>, x: seq<T>, y: seq<T>)
    requires p + x == p + y
    ensures x == y
  {
    assert x == (p + x)[|p|..] && y == (p + y)[|p|..];
  }
}
