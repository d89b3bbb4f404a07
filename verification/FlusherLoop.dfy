/** The flush closure of runFlusher as a method, tied to the steps of a flusher run. */
module FlusherLoop {
  import opened Wrappers
  import opened GraphStore
  import opened RedisServer
  import opened BatchSet
  import opened DeltaFlush
  import opened WriteDelta
  import opened DeltaFacts
  import opened Flusher
  import opened Receiver
  import opened Deliveries
  import opened Routes
  import opened Derivation

  class FlushLoop {
    const recv: Server
    const redis: Redis
    var previous: BatchWriteSet

    constructor (recv: Server, redis: Redis)
      ensures this.recv == recv && this.redis == redis
      ensures fresh(previous) && previous.Value() == NOTHING
    {
      this.recv, this.redis := recv, redis;
      previous := new BatchWriteSet();
    }

    /** `previous` is never the set that requests are merged into. */
    ghost predicate Valid()
      reads this
    {
      previous != recv.shared
    }

    ghost function Contents(clock: int, doubt: iset<Atom>): World
      reads this, previous, recv.shared, redis
    {
      World(recv.shared.Value(), previous.Value(), None, redis.Contents(), clock, doubt, iset{})
    }

    /** One flush is a snapshot step followed by a successful or a failing flush step, and it
        reports which; `previous` is replaced only on success. `clock` is the time of the latest
        merge, on either side of `now`. */
    method Flush(now: int, ttl: nat, ghost clock: int, ghost doubt: iset<Atom>)
      returns (ok: bool, cutoff: int)
      requires Valid()
      modifies this, recv.shared, redis
      ensures Valid() && cutoff == now - ttl
      ensures IsFlush(old(Contents(clock, doubt)), now, cutoff, ok, Contents(clock, doubt))
    {
      ghost var w0 := Contents(clock, doubt);
      cutoff := now - ttl;
      var snap, _, _ := recv.ExpireAndSnapshot(cutoff);
      ghost var s, p, before := snap.Value(), PrevValue(previous), redis.Contents();
      var st;
      st, ok := WriteDeltaToRedis(snap, redis, 0, now, previous);
      if ok {
        previous := snap;
      }
      FlushSteps(w0, now, cutoff, ok, Contents(clock, doubt), s, p, before, redis.Contents());
    }
  }

  /** `w` goes to `w'`, doubts aside, by the snapshot step and then a successful or a failing
      flush step, both possible. */
  ghost predicate IsFlush(w: World, now: int, cutoff: int, ok: bool, w': World) {
    EndsWith(w, TakeSnapshot(now, cutoff), if ok then FlushOk(w'.store) else FlushFailed(w'.store), w')
  }

  ghost predicate EndsWith(w: World, taken: Step, end: Step, w': World) {
    Possible(AnyName, w, [taken, end]) && Run(w, [taken, end]) == w'.(doubt := Run(w, [taken, end]).doubt)
  }

  /** Every request is an export step that runs allow, whatever it contains; with names that
      follow from IDs when it is free of stray slashes. */
  lemma RequestsAreExports(w: World, request: seq<Resource>, parse: UrlParser, now: int)
    requires w.clock <= now
    ensures Enabled(AnyName, w, Export(DerivedRequest(NOTHING, request, parse), now))
    ensures SlashFreeRequest(request, parse) ==>
              Enabled(NameOf(NameFromId), w, Export(DerivedRequest(NOTHING, request, parse), now))
  {
    RequestLocal(request, parse);
    if SlashFreeRequest(request, parse) {
      RequestNamed(request, parse);
    }
  }

  /** What the two steps of an undisturbed flush amount to. */
  lemma FlushSteps(w: World, now: int, cutoff: int, ok: bool, w': World, s: Snap, p: Snap, before: Store, after: Store)
    requires ok ==> FullDelta(s, p, now, before, after)
    requires !ok ==> PartialDelta(s, p, now, before, after)
    requires w.flight == None && w.previous == p && w.store == before
    requires s == Expired(w.shared, cutoff) == w'.shared && w'.previous == (if ok then s else p) && w'.store == after
    requires w'.flight == None && w'.clock == w.clock && w'.stirred == iset{}
    ensures IsFlush(w, now, cutoff, ok, w')
  {
    var taken := TakeSnapshot(now, cutoff);
    var end := if ok then FlushOk(w'.store) else FlushFailed(w'.store);
    TwoSteps(w, taken, end);
    if !ok {
      assert Enabled(AnyName, Next(w, taken), end);
    }
  }

  lemma TwoSteps(w: World, s1: Step, s2: Step)
    ensures Run(w, [s1, s2]) == Next(Next(w, s1), s2)
    ensures Possible(AnyName, w, [s1, s2]) <==> Enabled(AnyName, w, s1) && Enabled(AnyName, Next(w, s1), s2)
  {
    assert [s1, s2][..1] == [s1] && [s1][..0] == [];
    assert Run(w, [s1]) == Next(w, s1);
    assert Possible(AnyName, w, [s1]) <==> Enabled(AnyName, w, s1) by {
      assert Possible(AnyName, w, []) && Run(w, []) == w;
    }
  }
}
