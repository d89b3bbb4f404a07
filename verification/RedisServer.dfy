/** The server both writers talk to: a command interpreter whose pipelines may fail. */
module RedisServer {
  import opened GraphStore

  /** The positions `at` pick the commands `xs` out of `ys`, in order. */
  ghost predicate Picks(at: seq<int>, xs: seq<Command>, ys: seq<Command>) {
    && |at| == |xs|
    && (forall i | 0 <= i < |at| :: 0 <= at[i] < |ys| && xs[i] == ys[at[i]])
    && (forall i, j | 0 <= i < j < |at| :: at[i] < at[j])
  }

  /** `xs` is what remains of `ys` after leaving some commands out. */
  ghost predicate Subsequence(xs: seq<Command>, ys: seq<Command>) {
    exists at :: Picks(at, xs, ys)
  }

  lemma SubsequenceElements(xs: seq<Command>, ys: seq<Command>)
    requires Subsequence(xs, ys)
    ensures forall c | c in xs :: c in ys
  {
    var at :| Picks(at, xs, ys);
    forall c | c in xs ensures c in ys {
      var i :| 0 <= i < |xs| && xs[i] == c;
      assert ys[at[i]] == c;
    }
  }

  lemma SubsequenceKeep(xs: seq<Command>, ys: seq<Command>, c: Command)
    requires Subsequence(xs, ys)
    ensures Subsequence(xs + [c], ys + [c])
    ensures Subsequence(xs, ys + [c])
  {
    var at :| Picks(at, xs, ys);
    var more := at + [|ys|];
    assert Picks(more, xs + [c], ys + [c]);
    assert Picks(at, xs, ys + [c]);
  }

  /** A server is what it held at first and the commands it has executed since. */
  class Redis {
    const initial: Store
    var log: seq<Command>

    constructor (initial: Store)
      ensures this.initial == initial && log == []
    {
      this.initial, log := initial, [];
    }

    function Contents(): Store
      reads this
    {
      ApplyAll(log, initial)
    }

    /** Executes a pipeline. Without an error every command took effect, in order. With an
        error (a timeout, a lost connection, a failing command, a lost reply) an arbitrary
        part of the commands did; it is returned so that specifications can name it. */
    method Exec(cmds: seq<Command>) returns (ok: bool, ghost kept: seq<Command>)
      modifies this
      ensures log == old(log) + kept
      ensures Subsequence(kept, cmds)
      ensures ok ==> kept == cmds
    {
      ok, kept := true, [];
      assert Picks([], [], cmds[..0]);
      for i := 0 to |cmds|
        invariant log == old(log) + kept
        invariant Subsequence(kept, cmds[..i])
        invariant ok ==> kept == cmds[..i]
      {
        var reached: bool := *;
        SubsequenceKeep(kept, cmds[..i], cmds[i]);
        assert cmds[..i + 1] == cmds[..i] + [cmds[i]];
        if reached {
          log := log + [cmds[i]];
          kept := kept + [cmds[i]];
        } else {
          ok := false;
        }
      }
      assert cmds[..|cmds|] == cmds;
      var replied: bool := *;
      ok := ok && replied;
    }
  }
}
