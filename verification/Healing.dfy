/** Facts that are not what they should be, because a batch of the buffered writer was lost or the
    server was not empty when the watcher started: which later events set them right. */
module Healing {
  import opened Graph
  import opened GraphStore
  import opened Mapper
  import opened Ownership
  import opened Watcher
  import opened EventEffects
  import opened WatcherRuns
  import opened EdgeRuns

  /** The event writes the edge, whatever it was before. */
  ghost predicate Moves(ev: Event, from: string, e: Edge) {
    Gains(ev, from, e) || Loses(ev, from, e)
  }

  ghost predicate NoneMoves(evs: seq<Event>, from: string, e: Edge) {
    forall ev | ev in evs :: !Moves(ev, from, e)
  }

  lemma NoneMovesSnoc(evs: seq<Event>, ev: Event, from: string, e: Edge)
    ensures NoneMoves(evs + [ev], from, e) <==> NoneMoves(evs, from, e) && !Moves(ev, from, e)
  {
  }

  ghost predicate Moved(evs: seq<Event>, n: nat, m: nat, from: string, e: Edge)
    requires n <= m <= |evs|
  {
    !NoneMoves(evs[n..m], from, e)
  }

  lemma MovedNext(evs: seq<Event>, n: nat, m: nat, m': nat, from: string, e: Edge)
    requires n <= m < |evs| && m' == m + 1
    ensures Moved(evs, n, m', from, e) <==> Moved(evs, n, m, from, e) || Moves(evs[m], from, e)
  {
    assert evs[n..m'] == evs[n..m] + [evs[m]];
    NoneMovesSnoc(evs[n..m], evs[m], from, e);
  }

  lemma SinceNext(opss: seq<seq<Op>>, n: nat, m: nat, m': nat, a: Atom, cell: Cell)
    requires n <= m < |opss| && m' == m + 1
    ensures From(opss[n..m'], a, cell) == ActOps(opss[m], a, From(opss[n..m], a, cell))
  {
    FromSnoc(opss[n..m'], a, cell);
    assert opss[n..m'][..m - n] == opss[n..m];
  }

  /** From `n` on, an edge keeps what it was until an event writes it, and forgets it then. */
  lemma {:induction false} EdgeSince(evs: seq<Event>, opss: seq<seq<Op>>, n: nat, m: nat, from: string, e: Edge,
                                     cell: Cell)
    requires History(evs, opss) && n <= m <= |evs|
    ensures var at := EdgeMember(from, e);
            if Moved(evs, n, m, from, e) then From(opss[n..m], at, cell) == From(opss[n..m], at, Absent)
            else From(opss[n..m], at, cell) == cell
    decreases m
  {
    var at := EdgeMember(from, e);
    if n < m {
      var before := m - 1;
      EdgeSince(evs, opss, n, before, from, e, cell);
      SinceNext(opss, n, before, m, at, cell);
      SinceNext(opss, n, before, m, at, Absent);
      MovedNext(evs, n, before, m, from, e);
      EventAt(evs, opss, before);
      BothAfterEvent(LiveAfter(evs[..before]), evs[before], opss[before], from, e,
                     From(opss[n..before], at, cell), From(opss[n..before], at, Absent));
    }
  }

  lemma BothAfterEvent(live: Live, ev: Event, ops: seq<Op>, from: string, e: Edge, x: Cell, y: Cell)
    requires Happens(live, ev, ops)
    ensures var at := EdgeMember(from, e);
            if Moves(ev, from, e) then ActOps(ops, at, x) == ActOps(ops, at, y)
            else ActOps(ops, at, x) == x && ActOps(ops, at, y) == y
  {
    EdgeAfterEvent(live, ev, ops, from, e, x);
    EdgeAfterEvent(live, ev, ops, from, e, y);
  }

  /** Whatever went wrong before, an edge reads at `m` as if nothing had, if and only if some event
      since gained or lost it. */
  lemma EdgeHealsIff(evs: seq<Event>, opss: seq<seq<Op>>, n: nat, m: nat, from: string, e: Edge)
    requires History(evs, opss) && n <= m <= |evs|
    ensures From(opss[n..m], EdgeMember(from, e), Member) == From(opss[n..m], EdgeMember(from, e), Absent) <==>
            Moved(evs, n, m, from, e)
  {
    EdgeSince(evs, opss, n, m, from, e, Member);
    EdgeSince(evs, opss, n, m, from, e, Absent);
  }

  // ----- entities

  /** The event stores the entity or drops it, whatever it was before. */
  ghost predicate Settles(ev: Event, id: string) {
    HasEntity(Wanted(ev), id) || Dropped(Believed(ev), Wanted(ev), id)
  }

  ghost predicate NoneSettles(evs: seq<Event>, id: string) {
    forall ev | ev in evs :: !Settles(ev, id)
  }

  lemma NoneSettlesSnoc(evs: seq<Event>, ev: Event, id: string)
    ensures NoneSettles(evs + [ev], id) <==> NoneSettles(evs, id) && !Settles(ev, id)
  {
  }

  ghost predicate Settled(evs: seq<Event>, n: nat, m: nat, id: string)
    requires n <= m <= |evs|
  {
    !NoneSettles(evs[n..m], id)
  }

  lemma SettledNext(evs: seq<Event>, n: nat, m: nat, m': nat, id: string)
    requires n <= m < |evs| && m' == m + 1
    ensures Settled(evs, n, m', id) <==> Settled(evs, n, m, id) || Settles(evs[m], id)
  {
    assert evs[n..m'] == evs[n..m] + [evs[m]];
    NoneSettlesSnoc(evs[n..m], evs[m], id);
  }

  lemma EntityAfterEvent(live: Live, ev: Event, ops: seq<Op>, id: string, at: Atom, x: Cell, y: Cell)
    requires Happens(live, ev, ops) && Presence(at, id)
    ensures if Settles(ev, id) then ActOps(ops, at, x) != Absent <==> ActOps(ops, at, y) != Absent
            else ActOps(ops, at, x) == x && ActOps(ops, at, y) == y
  {
    EventBelongs(live, ev);
    IssuesTurn(live, ev, ops);
    EntityAfterTurn(Believed(ev), Wanted(ev), ops, id, at, x);
    EntityAfterTurn(Believed(ev), Wanted(ev), ops, id, at, y);
  }

  lemma {:induction false} EntitySince(evs: seq<Event>, opss: seq<seq<Op>>, n: nat, m: nat, id: string, at: Atom,
                                       x: Cell, y: Cell)
    requires History(evs, opss) && n <= m <= |evs| && Presence(at, id)
    ensures if Settled(evs, n, m, id) then From(opss[n..m], at, x) != Absent <==> From(opss[n..m], at, y) != Absent
            else From(opss[n..m], at, x) == x && From(opss[n..m], at, y) == y
    decreases m
  {
    if n < m {
      var before := m - 1;
      EntitySince(evs, opss, n, before, id, at, x, y);
      SinceNext(opss, n, before, m, at, x);
      SinceNext(opss, n, before, m, at, y);
      SettledNext(evs, n, before, m, id);
      EventAt(evs, opss, before);
      EntityAfterEvent(LiveAfter(evs[..before]), evs[before], opss[before], id, at,
                       From(opss[n..before], at, x), From(opss[n..before], at, y));
    }
  }

  /** Whatever went wrong before, an entity is there at `m`, core and index, as if nothing had, if
      and only if some event since implied or dropped it; a resync of its object is enough. */
  lemma EntityHealsIff(evs: seq<Event>, opss: seq<seq<Op>>, n: nat, m: nat, id: string, at: Atom)
    requires History(evs, opss) && n <= m <= |evs| && Presence(at, id)
    ensures (forall x, y :: From(opss[n..m], at, x) != Absent <==> From(opss[n..m], at, y) != Absent) <==>
            Settled(evs, n, m, id)
  {
    forall x, y
      ensures if Settled(evs, n, m, id) then From(opss[n..m], at, x) != Absent <==> From(opss[n..m], at, y) != Absent
              else From(opss[n..m], at, x) == x && From(opss[n..m], at, y) == y
    {
      EntitySince(evs, opss, n, m, id, at, x, y);
    }
    if forall x, y :: From(opss[n..m], at, x) != Absent <==> From(opss[n..m], at, y) != Absent {
      assert From(opss[n..m], at, Member) != Absent <==> From(opss[n..m], at, Absent) != Absent;
    }
  }

  /** A resync settles every entity of its object and moves no edge. */
  lemma ResyncMovesNothing(o: Object, sets: Lister, from: string, e: Edge, id: string)
    ensures !Moves(Updated(o, o, sets, sets), from, e)
    ensures HasEntity(DesireNow(o, sets), id) ==> Settles(Updated(o, o, sets, sets), id)
  {
  }
}
