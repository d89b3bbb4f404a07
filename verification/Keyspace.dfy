/** Raw Redis keys underneath the structured store: the five key builders, the four raw
    commands the repository issues, and when the raw keyspace simulates the store.
    `enc` is the JSON text of an edge. */
module Keyspace {
  import opened Wrappers
  import opened Graph
  import opened GraphStore
  import Decimal

  function EntityKey(prefix: string, id: string): string { prefix + ":entity:" + id }
  function MetadataKey(prefix: string, id: string): string { prefix + ":entity:" + id + ":metadata" }
  function EdgesKey(prefix: string, id: string): string { prefix + ":entity:" + id + ":edges" }
  function ByKindKey(prefix: string, kind: string): string { prefix + ":by_kind:" + kind }
  function IdsKey(prefix: string): string { prefix + ":ids" }

  datatype Value = HashV(fields: map<string, string>) | SetV(members: set<string>)

  type Raw = map<string, Value>

  datatype RawCommand =
    | HSet(key: string, fields: map<string, string>)
    | SAdd(key: string, member: string)
    | SRem(key: string, member: string)
    | Del(keys: set<string>)

  function At(raw: Raw, key: string): Option<Value> {
    if key in raw then Some(raw[key]) else None
  }

  /** Redis semantics: a command on a key of the other type fails and changes nothing,
      and a set that loses its last member loses its key. */
  function Run(c: RawCommand, raw: Raw): Raw {
    match c
    case HSet(key, fields) =>
      match At(raw, key) {
        case None => raw[key := HashV(fields)]
        case Some(HashV(prior)) => raw[key := HashV(prior + fields)]
        case Some(SetV(_)) => raw
      }
    case SAdd(key, m) =>
      match At(raw, key) {
        case None => raw[key := SetV({m})]
        case Some(SetV(prior)) => raw[key := SetV(prior + {m})]
        case Some(HashV(_)) => raw
      }
    case SRem(key, m) =>
      match At(raw, key) {
        case Some(SetV(prior)) => if prior - {m} == {} then raw - {key} else raw[key := SetV(prior - {m})]
        case _ => raw
      }
    case Del(keys) => raw - keys
  }

  function CoreFields(c: Core): map<string, string> {
    map["id" := c.id, "kind" := c.kind, "name" := c.name, "last_seen_at_ms" := c.lastSeen]
  }

  /** The raw command behind each structured one. */
  function Lower(prefix: string, enc: Edge -> string, c: Command): RawCommand {
    match c
    case HSetCore(id, kind, name, ms) =>
      HSet(EntityKey(prefix, id), CoreFields(Core(id, kind, name, Decimal.Print(ms))))
    case HSetMeta(id, fields) => HSet(MetadataKey(prefix, id), fields)
    case DelEntity(id) => Del({EntityKey(prefix, id), MetadataKey(prefix, id), EdgesKey(prefix, id)})
    case SAddId(id) => SAdd(IdsKey(prefix), id)
    case SRemId(id) => SRem(IdsKey(prefix), id)
    case SAddKind(kind, id) => SAdd(ByKindKey(prefix, kind), id)
    case SRemKind(kind, id) => SRem(ByKindKey(prefix, kind), id)
    case SAddEdge(from, e) => SAdd(EdgesKey(prefix, from), enc(e))
    case SRemEdge(from, e) => SRem(EdgesKey(prefix, from), enc(e))
  }

  function RunAll(prefix: string, enc: Edge -> string, cs: seq<Command>, raw: Raw): Raw {
    if cs == [] then raw
    else Run(Lower(prefix, enc, cs[|cs| - 1]), RunAll(prefix, enc, cs[..|cs| - 1], raw))
  }

  // ----- the correspondence

  function SetValue(members: set<string>): Option<Value> {
    if members == {} then None else Some(SetV(members))
  }

  function CoreValue(st: Store, id: string): Option<Value> {
    if id in st.core then Some(HashV(CoreFields(st.core[id]))) else None
  }

  function MetaValue(st: Store, id: string): Option<Value> {
    if id in st.meta then Some(HashV(st.meta[id])) else None
  }

  function Encoded(enc: Edge -> string, st: Store, id: string): set<string> {
    set p | p in st.edges && p.0 == id :: enc(p.1)
  }

  function OfKind(st: Store, kind: string): set<string> {
    set p | p in st.byKind && p.0 == kind :: p.1
  }

  /** The raw keyspace holds exactly what the store says about the IDs in `d`. */
  ghost predicate Represents(prefix: string, enc: Edge -> string, d: set<string>, raw: Raw, st: Store) {
    && (forall id | id in d :: At(raw, EntityKey(prefix, id)) == CoreValue(st, id))
    && (forall id | id in d :: At(raw, MetadataKey(prefix, id)) == MetaValue(st, id))
    && (forall id | id in d :: At(raw, EdgesKey(prefix, id)) == SetValue(Encoded(enc, st, id)))
    && (forall kind :: At(raw, ByKindKey(prefix, kind)) == SetValue(OfKind(st, kind)))
    && At(raw, IdsKey(prefix)) == SetValue(st.ids)
  }

  /** What is read under the documented keys and hash fields is what the structured store says. */
  lemma ReadByKeys(prefix: string, enc: Edge -> string, d: set<string>, raw: Raw, st: Store, id: string, kind: string)
    requires Represents(prefix, enc, d, raw, st) && id in d
    ensures match At(raw, prefix + ":entity:" + id)
            case None => id !in st.core
            case Some(v) =>
              && id in st.core && v.HashV? && v.fields.Keys == {"id", "kind", "name", "last_seen_at_ms"}
              && v.fields["id"] == st.core[id].id && v.fields["kind"] == st.core[id].kind
              && v.fields["name"] == st.core[id].name && v.fields["last_seen_at_ms"] == st.core[id].lastSeen
    ensures match At(raw, prefix + ":entity:" + id + ":metadata")
            case None => id !in st.meta
            case Some(v) => id in st.meta && v == HashV(st.meta[id])
    ensures forall e | (id, e) in st.edges ::
              var v := At(raw, prefix + ":entity:" + id + ":edges");
              v.Some? && v.value.SetV? && enc(e) in v.value.members
    ensures (kind, id) in st.byKind ==>
              var v := At(raw, prefix + ":by_kind:" + kind); v.Some? && v.value.SetV? && id in v.value.members
    ensures id in st.ids <==> var v := At(raw, prefix + ":ids"); v.Some? && v.value.SetV? && id in v.value.members
  {
    assert MetadataKey(prefix, id) == prefix + ":entity:" + id + ":metadata";
    assert At(raw, EntityKey(prefix, id)) == CoreValue(st, id);
    assert At(raw, EdgesKey(prefix, id)) == SetValue(Encoded(enc, st, id));
    assert At(raw, ByKindKey(prefix, kind)) == SetValue(OfKind(st, kind));
    forall e | (id, e) in st.edges ensures enc(e) in Encoded(enc, st, id) {
      assert enc((id, e).1) in Encoded(enc, st, id);
    }
    if (kind, id) in st.byKind {
      assert (kind, id).1 in OfKind(st, kind);
    }
  }

  ghost predicate Injective(enc: Edge -> string) {
    forall e, f :: enc(e) == enc(f) ==> e == f
  }

  /** A command about entities in `d`; the writers never issue an empty HSET. */
  predicate Within(d: set<string>, c: Command) {
    && (if c.SAddEdge? || c.SRemEdge? then c.from in d else c.id in d)
    && (c.HSetMeta? ==> c.fields != map[])
  }

  predicate Clash(a: string, b: string) {
    a == b + ":metadata" || a == b + ":edges"
  }

  ghost predicate NoClash(d: set<string>) {
    forall a, b | a in d && b in d :: !Clash(a, b)
  }

  // ----- the builders are jointly injective

  lemma Suffix(prefix: string, infix: string, x: string)
    ensures (prefix + infix + x)[|prefix| + |infix|..] == x
  {
  }

  lemma SameStem(prefix: string, a: string, b: string)
    requires prefix + ":entity:" + a == prefix + ":entity:" + b
    ensures a == b
  {
    Suffix(prefix, ":entity:", a);
    Suffix(prefix, ":entity:", b);
  }

  lemma SameTail(a: string, b: string, t: string)
    requires a + t == b + t
    ensures a == b
  {
    assert (a + t)[..|a|] == a && (b + t)[..|b|] == b;
  }

  /** Entity, metadata and edges keys of any two IDs coincide only for the same ID and key
      kind, or when one ID is the other with a reserved suffix. */
  lemma EntityKeysDistinct(prefix: string, a: string, b: string)
    ensures EntityKey(prefix, a) == EntityKey(prefix, b) <==> a == b
    ensures MetadataKey(prefix, a) == MetadataKey(prefix, b) <==> a == b
    ensures EdgesKey(prefix, a) == EdgesKey(prefix, b) <==> a == b
    ensures MetadataKey(prefix, a) != EdgesKey(prefix, b)
    ensures EntityKey(prefix, a) == MetadataKey(prefix, b) <==> a == b + ":metadata"
    ensures EntityKey(prefix, a) == EdgesKey(prefix, b) <==> a == b + ":edges"
  {
    Stem(prefix, b, ":metadata");
    Stem(prefix, b, ":edges");
    if EntityKey(prefix, a) == EntityKey(prefix, b) { SameStem(prefix, a, b); }
    if MetadataKey(prefix, a) == MetadataKey(prefix, b) {
      SameTail(prefix + ":entity:" + a, prefix + ":entity:" + b, ":metadata");
      SameStem(prefix, a, b);
    }
    if EdgesKey(prefix, a) == EdgesKey(prefix, b) {
      SameTail(prefix + ":entity:" + a, prefix + ":entity:" + b, ":edges");
      SameStem(prefix, a, b);
    }
    if EntityKey(prefix, a) == MetadataKey(prefix, b) { SameStem(prefix, a, b + ":metadata"); }
    if EntityKey(prefix, a) == EdgesKey(prefix, b) { SameStem(prefix, a, b + ":edges"); }
    var m, e := MetadataKey(prefix, a), EdgesKey(prefix, b);
    assert m[|m| - 1] == 'a' && e[|e| - 1] == 's';
  }

  lemma Stem(prefix: string, id: string, tail: string)
    ensures prefix + ":entity:" + id + tail == prefix + ":entity:" + (id + tail)
  {
  }

  lemma IndexKeysDistinct(prefix: string, id: string, j: string, k: string)
    ensures ByKindKey(prefix, j) == ByKindKey(prefix, k) <==> j == k
    ensures IdsKey(prefix) !in {EntityKey(prefix, id), MetadataKey(prefix, id), EdgesKey(prefix, id),
                                ByKindKey(prefix, k)}
    ensures ByKindKey(prefix, k) !in {EntityKey(prefix, id), MetadataKey(prefix, id), EdgesKey(prefix, id)}
  {
    Suffix(prefix, ":by_kind:", j);
    Suffix(prefix, ":by_kind:", k);
    var n := |prefix| + 1;
    assert IdsKey(prefix)[n] == 'i' && ByKindKey(prefix, k)[n] == 'b';
    assert EntityKey(prefix, id)[n] == 'e' && MetadataKey(prefix, id)[n] == 'e' && EdgesKey(prefix, id)[n] == 'e';
  }

  // ----- one command

  lemma EncodedStep(enc: Edge -> string, st: Store, c: Command, id: string)
    requires Injective(enc)
    ensures Encoded(enc, Apply(c, st), id) ==
            if c.SAddEdge? && c.from == id then Encoded(enc, st, id) + {enc(c.edge)}
            else if c.SRemEdge? && c.from == id then Encoded(enc, st, id) - {enc(c.edge)}
            else if c.DelEntity? && c.id == id then {}
            else Encoded(enc, st, id)
  {
    var t := Apply(c, st);
    if c.SAddEdge? && c.from == id {
      assert (c.from, c.edge) in t.edges;
      forall x ensures x in Encoded(enc, t, id) <==> x in Encoded(enc, st, id) + {enc(c.edge)} {
        assert x in Encoded(enc, st, id) ==> exists p :: p in st.edges && p.0 == id && enc(p.1) == x && p in t.edges;
      }
    } else if c.SRemEdge? && c.from == id {
      forall x ensures x in Encoded(enc, t, id) <==> x in Encoded(enc, st, id) - {enc(c.edge)} {
        if x in Encoded(enc, st, id) - {enc(c.edge)} {
          var p :| p in st.edges && p.0 == id && enc(p.1) == x;
          assert p in t.edges;
        }
      }
    } else if c.DelEntity? && c.id != id {
      forall x ensures x in Encoded(enc, t, id) <==> x in Encoded(enc, st, id) {
        if x in Encoded(enc, st, id) {
          var p :| p in st.edges && p.0 == id && enc(p.1) == x;
          assert p in t.edges;
        }
      }
    } else if c.SAddEdge? || c.SRemEdge? {
      forall x ensures x in Encoded(enc, t, id) <==> x in Encoded(enc, st, id) {
        if x in Encoded(enc, st, id) {
          var p :| p in st.edges && p.0 == id && enc(p.1) == x;
          assert p in t.edges;
        }
      }
    }
  }

  lemma OfKindStep(st: Store, c: Command, kind: string)
    ensures OfKind(Apply(c, st), kind) ==
            if c.SAddKind? && c.kind == kind then OfKind(st, kind) + {c.id}
            else if c.SRemKind? && c.kind == kind then OfKind(st, kind) - {c.id}
            else OfKind(st, kind)
  {
    var t := Apply(c, st);
    forall x
      ensures x in OfKind(t, kind) <==> (kind, x) in t.byKind
      ensures x in OfKind(st, kind) <==> (kind, x) in st.byKind
    {
    }
  }

  lemma CoreOverwritten(x: Core, y: Core)
    ensures CoreFields(x) + CoreFields(y) == CoreFields(y)
  {
  }

  /** A set key behaves as the set value it stands for. */
  lemma SetKey(raw: Raw, key: string, s: set<string>, m: string)
    requires At(raw, key) == SetValue(s)
    ensures At(Run(SAdd(key, m), raw), key) == SetValue(s + {m})
    ensures At(Run(SRem(key, m), raw), key) == SetValue(s - {m})
  {
    assert s == {} ==> s + {m} == {m} && s - {m} == {};
    assert m in s + {m};
  }

  function Subject(c: Command): string {
    if c.SAddEdge? || c.SRemEdge? then c.from else c.id
  }

  function Filed(c: Command): string {
    if c.SAddKind? || c.SRemKind? then c.kind else ""
  }

  /** The keys a raw command can change. */
  function Keys(c: RawCommand): set<string> {
    if c.Del? then c.keys else {c.key}
  }

  lemma RunElsewhere(c: RawCommand, raw: Raw, key: string)
    requires key !in Keys(c)
    ensures At(Run(c, raw), key) == At(raw, key)
  {
  }

  lemma KeysApart(prefix: string, d: set<string>, c: Command, id: string)
    requires NoClash(d) && Within(d, c) && id in d
    ensures !Clash(id, Subject(c)) && !Clash(Subject(c), id)
  {
  }

  /** Which commands write the keys of an entity. */
  lemma Writers(prefix: string, enc: Edge -> string, d: set<string>, c: Command, id: string)
    requires NoClash(d) && Within(d, c) && id in d
    ensures EntityKey(prefix, id) in Keys(Lower(prefix, enc, c)) <==> (c.HSetCore? || c.DelEntity?) && c.id == id
    ensures MetadataKey(prefix, id) in Keys(Lower(prefix, enc, c)) <==> (c.HSetMeta? || c.DelEntity?) && c.id == id
    ensures EdgesKey(prefix, id) in Keys(Lower(prefix, enc, c)) <==>
            ((c.SAddEdge? || c.SRemEdge?) && c.from == id) || (c.DelEntity? && c.id == id)
  {
    EntityKeysDistinct(prefix, id, Subject(c));
    EntityKeysDistinct(prefix, Subject(c), id);
    KeysApart(prefix, d, c, id);
    IndexKeysDistinct(prefix, id, "", Filed(c));
  }

  lemma CoreStep(prefix: string, enc: Edge -> string, d: set<string>, c: Command, raw: Raw, st: Store, id: string)
    requires NoClash(d) && Within(d, c) && id in d
    requires At(raw, EntityKey(prefix, id)) == CoreValue(st, id)
    ensures At(Run(Lower(prefix, enc, c), raw), EntityKey(prefix, id)) == CoreValue(Apply(c, st), id)
  {
    Writers(prefix, enc, d, c, id);
    if EntityKey(prefix, id) !in Keys(Lower(prefix, enc, c)) {
      RunElsewhere(Lower(prefix, enc, c), raw, EntityKey(prefix, id));
    } else if c.HSetCore? && id in st.core {
      CoreOverwritten(st.core[id], Apply(c, st).core[id]);
    }
  }

  lemma MetaStep(prefix: string, enc: Edge -> string, d: set<string>, c: Command, raw: Raw, st: Store, id: string)
    requires NoClash(d) && Within(d, c) && id in d
    requires At(raw, MetadataKey(prefix, id)) == MetaValue(st, id)
    ensures At(Run(Lower(prefix, enc, c), raw), MetadataKey(prefix, id)) == MetaValue(Apply(c, st), id)
  {
    Writers(prefix, enc, d, c, id);
    if MetadataKey(prefix, id) !in Keys(Lower(prefix, enc, c)) {
      RunElsewhere(Lower(prefix, enc, c), raw, MetadataKey(prefix, id));
    } else if c.HSetMeta? {
      assert map[] + c.fields == c.fields;
    }
  }

  lemma EdgesStep(prefix: string, enc: Edge -> string, d: set<string>, c: Command, raw: Raw, st: Store, id: string)
    requires Injective(enc) && NoClash(d) && Within(d, c) && id in d
    requires At(raw, EdgesKey(prefix, id)) == SetValue(Encoded(enc, st, id))
    ensures At(Run(Lower(prefix, enc, c), raw), EdgesKey(prefix, id)) == SetValue(Encoded(enc, Apply(c, st), id))
  {
    Writers(prefix, enc, d, c, id);
    EncodedStep(enc, st, c, id);
    if EdgesKey(prefix, id) !in Keys(Lower(prefix, enc, c)) {
      RunElsewhere(Lower(prefix, enc, c), raw, EdgesKey(prefix, id));
    } else if !c.DelEntity? {
      SetKey(raw, EdgesKey(prefix, c.from), Encoded(enc, st, c.from), enc(c.edge));
    }
  }

  lemma KindStep(prefix: string, enc: Edge -> string, c: Command, raw: Raw, st: Store, kind: string)
    requires At(raw, ByKindKey(prefix, kind)) == SetValue(OfKind(st, kind))
    ensures At(Run(Lower(prefix, enc, c), raw), ByKindKey(prefix, kind)) == SetValue(OfKind(Apply(c, st), kind))
  {
    IndexKeysDistinct(prefix, Subject(c), Filed(c), kind);
    OfKindStep(st, c, kind);
    if (c.SAddKind? || c.SRemKind?) && c.kind == kind {
      SetKey(raw, ByKindKey(prefix, kind), OfKind(st, kind), c.id);
    } else {
      RunElsewhere(Lower(prefix, enc, c), raw, ByKindKey(prefix, kind));
    }
  }

  lemma IdsStep(prefix: string, enc: Edge -> string, c: Command, raw: Raw, st: Store)
    requires At(raw, IdsKey(prefix)) == SetValue(st.ids)
    ensures At(Run(Lower(prefix, enc, c), raw), IdsKey(prefix)) == SetValue(Apply(c, st).ids)
  {
    IndexKeysDistinct(prefix, Subject(c), Filed(c), Filed(c));
    if c.SAddId? || c.SRemId? {
      SetKey(raw, IdsKey(prefix), st.ids, c.id);
    } else {
      RunElsewhere(Lower(prefix, enc, c), raw, IdsKey(prefix));
    }
  }

  lemma SimulateStep(prefix: string, enc: Edge -> string, d: set<string>, c: Command, raw: Raw, st: Store)
    requires Injective(enc) && NoClash(d) && Within(d, c)
    requires Represents(prefix, enc, d, raw, st)
    ensures Represents(prefix, enc, d, Run(Lower(prefix, enc, c), raw), Apply(c, st))
  {
    var raw', st' := Run(Lower(prefix, enc, c), raw), Apply(c, st);
    forall id | id in d
      ensures At(raw', EntityKey(prefix, id)) == CoreValue(st', id)
      ensures At(raw', MetadataKey(prefix, id)) == MetaValue(st', id)
      ensures At(raw', EdgesKey(prefix, id)) == SetValue(Encoded(enc, st', id))
    {
      CoreStep(prefix, enc, d, c, raw, st, id);
      MetaStep(prefix, enc, d, c, raw, st, id);
      EdgesStep(prefix, enc, d, c, raw, st, id);
    }
    forall kind
      ensures At(raw', ByKindKey(prefix, kind)) == SetValue(OfKind(st', kind))
    {
      KindStep(prefix, enc, c, raw, st, kind);
    }
    IdsStep(prefix, enc, c, raw, st);
  }

  /** Raw Redis simulates the structured store on every command sequence. */
  lemma {:induction false} Simulates(prefix: string,
                                     enc: Edge -> string, d: set<string>, cs: seq<Command>, raw: Raw, st: Store)
    requires Injective(enc) && NoClash(d)
    requires forall c | c in cs :: Within(d, c)
    requires Represents(prefix, enc, d, raw, st)
    ensures Represents(prefix, enc, d, RunAll(prefix, enc, cs, raw), ApplyAll(cs, st))
  {
    if cs != [] {
      var init := cs[..|cs| - 1];
      Simulates(prefix, enc, d, init, raw, st);
      SimulateStep(prefix, enc, d, cs[|cs| - 1], RunAll(prefix, enc, init, raw), ApplyAll(init, st));
    }
  }

  /** A clash shows: two commands on the clashing pair end in different graphs. */
  lemma ClashBreaks(prefix: string,
                    enc: Edge -> string, d: set<string>, a: string, b: string) returns (cs: seq<Command>)
    requires a in d && b in d && Clash(a, b)
    ensures forall c | c in cs :: Within(d, c)
    ensures !Represents(prefix, enc, d, RunAll(prefix, enc, cs, map[]), ApplyAll(cs, EMPTY))
  {
    var fields := map["zone" := "z"];
    var first := if a == b + ":edges" then SAddEdge(b, Edge(Contains, a, "")) else HSetMeta(b, fields);
    var second := HSetCore(a, "", "", 0);
    cs := [first, second];
    assert cs[..1] == [first] && cs[..1][..0] == [];
    EntityKeysDistinct(prefix, a, b);
    var raw1 := Run(Lower(prefix, enc, first), map[]);
    assert RunAll(prefix, enc, [first], map[]) == raw1;
    assert ApplyAll([first], EMPTY) == Apply(first, EMPTY);
    assert ApplyAll(cs, EMPTY).core == map[a := Core(a, "", "", Decimal.Print(0))];
    if a == b + ":metadata" {
      assert At(Run(Lower(prefix, enc, second), raw1), EntityKey(prefix, a)) ==
             Some(HashV(fields + CoreFields(Core(a, "", "", Decimal.Print(0)))));
      assert "zone" in fields + CoreFields(Core(a, "", "", Decimal.Print(0)));
    }
  }

  /** From an empty Redis, every command sequence about the IDs in `d` is simulated exactly
      when no two of them clash. */
  lemma SimulatesIff(prefix: string, enc: Edge -> string, d: set<string>)
    requires Injective(enc)
    ensures NoClash(d) <==>
            forall cs: seq<Command> | (forall c | c in cs :: Within(d, c)) ::
              Represents(prefix, enc, d, RunAll(prefix, enc, cs, map[]), ApplyAll(cs, EMPTY))
  {
    if NoClash(d) {
      forall cs: seq<Command> | forall c | c in cs :: Within(d, c)
        ensures Represents(prefix, enc, d, RunAll(prefix, enc, cs, map[]), ApplyAll(cs, EMPTY))
      {
        Simulates(prefix, enc, d, cs, map[], EMPTY);
      }
    } else {
      var a, b :| a in d && b in d && Clash(a, b);
      var cs := ClashBreaks(prefix, enc, d, a, b);
    }
  }
}
