# Verified model of the OTel / Kubernetes graph store

Two independent programs keep one graph in Redis. One receives span metrics, accumulates
the relationships they carry (endpoints, topics, databases), lets them expire, and every so
often writes the difference to the last successful snapshot. The other follows Kubernetes
informers and turns every event into the difference between what an object implied and what
it implies now. A query side answers breadth-first searches and prunes old entities. This
project models that logic in Dafny and proves what holds of it over whole runs.

Check everything with `dafny verify dfyconfig.toml`.

## How it is organised

The store is read one fact at a time (a core hash, a metadata hash, membership in `:ids`,
membership in a `by_kind` set, one edge). Commands act on facts separately, so every claim
about a run is a claim about an arbitrary fact, and order and failure can be treated exactly:
a failing pipeline is an arbitrary part of its commands having been executed.

| area | modules | main results |
|---|---|---|
| store and commands | `Graph`, `GraphStore`, `Index`, `Keyspace`, `RedisServer`, `Decimal`, `Strings`, `Wrappers` | `Keyspace.SimulatesIff`, `Index.KeepsIndexIff`, `Decimal.ParsePrint` |
| span metrics: accumulate | `Routes`, `Styles`, `Builder`, `Derivation`, `Meanings`, `Emitters`, `EndpointIds`, `Escapes`, `Ingest`, `Deliveries`, `DeliveryFacts`, `Receiver`, `BatchSet`, `Lifetime`, `Coherence` | `Ingest.AttrsIdempotentIff`, `Ingest.ClientMeetsServerIff`, `EndpointIds.NormalCollideIff`, `Lifetime.Membership`, `Coherence.RemovalErasesNoLiveEdge` |
| span metrics: delta flush | `DeltaFlush`, `WriteDelta`, `DeltaFacts`, `Flusher`, `FlusherLoop`, `Retry` | `Flusher.RunsAgree`, `Flusher.RefinesFullWrite`, `Retry.RetryExactIff` |
| watcher | `RedisWriter`, `Mapper`, `Implications`, `References`, `Ownership`, `Desires`, `Watcher`, `EventEffects`, `WatcherRuns`, `Metadata`, `EdgeRuns`, `WatcherLimits`, `Drift`, `Healing` | `EdgeRuns.EdgeFitsIff`, `Drift.PrivateExactIff`, `Healing.EdgeHealsIff` |
| both writers together | `Interleaving`, `AnchoredEdges`, `SystemRuns`, `Wholeness`, `Dangling` | `Interleaving.InterleavingsAgree`, `AnchoredEdges.OrderIrrelevantIff`, `SystemRuns.SystemLastChange`, `Dangling.NeverDanglesIff` |
| queries and pruning | `Reach`, `Query`, `SearchCap`, `Prune`, `Staleness` | `Query.Subgraph`, `SearchCap.CapLosesNothingIff`, `Prune.PruneRetryIff`, `Staleness.PrunedIffAddedBefore` |

Code that updates state is modelled as methods and classes with the loops of the original
(map iteration picks an arbitrary key), each proved against a specification function or
predicate; the run-level lemmas are about those. Preconditions on names say what Kubernetes
guarantees of them: no `/` and no NUL in object, container and topology-label names.

## Where the code and its documentation disagree

The model follows the code.

- `cmd/graph-otel/main.go:156` says that after a failed flush the whole delta is retried. A
  fact that the failed snapshot changed and the next one changed back is not in the next
  delta: `Retry.RetryExactIff` says exactly when the retry is exact, `Retry.FlipBackExists`
  gives one that is not.
- `internal/k8swatch/watcher.go:112-113` calls resync self-healing. Re-delivery heals entities
  and no edge: `WatcherLimits.ResyncHealsNoEdge`; what heals either at all, exactly, is in
  `Healing.EdgeHealsIff` and `Healing.EntityHealsIff`.
- `internal/k8swatch/watcher.go:82-84` says that a deletion drops the edges to the deleted
  object. The pair between a region and a zone is implied by every node of the zone, and
  deleting one node removes it for all: `WatcherLimits.SharedPairLost`, with the exact
  condition in `Drift.SharedExactIff`.
- Pod owners are resolved when an event is handled, for the old and the new object alike
  (`internal/k8swatch/watcher.go:258-260`), so a changed ReplicaSet cache can leave an edge
  behind, even one to a pod that is gone (`Dangling.VanishedSetDangles`).
  `Drift.PrivateExactIff` says over whole histories exactly when the edges are right,
  `Dangling.NeverDanglesIff` exactly when none dangles.
- `internal/graph/redis.go:244` prunes by last-seen time, which deltas do not refresh for
  entities that stay: an entity that is still being seen is pruned if and only if the flush
  that added it was before the cutoff, `Staleness.PrunedIffAddedBefore`, as happens in
  `Staleness.SeenYetPruned`; and no later flush brings it back, `Staleness.PrunedStaysPruned`.
- `internal/builder/endpoints.go:120-122` relies on the service in the ID for uniqueness; with
  slashes two of them can share an ID: `EndpointIds.NormalCollideIff` says exactly which.
- `internal/builder/templatize.go:14` calls the templating of attributes idempotent. For an
  absolute URL the path is decoded each time: by `Ingest.AttrsIdempotentIff` a second application
  changes nothing exactly when that path holds no percent sign, question mark or hash or the
  rebuilt URL is refused; `Ingest.EscapedDigit` gives a URL it changes.
- `internal/graph/redis.go:108` calls a search without a depth unbounded but capped at the
  number of entities. The cap is the number of indexed IDs: `SearchCap.CapLosesNothingIff` says
  exactly when nothing is lost, `SearchCap.CapLosesUnindexed` gives a search that is cut off.
- `internal/graph/batchset.go:61-64` anchors relationship edges on entities of another writer.
  Whether such an edge is stored depends on whether the flusher wrote it before or after the
  deletion of its carrier, and one that is dropped is not written again:
  `AnchoredEdges.OrderIrrelevantIff`, `AnchoredEdges.DroppedStaysDropped`.
- `internal/graph/redis.go:283` ignores the errors of the deleting pipelines, and pruning again
  does not always complete the work: `Prune.PruneRetryIff`, `Prune.LostToTheIndex`.

## Model

| member | source | states |
|---|---|---|
| `Graph.KindOfPrefixed` | internal/graph/interface.go:22-40 | The kind constant an ID builder puts before the first colon is what is read back from the ID, so a kind is a function of the ID. |
| `GraphStore.Extensional` | internal/graph/redis.go:18-25 | A store is determined by five sorts of independent facts: core hash, metadata hash, membership in `:ids`, membership in a `by_kind` set, membership of an edge. |
| `GraphStore.LookApplyAll` | internal/graph/rediswriter.go:114-161 | Any command sequence acts on every fact separately: reading after running it is running its effect on what was read before. |
| `GraphStore.ActCommands` | internal/graph/rediswriter.go:114-161 | The pipeline of one logical operation (upsert, delete, link, unlink), run command by command, has the effect stated for the operation as a whole. |
| `Index.KeepsIndexIff` | internal/graph/rediswriter.go:113-145 | From an exact index, an operation leaves `:ids` and every `by_kind` set exact if and only if the kind it names is the kind the entity is stored under. |
| `Index.RunKeepsIndex` | internal/graph/rediswriter.go:113-145 | Operations that name the kind announced by the ID prefix keep the index exact over whole sequences. |
| `Keyspace.EntityKeysDistinct` | internal/graph/keys.go:13-15 | Core, metadata and edges keys of two IDs coincide only for the same ID and key sort, or when one ID is the other plus a reserved suffix. |
| `Keyspace.IndexKeysDistinct` | internal/graph/keys.go:16-17 | `by_kind` keys are injective in the kind, and index keys never coincide with entity keys or each other. |
| `Keyspace.ReadByKeys` | internal/graph/keys.go:5-17 | What is read under the documented keys and hash fields, written out, is what the structured store says. |
| `Keyspace.EncodedStep` | internal/graph/rediswriter.go:147-161 | With an injective edge encoding, the encoded members of an edge set follow the edges through every command. |
| `Keyspace.Writers` | internal/graph/keys.go:13-17 | Which commands can change each of the three keys of an entity, exactly. |
| `Keyspace.SimulateStep` | internal/graph/keys.go:13-17 | One raw command on correctly represented keys leads to the representation of the structured store after the structured command. |
| `Keyspace.Simulates` | internal/graph/keys.go:13-17 | Raw Redis, with wrong-type failures and vanishing empty sets, simulates the structured store on every command sequence about non-clashing IDs. |
| `Keyspace.ClashBreaks` | internal/graph/keys.go:13-17 | For any two clashing IDs there are two commands after which the raw keys do not represent the store. |
| `Keyspace.SimulatesIff` | internal/graph/keys.go:13-17 | The simulation holds for every command sequence if and only if no ID is another ID followed by `:metadata` or `:edges`. |
| `RedisServer.Redis.Exec` | internal/graph/batchset_redis.go:73-81 | A pipeline without an error executed in full and in order; with an error an arbitrary part of it took effect. |
| `Decimal.ParsePrint` | internal/graph/redis.go:305-323 | Parsing inverts decimal printing on every 64-bit integer, the smallest included. |
| `Decimal.ParseInt64` | internal/graph/redis.go:305-323 | The accumulating loop with every int64 operation wrapped computes the wrapped value of the text, and fails exactly when a character after the optional sign is not a digit. |
| `Decimal.IntermediateValues` | internal/graph/redis.go:312-321 | No accumulator value overflows for magnitudes below 2^63; at 2^63 the last one wraps to the minimum and negation leaves it there. |
| `BatchSet.BatchWriteSet.Upsert` | internal/graph/batchset.go:45-49 | The set afterwards is the old one with this entity, unstamped, and nothing else changed. |
| `BatchSet.BatchWriteSet.AddEdges` | internal/graph/batchset.go:65-69 | The set afterwards is the old one with every listed edge, unstamped, however often it is listed; neither end is upserted and nothing else changes. |
| `BatchSet.BatchWriteSet.SetMetadata` | internal/graph/batchset.go:76-93 | The first sighting with a non-empty value wins, empty values are dropped, later calls change nothing. |
| `BatchSet.BatchWriteSet.Merge` | internal/graph/batchset.go:98-111 | In any iteration order: the union, every merged entry stamped with the merge time, metadata only where missing; a null argument changes nothing. |
| `BatchSet.BatchWriteSet.Expire` | internal/graph/batchset.go:115-130 | In any iteration order exactly the entries older than the cutoff leave, metadata with its entity, and the counts returned are the numbers of departures. |
| `BatchSet.BatchWriteSet.Snapshot` | internal/graph/batchset_redis.go:16-36 | A fresh set with equal contents, sharing nothing with the original. |
| `Lifetime.Membership` | internal/graph/batchset.go:98-130 | Over every history of merges and expiries, without any assumption on times: an entry is in the set if and only if no expiry after its latest merge reaches past that merge, and its last-seen time is that of this merge. |
| `Lifetime.AfterExpiry` | internal/graph/batchset.go:113-130 | With non-decreasing times, right after Expire(c) the set holds exactly what some merge carried at time c or later. |
| `Lifetime.LockOrderIrrelevant` | internal/otlpreceiver/receiver.go:64-75 | Two histories that merged the same sets since the cutoff have the same members after it, so the order in which requests take the lock is irrelevant. |
| `Lifetime.MetadataArrives` | internal/graph/batchset.go:76-93 | The first metadata with a value that is merged for an entity arrives, its empty values left out. |
| `Lifetime.MetadataStays` | internal/graph/batchset.go:70-93 | Over every history it stays as it came, whatever is merged later, until the entity expires. |
| `Lifetime.MetadataGoes` | internal/graph/batchset.go:115-122 | And it goes with the entity. |
| `Coherence.MergeKeepsCoherence` | internal/graph/batchset.go:98-111 | Merging a derived set no earlier than anything seen keeps the invariant: relationship kinds only, each edge paired with its reverse at the same time, anchored on a present entity, each entity as recent as its latest outgoing edge. |
| `Coherence.ExpireKeepsCoherence` | internal/graph/batchset.go:113-130 | Expiry at any cutoff keeps that invariant. |
| `Coherence.EntityLeavesWithItsEdges` | internal/graph/batchset.go:113-130 | Under it, an entity expires exactly when all its outgoing edges do. |
| `Coherence.RemovalErasesNoLiveEdge` | internal/graph/batchset_redis.go:110-122 | Hence the DEL of a removed entity never erases an edge that the new snapshot still has. |
| `DeltaFlush.PhasesMakeDelta` | internal/graph/batchset_redis.go:91-146 | The four phases, each in any iteration order, together have on every fact exactly the effect of the delta between the two snapshots. |
| `DeltaFlush.Pipe.Flush` | internal/graph/batchset_redis.go:73-81 | Without an error everything issued has been executed in order; with one, all of it but the last batch, in order, and an arbitrary part of that batch, in order; a batch is whole operations and fewer than chunk + 4 commands. The buffer is empty again. |
| `DeltaFlush.Pipe.Add` | internal/graph/batchset_redis.go:82-89 | The operation is appended whole, the command statistic is exact, nothing is sent while the buffer stays below the chunk size and all of it otherwise, and batches hold whole operations of fewer than chunk + 4 commands. |
| `WriteDelta.AddedEntities` | internal/graph/batchset_redis.go:91-109 | In any order, whatever the flush points: issues the upserts of exactly the entities missing from the previous snapshot and counts them. |
| `WriteDelta.RemovedEntities` | internal/graph/batchset_redis.go:110-122 | The same for the deletions of entities that are gone. |
| `WriteDelta.AddedEdges` | internal/graph/batchset_redis.go:123-134 | The same for new edges. |
| `WriteDelta.RemovedEdges` | internal/graph/batchset_redis.go:135-146 | The same for edges that are gone. |
| `WriteDelta.WriteDeltaToRedis` | internal/graph/batchset_redis.go:60-151 | For any iteration orders and chunk size: without an error the server has undergone exactly the delta and the statistics balance (new size = old size + added - removed; three commands per entity and one per edge when there is no metadata); with an error the earlier batches arrived whole and in order, and of the last an arbitrary part. |
| `DeltaFacts.FullDeltaAgrees` | internal/graph/batchset_redis.go:91-149 | After a complete flush the store agrees with the new snapshot on every fact the flush rewrites or that agreed with the previous snapshot. |
| `DeltaFacts.MetadataWritten` | internal/graph/batchset_redis.go:102-107 | A complete flush writes every metadata field of every entity it adds and keeps the other fields that were there. |
| `DeltaFacts.CommandConfined` | internal/graph/batchset_redis.go:91-146 | A single command of a delta touches owned facts only, and spoils agreement with the previous snapshot only where the two snapshots differ. |
| `DeltaFacts.PartialDeltaAgrees` | internal/graph/batchset_redis.go:91-149 | A failing flush, whatever part of it was applied, spoils agreement with the previous snapshot only on facts where the two snapshots differ, and leaves every other writer alone. |
| `Flusher.StepIsGood` | cmd/graph-otel/main.go:147-169 | Exports, snapshots, successful and failing flushes and foreign writes, each keep the run invariant: the store agrees with the last flushed snapshot on every owned fact that is not in doubt. |
| `Flusher.RunsAgree` | cmd/graph-otel/main.go:137-182 | In every run, from any server contents, with any failures and any foreign writes, the store agrees with the last successfully flushed snapshot on every owned fact not in doubt. |
| `Flusher.NoDoubt` | cmd/graph-otel/main.go:155-161 | A fact is put in doubt only by a failing flush that differs on it or by a foreign write to it. |
| `Flusher.RefinesFullWrite` | internal/graph/batchset_redis.go:47-51 | Incremental writing refines full writing: an undisturbed fact reads as if the last flushed snapshot had been written in full to an empty server (up to the last-seen field, and the name unless names follow from IDs). |
| `Flusher.FlushesAreConfined` | internal/graph/batchset_redis.go:91-146 | Within runs, flushes, failing or not, change no fact of the other writers. |
| `FlusherLoop.FlushLoop.Flush` | cmd/graph-otel/main.go:147-169 | One call, at whatever time it was started relative to the merges, is a snapshot step followed by a successful or a failing flush step of such a run, as reported, and the previous snapshot is replaced only on success. |
| `FlusherLoop.RequestsAreExports` | internal/otlpreceiver/receiver.go:60-84 | Every request whatsoever derives a set that runs allow to be merged; with slash-free services, methods and systems its names are a function of the IDs. |
| `Retry.RetryHeals` | cmd/graph-otel/main.go:155-161 | After any number of failing flushes and one success, the store is right about every fact on which no failed snapshot differed from the previous one or which the successful flush rewrites. |
| `Retry.FlipBackStays` | cmd/graph-otel/main.go:155-161 | When a fact changed in a failed snapshot and changed back, there is a course of the failures after which the store stays wrong about it. |
| `Retry.RetryExactIff` | cmd/graph-otel/main.go:155-161 | From a store in sync, every possible course of the failures ends in sync with the flushed snapshot if and only if no fact flips back. |
| `Retry.FlipBackExists` | cmd/graph-otel/main.go:155-161 | A topic that only the failed snapshot had can stay on the server for good: a coherent example with a course of its failing flush. |
| `Strings.JoinSplit` | internal/builder/templatize.go:81-92 | Joining the segments a path was split into gives the path back. |
| `Strings.SplitJoin` | internal/builder/templatize.go:81-92 | Splitting a join of slash-free segments gives the segments back. |
| `Strings.BeforeIff` | internal/graph/redis.go:155 | One text comes before another if and only if it begins it, or has the smaller character where they first differ. |
| `Strings.FirstDifference` | internal/graph/redis.go:155 | So texts that share a beginning compare by the next character, and a proper beginning comes first. |
| `Routes.TemplatizePathLoop` | internal/builder/templatize.go:77-93 | The rewriting loop with its early returns computes the segment-wise rewriting. |
| `Routes.NormalizeRouteLoop` | internal/builder/endpoints.go:163-182 | The rewriting loop with its early returns computes the rooted segment-wise rewriting. |
| `Routes.TemplatizeKeepsSegments` | internal/builder/templatize.go:76-93 | The rewriting keeps the number of segments, changes exactly the all-digit ones, each to {n}, and no other. |
| `Routes.NormalizeKeepsSegments` | internal/builder/endpoints.go:160-182 | The same for routes, where placeholders in any of the three styles are rewritten too. |
| `Styles.NormalizedSegments` | internal/builder/endpoints.go:153-195 | A segment of a route becomes {n} if and only if it is written :x, {x} or <x> with a non-empty x, or is a non-empty text of the digits 0 to 9; every other segment stays, and a missing leading slash is added. |
| `Styles.EveryStyleMeets` | internal/builder/endpoints.go:153-158 | For every name in each of the three styles, and for every printed number, the route normalizes as with {n} in that place. |
| `Styles.TemplatedSegments` | internal/builder/templatize.go:76-93 | A segment of a path becomes {n} if and only if it is a non-empty text of digits; every other one stays. |
| `Routes.TemplatizeIdempotent` | internal/builder/templatize.go:76 | A second application changes nothing. |
| `Routes.NormalizeIdempotent` | internal/builder/endpoints.go:160-162 | A second application changes nothing. |
| `Routes.SpanNameIdempotent` | internal/builder/templatize.go:55-74 | Span names are templatized idempotently, so doing it at ingest and again for the database action is harmless. |
| `Routes.NormalizeAbsorbsTemplatize` | internal/builder/endpoints.go:153-162 | Numeric templating at ingest is absorbed by route normalization, for every path. |
| `Routes.NormalizeEqualIff` | internal/builder/endpoints.go:153-182 | Two routes normalize to the same text if and only if they have equally many segments and agree at every position up to placeholders and numbers. |
| `Builder.AddRelationship` | internal/builder/builder.go:59-66 | The set gains the relationship entity and the edge pair, and no entity for the emitter. |
| `Builder.DeriveEndpointEdges` | internal/builder/endpoints.go:40-101 | The set gains exactly the endpoint relationship the record is about, if it is about one. |
| `Builder.ServiceAndRoute` | internal/builder/endpoints.go:59-96 | Finds the route and the owning or called service by the order of precedence of server and client records, or neither. |
| `Builder.DeriveTopicEdges` | internal/builder/topics.go:29-52 | The same for topics, published or consumed. |
| `Builder.DeriveDatabaseEdges` | internal/builder/databases.go:28-52 | The same for databases, with the templatized span name as action. |
| `Builder.Derive` | internal/builder/builder.go:30-53 | A record without a pod and namespace changes nothing and is reported as unusable; otherwise the three relationships are added in turn. |
| `Emitters.EmitterIsWatchers` | internal/builder/builder.go:29-46 | The emitter of a record is, in the watcher's IDs, the container it names, or else its pod; nobody exactly when the pod or the namespace is missing. |
| `Emitters.EmitterIsImplied` | internal/builder/builder.go:35-46 | For every pod object of that namespace and name, and every container of it the record names, the emitter is an entity that the watcher's mapping of the pod implies, whatever its owner. |
| `Emitters.EmitterOnServer` | internal/builder/builder.go:35-46 | In any interleaving of all writers, while the pod is alive, the entity its records hang their edges on is stored. |
| `Meanings.AboutIff` | internal/builder/endpoints.go:23-128 | A record is about exactly these relationships, by how its attributes are written: the endpoint a server exposes or a client calls, the topic a producer publishes to or a consumer consumes from, the database a client queries; with ID, kind, name, direction and action. |
| `Meanings.SpanKindIff` | internal/builder/endpoints.go:114-118 | A span kind is recognized if and only if the text is its name in any case, with or without SPAN_KIND_, between blanks. |
| `Meanings.StripPortIff` | internal/builder/endpoints.go:146-151 | The host of an address is what precedes its last colon, or all of it. |
| `Meanings.Ingested` | internal/builder/templatize.go:10-74 | Ingest templates the URL (a bare path without its query, the path of an absolute URL behind scheme and host, nothing else) and the span name (a path, or a path after one word, nothing else) and leaves every other attribute. |
| `Meanings.Counterparts` | internal/graph/interface.go:42-70 | The counterpart of each kind of edge, by name. |
| `Derivation.DerivedLocal` | internal/builder/builder.go:55-66 | Deriving any record into a set that satisfies the co-refresh invariant keeps it: nothing but relationship entities, edges in pairs, anchored and supporting. |
| `Derivation.DerivedExactly` | internal/builder/builder.go:26-66 | A record with an emitter adds the entity of each relationship it is about and the two edges between that and the emitter; it adds nothing else and removes nothing. |
| `Ingest.UrlIdempotentIff` | internal/builder/templatize.go:24-41 | For every text: a second templating changes nothing if and only if the text is no absolute URL, or its path, as first read, holds no percent sign, question mark or hash, or the parser refuses the rebuilt URL. Of the parser it is assumed that a rebuilt URL it accepts has the scheme and the host it had, and as its path the percent-decoded text up to a question mark or hash. |
| `Escapes.ReadTwiceIff` | internal/builder/templatize.go:36-41 | A templated path, decoded and templated again, is itself if and only if there was nothing to decode or cut off in it. |
| `Escapes.DecodeEscapeAll` | internal/builder/templatize.go:36-41 | Percent-decoding undoes the escaping of every byte, in capital or small digits. |
| `Escapes.Malformed` | internal/builder/templatize.go:36-39 | A percent sign without two hexadecimal digits after it makes a text unreadable. |
| `Ingest.EscapedDigit` | internal/builder/templatize.go:36-40 | An escaped percent sign before digits is decoded once by each application, so the second one changes the URL again. |
| `Ingest.AttrsIdempotentIff` | internal/builder/templatize.go:10-22 | Attributes are templatized idempotently if and only if the URL, if any, is such a one; no attribute but the URL and the span name is touched. |
| `EndpointIds.CollideIff` | internal/builder/endpoints.go:120-128 | Two services and methods share an endpoint ID for some rooted routes if and only if one `service/method/` begins the other. |
| `EndpointIds.NormalCollideIff` | internal/builder/endpoints.go:102-128 | They share one for routes as derived, that is normalized, if and only if one `service/method/` begins the other and normalization leaves alone every segment of what it has in addition. |
| `EndpointIds.SlashFreeNeverCollide` | internal/builder/endpoints.go:120-128 | Slash-free services and methods share an ID only when they are the same. |
| `Derivation.EndpointIdsCollide` | internal/builder/endpoints.go:123-128 | With a slash in the service, two different endpoints share one ID and have different names. |
| `Derivation.EndpointNameFromId` | internal/builder/endpoints.go:123-128 | For slash-free service and method the display name is read back from the ID. |
| `Derivation.DatabaseNameFromId` | internal/builder/databases.go:54-60 | For a slash-free system a database name is read back from its ID. |
| `Derivation.DerivedNamed` | internal/graph/batchset_redis.go:92-95 | Hence skipping entities present in both snapshots leaves no stale name: names stay a function of the ID. |
| `Ingest.ClientMeetsServerIff` | internal/builder/endpoints.go:59-144 | For any client URL, bare, absolute, relative or unreadable: the client record as templatized at ingest yields an endpoint if and only if a path is seen in the URL, and the endpoint of the server record if and only if route and path agree segment by segment up to placeholders and numbers. |
| `Ingest.SeenAsReceived` | internal/builder/endpoints.go:130-144 | The path seen normalizes as that of the URL received, for all but absolute URLs and for absolute ones with a plain path that are accepted when rebuilt. |
| `Receiver.Server.DeriveAll` | internal/otlpreceiver/receiver.go:91-118 | The set derived holds exactly the entities of, and both edges of, every relationship that some datapoint of a metric of known type shows, templated, under its resource, wherever it stands in the delivery; the count is positive if and only if there is such a datapoint. It is what deriving the datapoints one after the other gives. |
| `Receiver.Server.DeriveMetric` | internal/otlpreceiver/receiver.go:123-155 | The datapoints of a metric of each known type are derived in order; a metric without a known type contributes nothing. |
| `DeliveryFacts.DerivedIsComplete` | internal/otlpreceiver/receiver.go:91-160 | Deriving the datapoints of a delivery one after the other under their resource gives exactly that set. |
| `Receiver.Server.Export` | internal/otlpreceiver/receiver.go:60-84 | The shared set becomes the merge of the request-local set; a request without datapoints changes nothing. |
| `Receiver.Server.ExpireAndSnapshot` | internal/otlpreceiver/receiver.go:51-56 | The shared set is expired and the returned copy equals it without sharing. |
| `Receiver.RequestLocal` | internal/otlpreceiver/receiver.go:91-118 | Whatever a request contains, its local set satisfies the co-refresh invariant and is unstamped. |
| `Receiver.RequestNamed` | internal/otlpreceiver/receiver.go:91-118 | For slash-free requests the names in the local set follow from the IDs. |
| `Receiver.SplitRequests` | internal/otlpreceiver/receiver.go:64-75 | Two requests merged one after the other at one time give what their concatenation merged at once gives. |
| `RedisWriter.Writer.constructor` | internal/graph/rediswriter.go:38-52 | A non-positive batch size becomes 1000 and nothing is buffered. |
| `RedisWriter.Writer.Add` | internal/graph/rediswriter.go:102-111 | The operation is accounted for, whole, in the executed batches followed by the buffer; nothing is sent while the buffer stays below the limit, and otherwise all of it, as one batch of fewer than limit + 4 commands. |
| `RedisWriter.Writer.FlushLocked` | internal/graph/rediswriter.go:88-100 | The whole buffer is sent and emptied; on failure an arbitrary part reaches the server and a warning is logged. |
| `RedisWriter.Writer.Close` | internal/graph/rediswriter.go:72-79 | Flushes the first time and does nothing afterwards. |
| `RedisWriter.Writer.UpsertEntity` | internal/graph/rediswriter.go:113-135 | Issues one upsert stamped with the clock, without empty metadata values, as three or four commands. |
| `RedisWriter.Writer.DeleteEntity` | internal/graph/rediswriter.go:137-145 | Issues one deletion of all three keys and both index entries. |
| `RedisWriter.BufferedRefinesDirect` | internal/graph/rediswriter.go:102-111 | As long as no flush fails, the server once drained holds what executing each operation on the spot would have made of it. |
| `Mapper.MapPodLoop` | internal/k8swatch/mapper.go:85-107 | The appending loop builds the entities and edge pairs of a pod, its namespace, node, owner and containers. |
| `Mapper.MapJobLoop` | internal/k8swatch/mapper.go:169-182 | The reference loop with its break links the job to its first CronJob owner. |
| `Mapper.MapHpaLoop` | internal/k8swatch/mapper.go:205-256 | The scale target, if of a modelled kind, and the first ScaledObject owner are linked. |
| `Mapper.OwnerForPod` | internal/k8swatch/watcher.go:312-338 | The nested loops with continue and early returns resolve the first owner reference that leads to a workload, passing over ReplicaSets that are not cached or lead nowhere. |
| `References.IdTexts` | internal/k8swatch/mapper.go:57-70 | Every object is stored under the text of its kind, its namespace, if it has one, and its name, written out. |
| `References.ContainerText` | internal/k8swatch/mapper.go:58 | And every container under the text of its namespace, pod and name. |
| `References.StoresItself` | internal/k8swatch/mapper.go:85-256 | Every object is stored under its own ID, kind and name, with its metadata. |
| `References.PodMeetsPlaces` | internal/k8swatch/mapper.go:88-100 | The namespace of a pod and, once it is scheduled, its node are those stored for the objects of these names; they contain the pod and it runs in them. |
| `References.PodMeetsContainers` | internal/k8swatch/mapper.go:102-106 | Every container of a pod is stored with its image, contained in the pod, and runs in it. |
| `References.OwnerMeetsObject` | internal/k8swatch/watcher.go:304-338 | The resolved owner of a pod is the entity stored for the object its first leading reference names, ID, name and kind: a StatefulSet, DaemonSet or Job, or the deployment or rollout of a cached ReplicaSet. |
| `References.OwnerManagesPod` | internal/k8swatch/mapper.go:97-100 | That object manages the pod and the pod is managed by it. |
| `References.HpaMeetsTarget` | internal/k8swatch/mapper.go:227-244 | An autoscaler scales the entity stored for the deployment, StatefulSet or rollout its target names. |
| `References.ScaledObjectMeetsTarget` | internal/k8swatch/dynamic.go:127-150 | So does a ScaledObject with a target name, whose target is a deployment unless it says otherwise. |
| `References.ManagerMeets` | internal/k8swatch/mapper.go:173-182 | The manager of a job is the entity stored for the CronJob its first such reference names; of an autoscaler, the ScaledObject. |
| `References.NodeMeetsZone` | internal/k8swatch/mapper.go:71-80 | The zone of a node, and the region of that, are those of the topology labels, the modern ones first. |
| `Implications.PodImplies` | internal/k8swatch/mapper.go:85-107 | A pod implies, and implies nothing but: its namespace and, once scheduled, its node contain it; its owner, if resolved, manages it; it contains its containers; with an entity at every end. |
| `Implications.NodeImplies` | internal/k8swatch/mapper.go:109-140 | A labelled node is contained in its zone, and the zone in the region if that is labelled too; a region without a zone counts for nothing. |
| `Implications.JobImplies` | internal/k8swatch/mapper.go:166-182 | A job is managed by its first CronJob owner, if it has one, and implies no other edge. |
| `Implications.HpaImplies` | internal/k8swatch/mapper.go:197-256 | An autoscaler scales its target, if of a modelled kind, and is managed by its first ScaledObject owner. |
| `Implications.ScaledObjectImplies` | internal/k8swatch/dynamic.go:89-150 | A ScaledObject scales its target, a deployment unless another modelled kind is named, provided the target has a name. |
| `Implications.OwnerIsFirst` | internal/k8swatch/watcher.go:304-338 | The owner is what the first reference that leads to a workload leads to, and nobody exactly when none does. |
| `Wholeness.DesireWhole` | internal/k8swatch/mapper.go:45-53 | Every edge an object implies comes with its counterpart and with the entities at both ends, whatever the object and its owner. |
| `Ownership.Read2` | internal/k8swatch/mapper.go:57-70 | Kind and display name are read back from a namespaced ID. |
| `Ownership.Read3` | internal/k8swatch/mapper.go:58 | Kind, display name and pod are read back from a container ID. |
| `Desires.DesireBelongs` | internal/k8swatch/mapper.go:85-256 | Everything a mapper produces belongs to the object mapped: pods and containers to their pod, metadata to the object or its containers, edges to the one object that maintains them, the region-zone pair to nodes only; edges stored on a pod or container come with that entity. |
| `Desires.ScaledObjectBelongs` | internal/k8swatch/dynamic.go:79-153 | The same for a KEDA ScaledObject, whose target kind defaults to Deployment and which has no edge without a target name. |
| `Desires.ResolvedOwnerValid` | internal/k8swatch/watcher.go:312-338 | A resolved owner is nobody or one of the five workload kinds under its own ID. |
| `Desires.PrimaryIdInjective` | internal/k8swatch/mapper.go:57-70 | Objects with the same primary ID are the same object: kind, namespace and name. |
| `Watcher.EdgeTextInjective` | internal/k8swatch/watcher.go:34-36 | Without NUL in the ends, edges with equal comparison text are equal. |
| `Watcher.IndexSound` | internal/k8swatch/watcher.go:94-100 | The index holds an edge under each text that occurs, and no other. |
| `Watcher.ApplyAdd` | internal/k8swatch/watcher.go:38-45 | Issues one upsert per entity and then one link per edge, in order. |
| `Watcher.ApplyUpdate` | internal/k8swatch/watcher.go:47-78 | Issues the upserts of the new entities, deletions of the pods and containers that dropped out, links of the new edges and unlinks of the old ones, the latter two in any order. |
| `Watcher.ApplyDelete` | internal/k8swatch/watcher.go:80-92 | Issues deletions of the pods and containers and unlinks of all edges. |
| `EventEffects.LinkDiffExact` | internal/k8swatch/watcher.go:66-72 | Links are issued for exactly the edges the new object has and the old one lacked. |
| `EventEffects.UnlinkDiffExact` | internal/k8swatch/watcher.go:73-77 | Unlinks are issued for exactly the edges the old object had and the new one lacks. |
| `EventEffects.EdgeAfterTurn` | internal/k8swatch/watcher.go:38-92 | One event sets an edge its object gains, removes one it loses or whose carrier it drops, and leaves every other edge as it was, whatever the store held. |
| `EventEffects.EntityAfterTurn` | internal/k8swatch/watcher.go:38-92 | One event leaves every entity the object implies stored under the right kind and name, drops the pods and containers it implies no more, and leaves every other entity as it was. |
| `WatcherRuns.Handle` | internal/k8swatch/watcher.go:255-298 | The registered handlers map what they are handed with the ReplicaSet cache of the moment and issue what the event calls for. |
| `WatcherRuns.EmittersExact` | internal/k8swatch/watcher.go:55-65 | Over every event sequence, whatever becomes of the ReplicaSet cache: pods and containers on the server, index included, are exactly those of the live pods, under the right kinds and names. |
| `WatcherRuns.OthersAccumulate` | internal/k8swatch/watcher.go:55-65 | Entities of every other kind are never deleted: they are stored if and only if some event ever implied them. |
| `Metadata.LiveMetadataStored` | internal/k8swatch/watcher.go:38-92 | After any event sequence, every metadata field with a value that a live object was last delivered with is stored with that value. |
| `Metadata.NoBlankMetadata` | internal/graph/rediswriter.go:120-132 | And no metadata field without a value is ever stored. |
| `EdgeRuns.LastChangeDecides` | internal/k8swatch/watcher.go:38-92 | At each moment of every event sequence, whatever the server held before and whatever becomes of the ReplicaSet cache, for every edge: it is stored if and only if the last event so far that gained or lost it gained it, or it was there and none lost it. |
| `EdgeRuns.EdgeFitsIff` | internal/k8swatch/watcher.go:38-92 | Over every event sequence, for every edge: the store agrees with the union of what the live objects imply at all times if and only if at every event what the handler believes does no harm to the edge. |
| `Drift.TrueBeliefFits` | internal/k8swatch/watcher.go:38-92 | A belief that is no mistake harms an edge if and only if the event takes the edge away while another live object implies it. |
| `WatcherLimits.SharedPairLost` | internal/k8swatch/mapper.go:131-137 | Of any two nodes of one zone and region, deleting one removes the edge the other still implies. |
| `WatcherLimits.ResyncHealsNoEdge` | internal/k8swatch/watcher.go:112-113 | A periodic re-delivery restores every entity of the object and not one lost edge. |
| `WatcherLimits.MistakeIff` | internal/k8swatch/watcher.go:258-260 | When a handler is mistaken about what the store holds for an object, the store is right about an edge afterwards if and only if the mistake is harmless for that edge. |
| `WatcherLimits.OwnerDriftIff` | internal/k8swatch/watcher.go:258-260 | A mistaken owner is harmless for every edge of a pod if and only if it is the stored one, or differs from the new one while nobody or the new owner is stored. |
| `WatcherLimits.PodDriftIff` | internal/k8swatch/watcher.go:255-273 | Hence after an update or deletion of a pod every edge of it ends up right if and only if the owners resolved at that time fit the one the store was written with. |
| `Drift.PrivateExactIff` | internal/k8swatch/watcher.go:255-298 | Over every history, however the ReplicaSet cache changes between events: the store is right about every edge at all times, region-zone pairs excepted, if and only if at every update and deletion of a pod the owners fit: stored with, resolved for the old object, resolved for the new one. |
| `Drift.SharedExactIff` | internal/k8swatch/mapper.go:131-137 | In such histories the store is right about a region-zone edge at all times if and only if no node takes it away while another implies it. |
| `Drift.EdgesAreTheUnion` | internal/k8swatch/watcher.go:38-92 | As long as the owners fit, after any event sequence the stored edges, region-zone pairs excepted, are exactly the disjoint union of what the live objects imply. |
| `Drift.StoredEdgesAreImplied` | internal/k8swatch/mapper.go:131-137 | A stored region-zone edge is always implied by some live node. |
| `Healing.EdgeHealsIff` | internal/graph/rediswriter.go:88-100 | Whatever a lost batch left of an edge, it reads later as if nothing had been lost if and only if some event since gained or lost it. |
| `Healing.EntityHealsIff` | internal/graph/rediswriter.go:88-100 | Whatever a lost batch left of an entity, it is there later, core and index, as if nothing had been lost if and only if some event since implied or dropped it. |
| `Healing.ResyncMovesNothing` | internal/k8swatch/watcher.go:112-113 | A resync gains or loses no edge and implies every entity of its object. |
| `WatcherLimits.OwnerContributes` | internal/k8swatch/mapper.go:97-100 | The owner contributes its MANAGES pair to a pod, and nothing else in a pod does. |
| `WatcherLimits.OwnerDriftLeavesEdge` | internal/k8swatch/watcher.go:263-273 | Deleting a pod whose ReplicaSet has left the cache leaves the edge from its deployment behind. |
| `Interleaving.SoleSource` | internal/graph/rediswriter.go:102-111 | A fact that one source alone touches ends up as if the other sources did not exist. |
| `Interleaving.JointFact` | internal/graph/rediswriter.go:113-135 | A core or index entry written by several informers ends up the same in every order, up to the last-seen time. |
| `Interleaving.InterleavingsAgree` | internal/k8swatch/watcher.go:255-298 | Any two command-level interleavings of the same streams lead to the same server on every fact, up to last-seen times and relationship edges on pods and containers. |
| `Interleaving.MixedDependsOnOrder` | internal/graph/rediswriter.go:137-145 | That exception is real: two orders of a link and a deletion that end differently. |
| `AnchoredEdges.OrderIrrelevantIff` | internal/graph/rediswriter.go:137-145 | For every relationship edge on a pod or container and all streams of commands the writers may issue: every interleaving leaves the edge alike if and only if its carrier is never deleted or the flusher alone would not leave it stored. |
| `AnchoredEdges.ExtremeOrders` | internal/graph/rediswriter.go:137-145 | Otherwise the edge is stored when the flusher comes last and gone when it comes first. |
| `AnchoredEdges.AtMostFlusher` | internal/graph/batchset_redis.go:123-146 | In no interleaving is such an edge stored unless the flusher alone would have stored it. |
| `AnchoredEdges.DroppedStaysDropped` | internal/graph/batchset_redis.go:123-134 | In every run, an edge that the watcher dropped with its carrier is not restored by any flush, complete or failing, for as long as the flushed snapshots have it. |
| `Interleaving.DeltaPermitted` | internal/graph/batchset_redis.go:91-146 | Every command of every delta stays within what the flusher may write. |
| `SystemRuns.HistoryPermitted` | internal/k8swatch/watcher.go:38-92 | Everything the handlers of one informer issue over a whole history, whatever becomes of the ReplicaSet cache, stays within what that informer may write. |
| `SystemRuns.SystemLastChange` | internal/k8swatch/watcher.go:38-92 | With all informers and the flusher writing at once, in any interleaving of their commands and whatever becomes of the ReplicaSet cache: a structural edge is stored if and only if the last event of its informer that gained or lost it gained it. |
| `SystemRuns.SystemEdgesExact` | internal/k8swatch/watcher.go:38-92 | As long as the owners fit at the updates and deletions of pods: structural edges, region-zone pairs excepted, are then exactly those the live objects imply. |
| `SystemRuns.SystemSharedBounded` | internal/k8swatch/mapper.go:131-137 | The region-zone pairs are then at most those the live nodes imply. |
| `SystemRuns.SystemEmittersExact` | internal/k8swatch/watcher.go:55-65 | Pods and containers are then exactly those of the live pods, index included. |
| `SystemRuns.SystemOthersAccumulate` | internal/k8swatch/watcher.go:55-65 | Every other structural entity is then stored, index included, if and only if some delivery ever implied it. |
| `Dangling.NeverDanglesIff` | internal/k8swatch/watcher.go:80-92 | Over every event sequence, however the ReplicaSet cache changes: at all times both ends of every stored edge are stored if and only if at every deletion of a pod each owner with a stored edge to it is the one resolved then; and the same condition decides whether every stored edge always has its counterpart. |
| `Dangling.DanglesIff` | internal/k8swatch/watcher.go:38-92 | In any interleaving of all writers, however the ReplicaSet cache changes: a stored structural edge has its source, and it dangles if and only if it leads from an owner to a pod that is no longer alive. |
| `Dangling.NoEdgeDangles` | internal/k8swatch/mapper.go:45-53 | As long as owners are known at the deletions of pods, no structural edge dangles in any interleaving, and each has its counterpart, the region-zone pair included. |
| `Dangling.VanishedSetDangles` | internal/k8swatch/watcher.go:263-273 | A pod added while its ReplicaSet is cached and deleted when it is not leaves the edge from its deployment dangling. |
| `Wholeness.PairsTogether` | internal/k8swatch/watcher.go:38-92 | Between entities that are no pods or containers an edge and its counterpart come and go together over every history. |
| `SystemRuns.SystemLeavesFlusherAlone` | internal/graph/batchset_redis.go:91-146 | What the flusher owns, edges on pods and containers excepted, is then as if the flusher were alone. |
| `SystemRuns.WatcherDisturbs` | internal/graph/rediswriter.go:137-145 | Of the facts the flusher owns, a command of the watcher can change only a relationship edge on a pod or container, and only by deleting that entity. |
| `SystemRuns.WatcherKeepsIndex` | internal/k8swatch/watcher.go:38-92 | The watcher keeps the index exact over every history. |
| `SystemRuns.DeltasKeepIndex` | internal/graph/batchset_redis.go:91-122 | Operations of deltas keep the index exact, in any number and order. |
| `Reach.WithinIffPath` | internal/graph/redis.go:106-157 | Being within n hops is being at the end of a path of existing entities with at most n edges. |
| `Reach.EnoughHops` | internal/graph/redis.go:118-120 | As many hops as there are entities reach whatever any number of hops reaches. |
| `Reach.SearchResult` | internal/graph/redis.go:129-155 | When the queue is empty, the visited entities are exactly those within the bound. |
| `Query.ReadYourWrite` | internal/graph/redis.go:53-62 | An entity upserted is found with the kind, name and time it was written with, its metadata added to what it had and its edges as they were, whatever operations on other entities come in between. |
| `Query.ReadAfterDelete` | internal/graph/redis.go:53-62 | A deleted entity is not found, whatever operations on other entities come in between; upserted again it has no edges and only the new metadata. |
| `Query.TimeMissingIff` | internal/graph/redis.go:305-323 | The time of an entity is left out if and only if its text is empty or not an optional minus sign and digits. |
| `Query.Subgraph` | internal/graph/redis.go:110-157 | A missing root is not found. Otherwise the answer lists the existing entities within the bound, each once, in byte order of the IDs (of two, the earlier begins the later or has the smaller character where they first differ); recorded depths are shortest distances; a depth of zero or less stands for the number of indexed IDs. |
| `Query.Follow` | internal/graph/redis.go:139-154 | Following the edges of an entity in any order discovers each existing target not visited before, once, and skips dangling ones. |
| `Query.AnswerDetermined` | internal/graph/redis.go:155 | When core hashes carry their own ID the answer is determined: in strict byte order of the IDs and exactly the entities asked for. |
| `SearchCap.CapLosesNothingIff` | internal/graph/redis.go:106-120 | Capping an unbounded search at the number of indexed IDs loses nothing, whatever the edges, if and only if at most one entity more is stored than IDs are indexed. |
| `SearchCap.CapLosesUnindexed` | internal/graph/redis.go:118-120 | A store of two entities and an empty index whose search is cut off. |
| `Prune.RedisGraph.Prune` | internal/graph/redis.go:248-303 | With any calls and any commands of any pipeline failing: touches no fact but those a complete prune removes, and those only by removing them. Without failures: deletes exactly the indexed entities last seen before the cutoff, strips the edges into them from the remaining indexed entities, and returns how many were deleted. |
| `Prune.PruneRetryIff` | internal/graph/redis.go:275-301 | After any failures, pruning again completes the work if and only if each entity to be deleted is found stale again or was left nothing, edges into it from entities found again excepted. |
| `Prune.LostToTheIndex` | internal/graph/redis.go:275-284 | It is not always so: of any stale entity whose keys were deleted and whose place in the index was not, no later prune removes that place. |
| `Prune.RedisGraph.FindStale` | internal/graph/redis.go:252-271 | Finds nothing but indexed entities whose last-seen text parses to a time before the cutoff, and all of them unless a read fails. |
| `Prune.RedisGraph.DeleteAll` | internal/graph/redis.go:275-284 | In any order, deletes exactly these with metadata, edges and index entries, except the index entry of the empty kind; with failures, some of that and nothing else. |
| `Prune.PruneKeepsIndexIff` | internal/graph/redis.go:275-284 | The index stays exact if and only if no deleted entity was stored under the empty kind. |
| `Prune.PruneIsExact` | internal/graph/redis.go:244-303 | From an exact index: survivors are the entities not stale, untouched, with every edge except those to deleted entities. |
| `Staleness.PrunedIffAddedBefore` | internal/graph/batchset_redis.go:91-95 | Over every run, for an entity the server did not hold at first and that no failure or foreign write disturbs: it is stored exactly while the last flushed snapshot has it, and pruning then deletes it if and only if the flush that added it was before the cutoff. |
| `Staleness.SeenYetPruned` | internal/graph/batchset_redis.go:91-95 | A run with a topic seen at time 1 and again at time 9, which pruning before time 5 deletes. |
| `Staleness.PrunedStaysPruned` | internal/graph/batchset_redis.go:91-122 | In every run, no fact of an entity pruned while still seen is written again by any flush, complete or failing, for as long as the flushed snapshots have it. |
| `Staleness.StoredCoreExactly` | internal/graph/batchset_redis.go:91-104 | With names that follow from IDs, the stored core of such an entity is exactly that of the last flushed snapshot, with the time of the flush that added it. |
| `Staleness.RunsAreDated` | internal/graph/batchset_redis.go:91-95 | The last-seen text of such an entity is the time of the flush that added it and since which every flush has kept it. |

## Left out

- Kubernetes client machinery (informers, listers, discovery, decoding of unstructured objects): an event sequence in which updates and deletions carry the last delivered object, with the ReplicaSet cache as a parameter of each event.
- gRPC serving, HTTP handlers, the MCP server and client, environment parsing, logging, tickers: plumbing; tickers become steps at arbitrary times.
- Read errors and time-outs of single queries: reading an entity and `Subgraph` are modelled on a server that answers; and queries and pruning on contents that nobody else changes meanwhile.
- `ListByKind` and `Search`: filter, sort and truncate; they would only add easy members.
- `UpsertWithEdges`: never called when deriving; its entity and edge updates are those of the modelled methods.
- JSON encoding of edges: an injective function in `Keyspace`; the structured store holds edges themselves.
- `net/url` parsing: a parameter of the functions that use it; what is assumed of it about rebuilt URLs is written out where it is needed (`Ingest.Rereads`). Percent-decoding itself is modelled.
- Unicode case mapping and white space in span kinds: ASCII only.
- Text positions are counted in characters, not bytes; every separator searched for is a single ASCII character.
- Metadata and label formatting in the mappers: the metadata of an object arrives formatted; the container image field is modelled.
- Values, timestamps and names of metrics: deriving reads attributes alone; attribute values arrive as text.
- `TemplatizeAttrs` is a function from the old attribute map to the new one; the receiver reassigns its buffer.
- Drift.EdgesAreTheUnion: speaks of the operations issued, which is what the server executes as long as no flush of the buffered writer fails; a failed batch is only logged by the code and lost, which `RedisWriter.Writer.FlushLocked` states; what later events set right again is in `Healing`.
- `last_seen_at_ms` of entities written by several informers depends on the order and is left out of `Interleaving.InterleavingsAgree`.
- Flusher.RefinesFullWrite: compares everything but the last-seen field, which a delta does not rewrite (`Staleness.StoredCoreExactly` says what it holds), and compares names only when they follow from IDs.
