/** The vocabulary of the graph: kinds, edge kinds, edges, and the ID prefix that
    determines a kind. */
module Graph {
  import opened Strings

  const NAMESPACE := "namespace"
  const NODE := "node"
  const ZONE := "zone"
  const REGION := "region"
  const DEPLOYMENT := "deployment"
  const POD := "pod"
  const CONTAINER := "container"
  const ENDPOINT := "endpoint"
  const TOPIC := "topic"
  const DATABASE := "database"
  const STATEFULSET := "statefulset"
  const DAEMONSET := "daemonset"
  const JOB := "job"
  const CRONJOB := "cronjob"
  const ROLLOUT := "rollout"
  const HPA := "hpa"
  const SCALEDOBJECT := "scaledobject"

  /** Edge kinds. The first six are written by the Kubernetes watcher, the others by the
      span-metric path. */
  datatype EdgeKind =
    | Contains | RunsIn | Manages | ManagedBy | Scales | ScaledBy
    | Exposes | ExposedBy | Calls | CalledBy | Publishes | PublishedBy
    | Consumes | ConsumedBy | Queries | QueriedBy
  {
    predicate Structural() {
      Contains? || RunsIn? || Manages? || ManagedBy? || Scales? || ScaledBy?
    }

    /** The kind of the counterpart edge that accompanies every edge. */
    function Reverse(): EdgeKind {
      match this
      case Contains => RunsIn      case RunsIn => Contains
      case Manages => ManagedBy    case ManagedBy => Manages
      case Scales => ScaledBy      case ScaledBy => Scales
      case Exposes => ExposedBy    case ExposedBy => Exposes
      case Calls => CalledBy       case CalledBy => Calls
      case Publishes => PublishedBy  case PublishedBy => Publishes
      case Consumes => ConsumedBy  case ConsumedBy => Consumes
      case Queries => QueriedBy    case QueriedBy => Queries
    }
  }

  /** An edge as stored in its source's edge set. */
  datatype Edge = Edge(kind: EdgeKind, to: string, action: string)

  /** The text of an ID before its first ':'. Every ID builder prefixes the entity's kind. */
  function KindOf(id: string): string {
    var i := IndexOf(id, ':');
    if i < 0 then id else id[..i]
  }

  lemma KindOfPrefixed(kind: string, rest: string)
    requires Free(kind, ':')
    ensures KindOf(kind + ":" + rest) == kind
  {
    IndexOfAt(kind, ':', rest);
    assert kind + [':'] + rest == kind + ":" + rest;
    assert (kind + ":" + rest)[..|kind|] == kind;
  }

  /** Entities that only the span-metric path creates and deletes. */
  predicate IsRelation(id: string) {
    KindOf(id) == ENDPOINT || KindOf(id) == TOPIC || KindOf(id) == DATABASE
  }

  /** Entities that the watcher deletes; relationship edges are anchored on them. */
  predicate IsEmitter(id: string) {
    KindOf(id) == POD || KindOf(id) == CONTAINER
  }

  /** Absent attributes, labels and map entries read as the empty text. */
  function Lookup(m: map<string, string>, k: string): string {
    if k in m then m[k] else ""
  }

  /** Metadata fields with an empty value are never stored. */
  function NonEmpty(m: map<string, string>): map<string, string> {
    map k | k in m && m[k] != "" :: m[k]
  }
}
