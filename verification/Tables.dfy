/** The rows the registry, capability and routing services share (api/models/server.py), the
    database they are kept in, and row updates by condition. */
module Tables {
  import opened Options
  import opened Digest
  import opened ToolDiff

  type ServerId = nat
  type MappingId = nat
  type CapabilityId = nat
  type Time = int

  datatype Phase = GracePeriod | Migration | Sunset
  datatype Health = Unknown | Reachable | Unreachable

  datatype Tool = Tool(description: Option<string>, input: Schema, output: Option<Schema>)

  /** `tools` is keyed by name: (server_id, tool_name) is a unique index. */
  datatype Server = Server(
    endpoint: string, health: Health, phase: Option<Phase>, tools: map<string, Tool>,
    updatedAt: Time, decommissionedAt: Option<Time>)

  datatype Status = Active | Stale | PendingReview | StaleUnverified | Rejected
  datatype FailureClass = Drifted | SchemaMismatch | ServerUnreachable | ServerTimeout

  datatype Decision = Approved | Denied | OtherDecision
  datatype Review = Review(previous: Digest, current: Digest, decision: Decision)

  /** `reviews` are the mapping's MappingReview rows, oldest first; they are deleted with it. */
  datatype Mapping = Mapping(
    capability: CapabilityId, server: ServerId, tool: string, weight: real, digest: Digest,
    status: Status, failureClass: Option<FailureClass>, pendingSince: Option<Time>, reviews: seq<Review>)

  datatype ToolVersion = ToolVersion(
    server: ServerId, tool: string, input: Schema, output: Option<Schema>, isBreaking: bool)

  /** Ids are handed out in increasing order, so a larger mapping id means created later. */
  datatype Tables = Tables(
    servers: map<ServerId, Server>, mappings: map<MappingId, Mapping>, versions: multiset<ToolVersion>, nextId: nat)

  const EMPTY := Tables(map[], map[], multiset{}, 0)

  /** How a service call ends: normally, or with the exception it raises. */
  datatype Outcome =
    | Done
    | ServerNotFound | MappingNotFound | ToolNotFound
    | DuplicateServer | UnreachableServer | InvalidRequest | PhaseOrder
    | IntegrityFault | TypeError

  class Database {
    var servers: map<ServerId, Server>
    var mappings: map<MappingId, Mapping>
    var versions: multiset<ToolVersion>
    var nextId: nat

    constructor ()
      ensures Snapshot() == EMPTY
    {
      servers, mappings, versions, nextId := map[], map[], multiset{}, 0;
    }

    function Snapshot(): Tables
      reads this
    {
      Tables(servers, mappings, versions, nextId)
    }
  }

  predicate Limbo(status: Status) {
    status == Stale || status == PendingReview || status == StaleUnverified
  }

  /** The row a mapping's (server, tool name) refers to. */
  function ToolRow(servers: map<ServerId, Server>, server: ServerId, tool: string): Option<Tool> {
    if server in servers && tool in servers[server].tools then Some(servers[server].tools[tool]) else None
  }

  function RowDigest(name: string, row: Tool): Digest {
    ComputeToolDigest(name, row.input, row.output)
  }

  function Definition(name: string, row: Tool): ToolDefinition {
    ToolDefinition(name, row.description, row.input, row.output)
  }

  function RowOf(def: ToolDefinition): Tool {
    Tool(def.description, def.input, def.output)
  }

  /** The unique indexes on mappings: per capability and server, tool names and digests differ. */
  predicate UniqueMappings(mappings: map<MappingId, Mapping>) {
    forall a, b | a in mappings && b in mappings && a != b ::
      mappings[a].capability == mappings[b].capability && mappings[a].server == mappings[b].server ==>
        mappings[a].tool != mappings[b].tool && mappings[a].digest != mappings[b].digest
  }

  /** Apply `f` to the rows named in `ids`. */
  function UpdateRows(mappings: map<MappingId, Mapping>, ids: set<MappingId>, f: Mapping -> Mapping)
    : map<MappingId, Mapping>
  {
    map id | id in mappings :: if id in ids then f(mappings[id]) else mappings[id]
  }

  /** A row put into limbo by an inspection. */
  function Suspend(m: Mapping, status: Status, cause: FailureClass, now: Time): Mapping {
    m.(status := status, failureClass := Some(cause), pendingSince := Some(now))
  }
}
