/** Every service call that touches servers, tools or mappings as one atomic step, and what all runs
    of such steps keep. The services share only the tables, never code. */
module Lifecycle {
  import opened Options
  import opened Digest
  import opened ToolDiff
  import opened Tables
  import opened RegistryService
  import opened CapabilityService
  import opened RoutingService

  datatype Call =
    | CallRegister(endpoint: string, listing: Listing, now: Time)
    | CallInspect(server: ServerId, listing: Listing, now: Time)
    | CallDecommission(server: ServerId, phase: Phase, replacement: Option<ServerId>, now: Time)
    | CallCreate(capability: CapabilityId, server: ServerId, tool: string, now: Time)
    | CallReview(id: MappingId, decision: Decision)
    | CallRetire(cause: Option<FailureClass>, ids: set<MappingId>)

  function Apply(t: Tables, call: Call): (Tables, Outcome) {
    match call
    case CallRegister(endpoint, listing, now) => Registered(t, endpoint, listing, now)
    case CallInspect(server, listing, now) => Inspected(t, server, listing, now)
    case CallDecommission(server, phase, replacement, now) => Decommissioned(t, server, phase, replacement, now)
    case CallCreate(capability, server, tool, now) => MappingCreated(t, capability, server, tool, now)
    case CallReview(id, decision) => Reviewed(t, id, decision)
    case CallRetire(cause, ids) => BulkRetired(t, cause, ids)
  }

  function Step(t: Tables, call: Call): Tables {
    Apply(t, call).0
  }

  function Run(t: Tables, calls: seq<Call>): Tables
    decreases |calls|
  {
    if calls == [] then t else Run(Step(t, calls[0]), calls[1..])
  }

  // ---------------------------------------------------------------- table integrity

  ghost predicate NamesItsTool(m: Mapping) {
    exists input, output :: m.digest == ComputeToolDigest(m.tool, input, output)
  }

  predicate UniqueTools(mappings: map<MappingId, Mapping>) {
    forall a, b | a in mappings && b in mappings && a != b ::
      mappings[a].capability == mappings[b].capability && mappings[a].server == mappings[b].server ==>
        mappings[a].tool != mappings[b].tool
  }

  /** Ids are below the counter, servers referred to exist, the unique indexes hold, and a digest is
      always one of the mapping's own tool. */
  ghost predicate Sound(t: Tables) {
    && (forall s :: s in t.servers ==> s < t.nextId)
    && (forall id :: id in t.mappings ==> id < t.nextId && t.mappings[id].server in t.servers)
    && (forall id :: id in t.mappings ==> NamesItsTool(t.mappings[id]))
    && UniqueTools(t.mappings)
  }

  /** The unique index on digests adds nothing to the one on tool names. */
  lemma DigestIndexRedundant(mappings: map<MappingId, Mapping>)
    requires forall id :: id in mappings ==> NamesItsTool(mappings[id])
    ensures UniqueMappings(mappings) <==> UniqueTools(mappings)
  {
    forall a, b | a in mappings && b in mappings && mappings[a].tool != mappings[b].tool
      ensures mappings[a].digest != mappings[b].digest
    {
      var m, n := mappings[a], mappings[b];
      var i, o :| m.digest == ComputeToolDigest(m.tool, i, o);
      var i', o' :| n.digest == ComputeToolDigest(n.tool, i', o');
      DigestDeterminesTool(m.tool, i, o, n.tool, i', o');
    }
  }

  /** Changing a mapping's state but not what it links keeps the tables sound. */
  lemma UpdateSound(t: Tables, mappings: map<MappingId, Mapping>)
    requires Sound(t) && mappings.Keys <= t.mappings.Keys
    requires forall id :: id in mappings ==>
      var m, m' := t.mappings[id], mappings[id];
      m'.capability == m.capability && m'.server == m.server && m'.tool == m.tool && NamesItsTool(m')
    ensures Sound(t.(mappings := mappings))
  {
  }

  /** Some rows may be gone; the rest link what they linked, with the same digest. */
  predicate SameLinks(mappings: map<MappingId, Mapping>, mappings': map<MappingId, Mapping>) {
    forall id | id in mappings' ::
      id in mappings &&
      var m, m' := mappings[id], mappings'[id];
      m'.capability == m.capability && m'.server == m.server && m'.tool == m.tool && m'.digest == m.digest
  }

  lemma SameLinksSound(t: Tables, mappings: map<MappingId, Mapping>)
    requires Sound(t) && SameLinks(t.mappings, mappings)
    ensures Sound(t.(mappings := mappings))
  {
    forall id | id in mappings ensures NamesItsTool(mappings[id]) {
      var m := t.mappings[id];
      var i, o :| m.digest == ComputeToolDigest(m.tool, i, o);
      assert mappings[id].digest == ComputeToolDigest(mappings[id].tool, i, o);
    }
    UpdateSound(t, mappings);
  }

  lemma ReviewSound(t: Tables, id: MappingId, decision: Decision)
    requires Sound(t)
    ensures Sound(Step(t, CallReview(id, decision)))
    ensures id in t.mappings && decision != OtherDecision ==> Apply(t, CallReview(id, decision)).1 == Done
  {
    if id in t.mappings && decision != OtherDecision {
      var m := t.mappings[id];
      var m' := AfterReview(t.servers, m, decision);
      var row := ToolRow(t.servers, m.server, m.tool);
      if row.Some? && decision == Approved {
        assert m'.digest == ComputeToolDigest(m.tool, row.value.input, row.value.output);
      } else {
        assert m'.digest == m.digest;
        var i, o :| m.digest == ComputeToolDigest(m.tool, i, o);
        assert m'.digest == ComputeToolDigest(m'.tool, i, o);
      }
      UpdateSound(t, t.mappings[id := m']);
      DigestIndexRedundant(t.mappings[id := m']);
    }
  }

  lemma ReviewState(t: Tables, id: MappingId, decision: Decision)
    requires Sound(t) && id in t.mappings && decision != OtherDecision
    ensures Step(t, CallReview(id, decision)) ==
      t.(mappings := t.mappings[id := AfterReview(t.servers, t.mappings[id], decision)])
  {
    ReviewSound(t, id, decision);
  }

  predicate Linked(mappings: map<MappingId, Mapping>, capability: CapabilityId, server: ServerId, tool: string) {
    exists id | id in mappings ::
      mappings[id].capability == capability && mappings[id].server == server && mappings[id].tool == tool
  }

  lemma AddUnique(mappings: map<MappingId, Mapping>, id: MappingId, m: Mapping)
    requires UniqueTools(mappings) && id !in mappings
    ensures UniqueTools(mappings[id := m]) <==> !Linked(mappings, m.capability, m.server, m.tool)
  {
    var more := mappings[id := m];
    if Linked(mappings, m.capability, m.server, m.tool) {
      var other :| other in mappings && mappings[other].capability == m.capability
                   && mappings[other].server == m.server && mappings[other].tool == m.tool;
      assert more[other].tool == more[id].tool && other != id;
    }
  }

  lemma AddMapping(t: Tables, m: Mapping)
    requires Sound(t) && NamesItsTool(m)
    ensures UniqueMappings(t.mappings[t.nextId := m]) <==> !Linked(t.mappings, m.capability, m.server, m.tool)
    ensures UniqueMappings(t.mappings[t.nextId := m]) && m.server in t.servers ==>
      Sound(t.(mappings := t.mappings[t.nextId := m], nextId := t.nextId + 1))
  {
    var mappings := t.mappings[t.nextId := m];
    assert t.nextId !in t.mappings;
    AddUnique(t.mappings, t.nextId, m);
    forall id | id in mappings ensures NamesItsTool(mappings[id]) {
      assert id != t.nextId ==> mappings[id] == t.mappings[id];
    }
    DigestIndexRedundant(mappings);
  }

  /** A mapping is refused exactly when its tool is unknown, or the same capability, server and tool
      are linked already. */
  lemma CreateSound(t: Tables, capability: CapabilityId, server: ServerId, tool: string, now: Time)
    requires Sound(t)
    ensures Sound(Step(t, CallCreate(capability, server, tool, now)))
    ensures Apply(t, CallCreate(capability, server, tool, now)).1 ==
      if ToolRow(t.servers, server, tool).None? then ToolNotFound
      else if Linked(t.mappings, capability, server, tool) then IntegrityFault
      else Done
  {
    var row := ToolRow(t.servers, server, tool);
    if row.Some? {
      var m := NewMapping(t, capability, server, tool, row.value, now);
      assert m.digest == ComputeToolDigest(m.tool, row.value.input, row.value.output);
      AddMapping(t, m);
    }
  }

  lemma RepointNames(t: Tables, server: ServerId, target: ServerId)
    requires Sound(t)
    ensures forall id :: id in t.mappings ==> NamesItsTool(Repointed(t.mappings, server, target)[id])
  {
    forall id | id in t.mappings
      ensures NamesItsTool(Repointed(t.mappings, server, target)[id])
    {
      var m := t.mappings[id];
      var i, o :| m.digest == ComputeToolDigest(m.tool, i, o);
      var m' := Repointed(t.mappings, server, target)[id];
      assert m'.digest == ComputeToolDigest(m'.tool, i, o);
    }
  }

  lemma RepointSound(t: Tables, server: ServerId, target: ServerId)
    requires Sound(t) && UniqueMappings(Repointed(t.mappings, server, target))
    requires target in t.servers || MappingsOf(t.mappings, server) == {}
    ensures Sound(t.(mappings := Repointed(t.mappings, server, target)))
  {
    RepointNames(t, server, target);
    DigestIndexRedundant(Repointed(t.mappings, server, target));
  }

  lemma RepointNothing(mappings: map<MappingId, Mapping>, server: ServerId, target: ServerId)
    requires MappingsOf(mappings, server) == {}
    ensures Repointed(mappings, server, target) == mappings
  {
  }

  /** Both servers link the same tool to the same capability. */
  predicate Clash(mappings: map<MappingId, Mapping>, a: ServerId, b: ServerId) {
    exists i, j | i in MappingsOf(mappings, a) && j in MappingsOf(mappings, b) ::
      mappings[i].capability == mappings[j].capability && mappings[i].tool == mappings[j].tool
  }

  lemma RepointUnique(mappings: map<MappingId, Mapping>, server: ServerId, target: ServerId)
    requires UniqueTools(mappings) && server != target
    ensures UniqueTools(Repointed(mappings, server, target)) <==> !Clash(mappings, server, target)
  {
    var moved := Repointed(mappings, server, target);
    if Clash(mappings, server, target) {
      var i, j :| i in MappingsOf(mappings, server) && j in MappingsOf(mappings, target)
        && mappings[i].capability == mappings[j].capability && mappings[i].tool == mappings[j].tool;
      assert moved[i].server == moved[j].server && moved[i].tool == moved[j].tool;
    }
  }

  /** Whether a migration goes through: the server is in its grace period, and if it has mappings the
      target exists and links none of the same tools. */
  predicate MigrationAccepted(t: Tables, server: ServerId, target: ServerId) {
    && server in t.servers && t.servers[server].phase == Some(GracePeriod)
    && (MappingsOf(t.mappings, server) == {} ||
        (target in t.servers && (target == server || !Clash(t.mappings, server, target))))
  }

  lemma RepointedUnique(t: Tables, server: ServerId, target: ServerId)
    requires Sound(t)
    ensures UniqueMappings(Repointed(t.mappings, server, target)) <==>
      server == target || !Clash(t.mappings, server, target)
  {
    RepointNames(t, server, target);
    DigestIndexRedundant(Repointed(t.mappings, server, target));
    if server == target {
      assert Repointed(t.mappings, server, target) == t.mappings;
    } else {
      RepointUnique(t.mappings, server, target);
    }
  }

  lemma MigrationOutcome(t: Tables, server: ServerId, target: ServerId, now: Time)
    ensures Apply(t, CallDecommission(server, Migration, Some(target), now)).1 == Done <==>
      && server in t.servers && t.servers[server].phase == Some(GracePeriod)
      && (MappingsOf(t.mappings, server) == {} ||
          (target in t.servers && UniqueMappings(Repointed(t.mappings, server, target))))
  {
  }

  lemma MigrationDecided(t: Tables, server: ServerId, target: ServerId, now: Time)
    requires Sound(t)
    ensures MigrationAccepted(t, server, target) <==>
      Apply(t, CallDecommission(server, Migration, Some(target), now)).1 == Done
  {
    RepointedUnique(t, server, target);
    MigrationOutcome(t, server, target, now);
  }

  /** Servers may change but not disappear. */
  lemma ServersSound(t: Tables, servers: map<ServerId, Server>)
    requires Sound(t) && servers.Keys == t.servers.Keys
    ensures Sound(t.(servers := servers))
  {
  }

  lemma DecommissionSound(t: Tables, server: ServerId, phase: Phase, replacement: Option<ServerId>, now: Time)
    requires Sound(t)
    ensures Sound(Step(t, CallDecommission(server, phase, replacement, now)))
  {
    if Apply(t, CallDecommission(server, phase, replacement, now)).1 == Done {
      var servers := t.servers[server := Entered(t.servers[server], phase, now)];
      assert servers.Keys == t.servers.Keys;
      ServersSound(t, servers);
      match phase
      case GracePeriod =>
      case Sunset => SameLinksSound(t.(servers := servers), t.mappings - MappingsOf(t.mappings, server));
      case Migration =>
        if replacement.Some? {
          DigestIndexRedundant(t.mappings);
          if MappingsOf(t.mappings, server) == {} {
            RepointNothing(t.mappings, server, replacement.value);
          }
          RepointSound(t, server, replacement.value);
          ServersSound(t.(mappings := Repointed(t.mappings, server, replacement.value)), servers);
        }
    }
  }

  lemma InspectLinks(t: Tables, server: ServerId, listing: Listing, now: Time)
    ensures var t' := Step(t, CallInspect(server, listing, now));
      && t'.mappings.Keys == t.mappings.Keys && t'.servers.Keys == t.servers.Keys && t'.nextId == t.nextId
    ensures SameLinks(t.mappings, Step(t, CallInspect(server, listing, now)).mappings)
  {
    if server in t.servers && !listing.Listed? {
      var cause := if listing.TimedOut? then ServerTimeout else ServerUnreachable;
      SuspendLinks(t.mappings, ActiveOn(t.mappings, server), StaleUnverified, cause, now);
    } else if server in t.servers {
      var affected := Affected(t.servers[server].tools, ByName(listing.tools));
      SuspendLinks(t.mappings, Drifting(t.mappings, server, affected), Stale, Drifted, now);
    }
  }

  lemma SuspendLinks(mappings: map<MappingId, Mapping>, ids: set<MappingId>, status: Status, cause: FailureClass,
                     now: Time)
    ensures SameLinks(mappings, UpdateRows(mappings, ids, m => Suspend(m, status, cause, now)))
  {
  }

  lemma InspectSound(t: Tables, server: ServerId, listing: Listing, now: Time)
    requires Sound(t)
    ensures Sound(Step(t, CallInspect(server, listing, now)))
  {
    InspectLinks(t, server, listing, now);
    var t' := Step(t, CallInspect(server, listing, now));
    SameLinksSound(t, t'.mappings);
    ServersSound(t.(mappings := t'.mappings), t'.servers);
    SoundIgnoresVersions(t.(mappings := t'.mappings, servers := t'.servers), t'.versions);
    assert t' == t.(mappings := t'.mappings, servers := t'.servers, versions := t'.versions);
  }

  lemma SoundIgnoresVersions(t: Tables, versions: multiset<ToolVersion>)
    requires Sound(t)
    ensures Sound(t.(versions := versions))
  {
  }

  lemma RetireSound(t: Tables, cause: Option<FailureClass>, ids: set<MappingId>)
    requires Sound(t)
    ensures Sound(Step(t, CallRetire(cause, ids)))
  {
    var selected := CapabilityService.Selected(t.mappings, cause, ids);
    RetireLinks(t.mappings, selected);
    SameLinksSound(t, UpdateRows(t.mappings, selected, Retire));
  }

  lemma RetireLinks(mappings: map<MappingId, Mapping>, ids: set<MappingId>)
    ensures SameLinks(mappings, UpdateRows(mappings, ids, Retire))
  {
  }

  lemma StepSound(t: Tables, call: Call)
    requires Sound(t)
    ensures Sound(Step(t, call))
  {
    match call
    case CallRegister(_, _, _) =>
    case CallInspect(server, listing, now) => InspectSound(t, server, listing, now);
    case CallDecommission(server, phase, replacement, now) => DecommissionSound(t, server, phase, replacement, now);
    case CallCreate(capability, server, tool, now) => CreateSound(t, capability, server, tool, now);
    case CallReview(id, decision) => ReviewSound(t, id, decision);
    case CallRetire(cause, ids) => RetireSound(t, cause, ids);
  }

  lemma {:induction false} RunSound(t: Tables, calls: seq<Call>)
    requires Sound(t)
    ensures Sound(Run(t, calls))
    decreases |calls|
  {
    if calls != [] {
      StepSound(t, calls[0]);
      RunSound(Step(t, calls[0]), calls[1..]);
    }
  }

  predicate UniqueEndpoints(servers: map<ServerId, Server>) {
    forall a, b | a in servers && b in servers && a != b :: servers[a].endpoint != servers[b].endpoint
  }

  lemma StepEndpoints(t: Tables, call: Call)
    requires UniqueEndpoints(t.servers)
    ensures UniqueEndpoints(Step(t, call).servers)
  {
    match call
    case CallRegister(endpoint, listing, now) => RegisterEndpoints(t, endpoint, listing, now);
    case CallInspect(server, listing, now) => InspectServers(t, server, listing, now);
    case CallDecommission(server, phase, replacement, now) => DecommissionServers(t, server, phase, replacement, now);
    case CallCreate(_, _, _, _) => OtherServers(t, call);
    case CallReview(_, _) => OtherServers(t, call);
    case CallRetire(_, _) => OtherServers(t, call);
  }

  lemma RegisterEndpoints(t: Tables, endpoint: string, listing: Listing, now: Time)
    requires UniqueEndpoints(t.servers)
    ensures UniqueEndpoints(Step(t, CallRegister(endpoint, listing, now)).servers)
  {
  }

  /** The same servers, at the same endpoints. */
  predicate SameEndpoints(servers: map<ServerId, Server>, servers': map<ServerId, Server>) {
    servers'.Keys == servers.Keys && forall s | s in servers :: servers'[s].endpoint == servers[s].endpoint
  }

  lemma InspectServers(t: Tables, server: ServerId, listing: Listing, now: Time)
    ensures SameEndpoints(t.servers, Step(t, CallInspect(server, listing, now)).servers)
  {
  }

  lemma InspectPhases(t: Tables, server: ServerId, listing: Listing, now: Time, s: ServerId)
    requires s in t.servers
    ensures var servers' := Step(t, CallInspect(server, listing, now)).servers;
      s in servers' && servers'[s].phase == t.servers[s].phase
  {
  }

  lemma DecommissionServers(t: Tables, server: ServerId, phase: Phase, replacement: Option<ServerId>, now: Time)
    ensures SameEndpoints(t.servers, Step(t, CallDecommission(server, phase, replacement, now)).servers)
  {
  }

  lemma OtherServers(t: Tables, call: Call)
    requires call.CallCreate? || call.CallReview? || call.CallRetire?
    ensures Step(t, call).servers == t.servers
  {
  }

  /** No run registers two servers at one endpoint. */
  lemma {:induction false} RunEndpoints(t: Tables, calls: seq<Call>)
    requires UniqueEndpoints(t.servers)
    ensures UniqueEndpoints(Run(t, calls).servers)
    decreases |calls|
  {
    if calls != [] {
      StepEndpoints(t, calls[0]);
      RunEndpoints(Step(t, calls[0]), calls[1..]);
    }
  }

  // ---------------------------------------------------------------- one row, one step

  /** What any call may do to a mapping that survives it: it keeps its capability, tool and reviews,
      and only its own approval makes it active. */
  ghost predicate RowStep(m: Mapping, m': Mapping, approved: bool) {
    && m'.capability == m.capability && m'.tool == m.tool && m.reviews <= m'.reviews
    && (approved ==> m'.reviews != [] && m'.reviews[|m'.reviews| - 1].decision == Approved)
    && (m'.status == Active && !approved ==> m.status == Active && m'.digest == m.digest)
  }

  lemma InspectRows(t: Tables, server: ServerId, listing: Listing, now: Time, id: MappingId)
    requires id in Step(t, CallInspect(server, listing, now)).mappings
    ensures id in t.mappings && RowStep(t.mappings[id], Step(t, CallInspect(server, listing, now)).mappings[id], false)
  {
  }

  lemma ReviewRows(t: Tables, reviewed: MappingId, decision: Decision, id: MappingId)
    requires Sound(t) && id in Step(t, CallReview(reviewed, decision)).mappings
    ensures id in t.mappings
    ensures RowStep(t.mappings[id], Step(t, CallReview(reviewed, decision)).mappings[id],
                    reviewed == id && decision == Approved)
  {
    if reviewed in t.mappings && decision != OtherDecision {
      ReviewState(t, reviewed, decision);
      ReviewedRow(t.servers, t.mappings[reviewed], decision);
    }
  }

  lemma ReviewedRow(servers: map<ServerId, Server>, m: Mapping, decision: Decision)
    ensures RowStep(m, AfterReview(servers, m, decision), decision == Approved)
  {
  }

  lemma DecommissionRows(t: Tables, server: ServerId, phase: Phase, replacement: Option<ServerId>,
                         now: Time, id: MappingId)
    requires id in Step(t, CallDecommission(server, phase, replacement, now)).mappings
    ensures id in t.mappings
    ensures RowStep(t.mappings[id], Step(t, CallDecommission(server, phase, replacement, now)).mappings[id], false)
  {
  }

  lemma CreateRows(t: Tables, capability: CapabilityId, server: ServerId, tool: string, now: Time, id: MappingId)
    requires Sound(t) && id in Step(t, CallCreate(capability, server, tool, now)).mappings && id in t.mappings
    ensures RowStep(t.mappings[id], Step(t, CallCreate(capability, server, tool, now)).mappings[id], false)
  {
    assert id < t.nextId;
    assert Step(t, CallCreate(capability, server, tool, now)).mappings[id] == t.mappings[id];
  }

  lemma RetireRows(t: Tables, cause: Option<FailureClass>, ids: set<MappingId>, id: MappingId)
    requires id in Step(t, CallRetire(cause, ids)).mappings
    ensures id in t.mappings && RowStep(t.mappings[id], Step(t, CallRetire(cause, ids)).mappings[id], false)
  {
  }

  lemma StepRows(t: Tables, call: Call, id: MappingId)
    requires Sound(t) && id in Step(t, call).mappings
    ensures id in t.mappings ==>
      RowStep(t.mappings[id], Step(t, call).mappings[id], call == CallReview(id, Approved))
    ensures id !in t.mappings ==> id == t.nextId && call.CallCreate?
  {
    match call
    case CallRegister(_, _, _) =>
    case CallInspect(server, listing, now) => InspectRows(t, server, listing, now, id);
    case CallDecommission(server, phase, replacement, now) => DecommissionRows(t, server, phase, replacement, now, id);
    case CallReview(reviewed, decision) => ReviewRows(t, reviewed, decision, id);
    case CallRetire(cause, ids) => RetireRows(t, cause, ids, id);
    case CallCreate(capability, server, tool, now) =>
      if id in t.mappings {
        CreateRows(t, capability, server, tool, now, id);
      }
  }

  // ---------------------------------------------------------------- the collision gate

  ghost predicate HasApproval(m: Mapping) {
    exists i :: 0 <= i < |m.reviews| && m.reviews[i].decision == Approved
  }

  /** Of two mappings of a capability that name different tools, the later one is active only after
      an approval. */
  ghost predicate Gated(t: Tables) {
    forall a, b | a in t.mappings && b in t.mappings && a < b
      && t.mappings[a].capability == t.mappings[b].capability && t.mappings[a].tool != t.mappings[b].tool
      && t.mappings[b].status == Active :: HasApproval(t.mappings[b])
  }

  lemma ApprovalStays(m: Mapping, m': Mapping)
    requires m.reviews <= m'.reviews && HasApproval(m)
    ensures HasApproval(m')
  {
    var i :| 0 <= i < |m.reviews| && m.reviews[i].decision == Approved;
    assert m'.reviews[i] == m.reviews[i];
  }

  lemma StepGated(t: Tables, call: Call)
    requires Sound(t) && Gated(t)
    ensures Gated(Step(t, call))
  {
    var t' := Step(t, call);
    forall a, b | a in t'.mappings && b in t'.mappings && a < b
      && t'.mappings[a].capability == t'.mappings[b].capability && t'.mappings[a].tool != t'.mappings[b].tool
      && t'.mappings[b].status == Active
      ensures HasApproval(t'.mappings[b])
    {
      StepRows(t, call, a);
      StepRows(t, call, b);
      if b in t.mappings {
        PairGated(t, a, b, t'.mappings[a], t'.mappings[b], call == CallReview(b, Approved));
      } else {
        CreatedBehindGate(t, call, a);
      }
    }
  }

  lemma PairGated(t: Tables, a: MappingId, b: MappingId, m: Mapping, n: Mapping, approved: bool)
    requires Gated(t) && a in t.mappings && b in t.mappings && a < b
    requires t.mappings[a].capability == m.capability == n.capability && t.mappings[a].tool == m.tool != n.tool
    requires RowStep(t.mappings[b], n, approved) && n.status == Active
    ensures HasApproval(n)
  {
    if approved {
      assert n.reviews[|n.reviews| - 1].decision == Approved;
    } else {
      ApprovalStays(t.mappings[b], n);
    }
  }

  /** A mapping created beside one of another tool starts inactive. */
  lemma CreatedBehindGate(t: Tables, call: Call, a: MappingId)
    requires Sound(t) && call.CallCreate? && a in t.mappings
    requires t.nextId in Step(t, call).mappings
    requires t.mappings[a].capability == call.capability && t.mappings[a].tool != call.tool
    ensures Step(t, call).mappings[t.nextId].status == PendingReview
  {
  }

  /** In every run from the empty tables the gate holds. */
  lemma {:induction false} CollisionGate(t: Tables, calls: seq<Call>)
    requires Sound(t) && Gated(t)
    ensures Gated(Run(t, calls))
    decreases |calls|
  {
    if calls != [] {
      StepGated(t, calls[0]);
      StepSound(t, calls[0]);
      CollisionGate(Step(t, calls[0]), calls[1..]);
    }
  }

  lemma CollisionGateFromEmpty(calls: seq<Call>)
    ensures Gated(Run(EMPTY, calls))
  {
    CollisionGate(EMPTY, calls);
  }

  // ---------------------------------------------------------------- fail closed

  /** The mapping exists no longer, or is not active. */
  predicate Dormant(t: Tables, id: MappingId) {
    id < t.nextId && (id in t.mappings ==> t.mappings[id].status != Active)
  }

  lemma {:induction false} DormantUntilApproved(t: Tables, calls: seq<Call>, id: MappingId)
    requires Sound(t) && Dormant(t, id) && CallReview(id, Approved) !in calls
    ensures Dormant(Run(t, calls), id)
    decreases |calls|
  {
    if calls != [] {
      var t' := Step(t, calls[0]);
      if id in t'.mappings {
        StepRows(t, calls[0], id);
      }
      NextIdGrows(t, calls[0]);
      StepSound(t, calls[0]);
      DormantUntilApproved(t', calls[1..], id);
    }
  }

  lemma NextIdGrows(t: Tables, call: Call)
    ensures t.nextId <= Step(t, call).nextId
  {
  }

  /** A mapping out of service at one point of a run is routed to later only if it was approved in
      between. */
  lemma FailClosed(t: Tables, calls: seq<Call>, id: MappingId, capability: CapabilityId)
    requires Sound(t) && id in t.mappings && t.mappings[id].status != Active
    requires Routable(Run(t, calls), capability, id)
    ensures CallReview(id, Approved) in calls
  {
    if CallReview(id, Approved) !in calls {
      DormantUntilApproved(t, calls, id);
    }
  }

  /** What a failed inspection does to the server's active mappings, by the kind of failure. */
  lemma FailedInspectionMarks(t: Tables, server: ServerId, listing: Listing, now: Time, id: MappingId)
    requires server in t.servers && !listing.Listed? && id in t.mappings
    ensures var m, m' := t.mappings[id], Step(t, CallInspect(server, listing, now)).mappings[id];
      m' == if m.server == server && m.status == Active
        then m.(status := StaleUnverified, pendingSince := Some(now),
                failureClass := Some(if listing == TimedOut then ServerTimeout else ServerUnreachable))
        else m
  {
  }

  /** A failed inspection takes every mapping of the server out of service, until approved. */
  lemma FailedInspectionCloses(t: Tables, server: ServerId, listing: Listing, now: Time, calls: seq<Call>,
                               id: MappingId, capability: CapabilityId)
    requires Sound(t) && server in t.servers && !listing.Listed?
    requires id in t.mappings && t.mappings[id].server == server
    ensures Apply(t, CallInspect(server, listing, now)).1 == UnreachableServer
    ensures Routable(Run(Step(t, CallInspect(server, listing, now)), calls), capability, id) ==>
      CallReview(id, Approved) in calls
  {
    var t' := Step(t, CallInspect(server, listing, now));
    StepSound(t, CallInspect(server, listing, now));
    assert t'.mappings[id].status != Active;
    if Routable(Run(t', calls), capability, id) {
      FailClosed(t', calls, id, capability);
    }
  }
}
