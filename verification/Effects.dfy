/** What each call does to the rows it touches and when it is refused, stated on the rows alone: an
    account of the services that does not go through their own helper functions. */
module Effects {
  import opened Options
  import opened Digest
  import opened ToolDiff
  import opened Tables
  import opened RegistryService
  import opened CapabilityService
  import opened RoutingService
  import opened Lifecycle

  // ---------------------------------------------------------------- registering

  predicate EndpointTaken(t: Tables, endpoint: string) {
    exists s | s in t.servers :: t.servers[s].endpoint == endpoint
  }

  predicate NameTwice(defs: seq<ToolDefinition>) {
    exists i, j | 0 <= i < j < |defs| :: defs[i].name == defs[j].name
  }

  /** A duplicate endpoint is refused before the server is contacted, an unreachable server before its
      tools are looked at; a refusal changes nothing. */
  lemma RegisterDecides(t: Tables, endpoint: string, listing: Listing, now: Time)
    ensures var (t', outcome) := Apply(t, CallRegister(endpoint, listing, now));
      && (outcome == DuplicateServer <==> EndpointTaken(t, endpoint))
      && (outcome == UnreachableServer <==>
           !EndpointTaken(t, endpoint) && (listing == TimedOut || listing == Failed))
      && (outcome == IntegrityFault <==>
           !EndpointTaken(t, endpoint) && listing.Listed? && NameTwice(listing.tools))
      && (outcome == Done <==> !EndpointTaken(t, endpoint) && listing.Listed? && !NameTwice(listing.tools))
      && (outcome != Done ==> t' == t)
  {
  }

  lemma {:induction false} RowOfEach(defs: seq<ToolDefinition>, i: nat)
    requires i < |defs| && !NameTwice(defs)
    ensures var d := defs[i];
      d.name in RowsOf(defs) && RowsOf(defs)[d.name] == Tool(d.description, d.input, d.output)
  {
    var front, last := defs[..|defs| - 1], |defs| - 1;
    if i < last {
      assert forall j, k :: 0 <= j < k < |front| ==> front[j].name == defs[j].name && front[k].name == defs[k].name;
      RowOfEach(front, i);
      assert front[i] == defs[i] && defs[i].name != defs[last].name;
    }
  }

  /** A registered server is stored under a new id with exactly the listed tools. */
  lemma RegisterStores(t: Tables, endpoint: string, listing: Listing, now: Time)
    requires Apply(t, CallRegister(endpoint, listing, now)).1 == Done
    ensures var t' := Step(t, CallRegister(endpoint, listing, now));
      && t.nextId in t'.servers
      && t' == t.(servers := t.servers[t.nextId := t'.servers[t.nextId]], nextId := t.nextId + 1)
      && t'.servers[t.nextId] == Server(endpoint, Unknown, None, t'.servers[t.nextId].tools, now, None)
    ensures var tools := Step(t, CallRegister(endpoint, listing, now)).servers[t.nextId].tools;
      && (forall n :: n in tools ==> exists d :: d in listing.tools && d.name == n)
      && (forall d :: d in listing.tools ==>
           d.name in tools && tools[d.name] == Tool(d.description, d.input, d.output))
  {
    RegisterDecides(t, endpoint, listing, now);
    var tools := Step(t, CallRegister(endpoint, listing, now)).servers[t.nextId].tools;
    assert tools == RowsOf(listing.tools);
    forall d | d in listing.tools
      ensures d.name in tools && tools[d.name] == Tool(d.description, d.input, d.output)
    {
      var i :| 0 <= i < |listing.tools| && listing.tools[i] == d;
      RowOfEach(listing.tools, i);
    }
  }

  // ---------------------------------------------------------------- creating a mapping

  /** Every mapping of the capability names this tool, on whatever server. */
  predicate OnlyTool(t: Tables, capability: CapabilityId, tool: string) {
    forall id | id in t.mappings :: t.mappings[id].capability == capability ==> t.mappings[id].tool == tool
  }

  /** A new mapping carries the digest of its tool row. It is active if the capability has no mapping to
      a tool of another name, and otherwise waits for review from now on. */
  lemma CreateStores(t: Tables, capability: CapabilityId, server: ServerId, tool: string, now: Time)
    requires Apply(t, CallCreate(capability, server, tool, now)).1 == Done
    ensures server in t.servers && tool in t.servers[server].tools
    ensures var t' := Step(t, CallCreate(capability, server, tool, now));
      var row := t.servers[server].tools[tool];
      var digest := ComputeToolDigest(tool, row.input, row.output);
      t' == t.(nextId := t.nextId + 1, mappings := t.mappings[t.nextId :=
        if OnlyTool(t, capability, tool)
        then Mapping(capability, server, tool, 1.0, digest, Active, None, None, [])
        else Mapping(capability, server, tool, 1.0, digest, PendingReview, Some(SchemaMismatch), Some(now), [])])
  {
  }

  /** A second server offering the same tool is load balancing: its mapping is routed to at once. A tool
      of another name is not, until reviewed. */
  lemma CreatedRoutable(t: Tables, capability: CapabilityId, server: ServerId, tool: string, now: Time)
    requires Apply(t, CallCreate(capability, server, tool, now)).1 == Done
    ensures Routable(Step(t, CallCreate(capability, server, tool, now)), capability, t.nextId) <==>
      OnlyTool(t, capability, tool)
  {
    CreateStores(t, capability, server, tool, now);
  }

  // ---------------------------------------------------------------- reviewing

  /** On sound tables a review fails only for a missing mapping or an unknown decision, changing
      nothing. */
  lemma ReviewDecides(t: Tables, id: MappingId, decision: Decision)
    requires Sound(t)
    ensures var (t', outcome) := Apply(t, CallReview(id, decision));
      && outcome == (if id !in t.mappings then MappingNotFound
                     else if decision == OtherDecision then InvalidRequest
                     else Done)
      && (outcome != Done ==> t' == t)
  {
    ReviewSound(t, id, decision);
  }

  /** An approval activates the mapping, takes it off the clock, and adopts the digest of its tool row if
      there is one. */
  lemma ApprovalStores(t: Tables, id: MappingId)
    requires Sound(t) && id in t.mappings
    ensures var m := t.mappings[id];
      var digest :=
        if m.server in t.servers && m.tool in t.servers[m.server].tools
        then
          var row := t.servers[m.server].tools[m.tool];
          ComputeToolDigest(m.tool, row.input, row.output)
        else m.digest;
      Step(t, CallReview(id, Approved)) == t.(mappings := t.mappings[id :=
        m.(status := Active, pendingSince := None, digest := digest,
           reviews := m.reviews + [Review(m.digest, digest, Approved)])])
  {
    ReviewState(t, id, Approved);
  }

  /** A denial rejects the mapping: off the clock, out of the queue, digest kept, one denial on record. */
  lemma DenialStores(t: Tables, id: MappingId)
    requires Sound(t) && id in t.mappings
    ensures var m := t.mappings[id];
      var t' := Step(t, CallReview(id, Denied));
      && t' == t.(mappings := t.mappings[id :=
           m.(status := Rejected, pendingSince := None, reviews := m.reviews + [Review(m.digest, m.digest, Denied)])])
      && id !in InLimbo(t'.mappings)
  {
    ReviewState(t, id, Denied);
  }

  /** A denied mapping is routed to in a later run only after its own approval. */
  lemma DenialHolds(t: Tables, id: MappingId, calls: seq<Call>, capability: CapabilityId)
    requires Sound(t) && id in t.mappings
    requires Routable(Run(Step(t, CallReview(id, Denied)), calls), capability, id)
    ensures CallReview(id, Approved) in calls
  {
    DenialStores(t, id);
    StepSound(t, CallReview(id, Denied));
    FailClosed(Step(t, CallReview(id, Denied)), calls, id, capability);
  }

  // ---------------------------------------------------------------- bulk retirement

  /** In the queue, of the class if one is given, and listed if a list is given. */
  predicate Retires(m: Mapping, id: MappingId, cause: Option<FailureClass>, ids: set<MappingId>) {
    && (m.status == Stale || m.status == PendingReview || m.status == StaleUnverified)
    && (cause.None? || m.failureClass == cause)
    && (ids == {} || id in ids)
  }

  /** A class and a list together retire only what is in both. */
  lemma RetireStores(t: Tables, cause: Option<FailureClass>, ids: set<MappingId>)
    ensures var (t', outcome) := Apply(t, CallRetire(cause, ids));
      && outcome == (if cause.None? && ids == {} then InvalidRequest else Done)
      && t' == t.(mappings := t'.mappings) && t'.mappings.Keys == t.mappings.Keys
      && (outcome != Done ==> t' == t)
      && (outcome == Done ==> forall id :: id in t.mappings ==>
           var m := t.mappings[id];
           t'.mappings[id] ==
             if Retires(m, id, cause, ids)
             then m.(status := Rejected, pendingSince := None,
                     reviews := m.reviews + [Review(m.digest, m.digest, Denied)])
             else m)
  {
  }

  // ---------------------------------------------------------------- inspecting

  /** Some tool stored and listed has an unreadable schema on one side. */
  predicate Unreadable(tools: map<string, Tool>, curr: map<string, ToolDefinition>) {
    exists n | n in tools && n in curr :: !Readable(tools[n].input) || !Readable(curr[n].input)
  }

  /** Which exception an inspection ends in, if any. */
  lemma InspectDecides(t: Tables, server: ServerId, listing: Listing, now: Time)
    ensures var (t', outcome) := Apply(t, CallInspect(server, listing, now));
      && (outcome == ServerNotFound <==> server !in t.servers)
      && (outcome == UnreachableServer <==> server in t.servers && !listing.Listed?)
      && (outcome == TypeError <==>
           && server in t.servers && listing.Listed?
           && Unreadable(t.servers[server].tools, ByName(listing.tools)))
      && (outcome == ServerNotFound || outcome == TypeError ==> t' == t)
      && (outcome in {ServerNotFound, UnreachableServer, TypeError, Done})
  {
  }

  /** A failed inspection keeps every tool and version and reports the server unreachable. */
  lemma FailedInspectionServer(t: Tables, server: ServerId, listing: Listing, now: Time)
    requires server in t.servers && !listing.Listed?
    ensures var t' := Step(t, CallInspect(server, listing, now));
      t' == t.(servers := t.servers[server := t.servers[server].(health := Unreachable)], mappings := t'.mappings)
      && t'.mappings.Keys == t.mappings.Keys
  {
  }

  /** The stored row of a tool that is also listed differs from the listed definition. */
  predicate Drifts(row: Tool, def: ToolDefinition) {
    Compare(ToolDefinition(def.name, row.description, row.input, row.output), def).Differs?
  }

  /** A successful inspection leaves exactly the listed tools: a stored row stays if it does not differ,
      and is the listed definition otherwise. */
  lemma InspectStores(t: Tables, server: ServerId, defs: seq<ToolDefinition>, now: Time)
    requires Apply(t, CallInspect(server, Listed(defs), now)).1 == Done
    ensures server in t.servers && server in Step(t, CallInspect(server, Listed(defs), now)).servers
    ensures var t' := Step(t, CallInspect(server, Listed(defs), now));
      var row, tools, curr := t.servers[server], t'.servers[server].tools, ByName(defs);
      && t'.servers == t.servers[server := row.(health := Reachable, updatedAt := now, tools := tools)]
      && t'.nextId == t.nextId && tools.Keys == curr.Keys
      && (forall n :: n in curr ==> (
            if n in row.tools && !Drifts(row.tools[n], curr[n]) then tools[n] == row.tools[n]
            else tools[n] == Tool(curr[n].description, curr[n].input, curr[n].output)))
  {
  }

  /** It puts into limbo, as drifted and from now on, exactly the server's active mappings to a stored
      tool that is no longer listed or differs. */
  lemma InspectMarks(t: Tables, server: ServerId, defs: seq<ToolDefinition>, now: Time, id: MappingId)
    requires Apply(t, CallInspect(server, Listed(defs), now)).1 == Done && id in t.mappings
    ensures server in t.servers && id in Step(t, CallInspect(server, Listed(defs), now)).mappings
    ensures var m, m' := t.mappings[id], Step(t, CallInspect(server, Listed(defs), now)).mappings[id];
      var tools, curr := t.servers[server].tools, ByName(defs);
      m' ==
        if m.server == server && m.status == Active && m.tool in tools
           && (m.tool !in curr || Drifts(tools[m.tool], curr[m.tool]))
        then m.(status := Stale, failureClass := Some(Drifted), pendingSince := Some(now))
        else m
  {
  }

  /** The version an inspection records of a stored tool, if it records one: the old schemas, breaking if
      the tool is gone or its callers would break. */
  predicate Recorded(tools: map<string, Tool>, curr: map<string, ToolDefinition>, v: ToolVersion) {
    && v.tool in tools && v.input == tools[v.tool].input && v.output == tools[v.tool].output
    && (v.tool in curr ==> Drifts(tools[v.tool], curr[v.tool]))
    && (v.isBreaking <==> (
         v.tool in curr ==>
         Compare(Definition(v.tool, tools[v.tool]), curr[v.tool]).Differs?
         && Compare(Definition(v.tool, tools[v.tool]), curr[v.tool]).change.isBreaking))
  }

  lemma RecordedAre(server: ServerId, tools: map<string, Tool>, curr: map<string, ToolDefinition>, v: ToolVersion)
    requires !Faults(tools, curr) && forall n :: n in curr ==> curr[n].name == n
    ensures v in VersionsOf(server, Affected(tools, curr), tools, Breaking(tools, curr)) <==>
      v.server == server && Recorded(tools, curr, v)
  {
    var affected, breaking := Affected(tools, curr), Breaking(tools, curr);
    if v.server == server && Recorded(tools, curr, v) {
      assert v.tool in affected;
      assert v == ToolVersion(server, v.tool, tools[v.tool].input, tools[v.tool].output, v.tool in breaking);
    }
  }

  /** An inspection records each such version once, and nothing else. */
  lemma InspectRecords(t: Tables, server: ServerId, defs: seq<ToolDefinition>, now: Time, v: ToolVersion)
    requires Apply(t, CallInspect(server, Listed(defs), now)).1 == Done
    ensures server in t.servers
    ensures var t' := Step(t, CallInspect(server, Listed(defs), now));
      t'.versions[v] == t.versions[v] +
        if v.server == server && Recorded(t.servers[server].tools, ByName(defs), v) then 1 else 0
  {
    RecordedAre(server, t.servers[server].tools, ByName(defs), v);
  }

  /** For schemas of the usual form, the recorded version of a tool still listed is breaking exactly when
      a parameter is gone or newly required or the output schema changed. */
  lemma RecordedBreaking(t: Tables, server: ServerId, defs: seq<ToolDefinition>, now: Time, v: ToolVersion)
    requires Apply(t, CallInspect(server, Listed(defs), now)).1 == Done && v.server == server
    requires Step(t, CallInspect(server, Listed(defs), now)).versions[v] > t.versions[v]
    requires v.tool in ByName(defs) && WellFormed(v.input) && WellFormed(ByName(defs)[v.tool].input)
    ensures v.isBreaking <==>
      WouldBreak(v.input, v.output, ByName(defs)[v.tool].input, ByName(defs)[v.tool].output)
  {
    InspectRecords(t, server, defs, now, v);
    BreakingExactly(Definition(v.tool, t.servers[server].tools[v.tool]), ByName(defs)[v.tool]);
  }

  // ---------------------------------------------------------------- decommissioning

  predicate Follows(current: Option<Phase>, phase: Phase) {
    || (current == None && phase == GracePeriod)
    || (current == Some(GracePeriod) && phase == Migration)
    || (current == Some(Migration) && phase == Sunset)
  }

  /** The phases come in their order, none skipped, and none follows sunset. */
  lemma PhaseDecides(t: Tables, server: ServerId, phase: Phase, replacement: Option<ServerId>, now: Time)
    ensures var (t', outcome) := Apply(t, CallDecommission(server, phase, replacement, now));
      && (outcome == ServerNotFound <==> server !in t.servers)
      && (outcome == PhaseOrder <==> server in t.servers && !Follows(t.servers[server].phase, phase))
      && (outcome != Done ==> t' == t)
  {
  }

  /** Only the server's own row changes: its phase, and at the start of the grace period the time. */
  lemma DecommissionStores(t: Tables, server: ServerId, phase: Phase, replacement: Option<ServerId>, now: Time)
    requires Apply(t, CallDecommission(server, phase, replacement, now)).1 == Done
    ensures server in t.servers
    ensures var t' := Step(t, CallDecommission(server, phase, replacement, now));
      var row := t.servers[server];
      t' == t.(mappings := t'.mappings, servers := t.servers[server :=
        if phase == GracePeriod then row.(phase := Some(GracePeriod), decommissionedAt := Some(now))
        else row.(phase := Some(phase))])
  {
  }

  /** Mappings move only in a migration with a replacement, disappear only at sunset, and only the
      server's own do. */
  lemma DecommissionMappings(t: Tables, server: ServerId, phase: Phase, replacement: Option<ServerId>, now: Time,
                             id: MappingId)
    requires Apply(t, CallDecommission(server, phase, replacement, now)).1 == Done
    ensures var t' := Step(t, CallDecommission(server, phase, replacement, now));
      && (id in t'.mappings <==> id in t.mappings && !(phase == Sunset && t.mappings[id].server == server))
      && (id in t'.mappings ==>
           t'.mappings[id] ==
             if phase == Migration && replacement.Some? && t.mappings[id].server == server
             then t.mappings[id].(server := replacement.value)
             else t.mappings[id])
  {
  }
}
