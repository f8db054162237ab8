/** When the digest check of the routing service can fail: across all runs, an active mapping's
    digest is that of its current tool row, except after two kinds of call that can be told apart
    beforehand. */
module DigestCurrency {
  import opened Options
  import opened Digest
  import opened ToolDiff
  import opened Tables
  import opened RegistryService
  import opened CapabilityService
  import opened RoutingService
  import opened Lifecycle

  /** Every active mapping passes the digest check. */
  predicate Current(t: Tables) {
    forall id | id in t.mappings :: t.mappings[id].status == Active ==> Validated(t.servers, t.mappings[id])
  }

  predicate SameSchemas(a: Option<Tool>, b: Option<Tool>) {
    a.Some? && b.Some? && a.value.input == b.value.input && a.value.output == b.value.output
  }

  /** Every active mapping of the server finds the same schemas at the target. */
  predicate TargetMatches(t: Tables, server: ServerId, target: ServerId) {
    forall id | id in ActiveOn(t.mappings, server) ::
      SameSchemas(ToolRow(t.servers, server, t.mappings[id].tool), ToolRow(t.servers, target, t.mappings[id].tool))
  }

  /** Not the approval of a mapping whose tool row is gone, and not a migration of an active mapping
      to a server that does not offer the same tool. */
  predicate Guarded(t: Tables, call: Call) {
    match call
    case CallReview(id, decision) =>
      id in t.mappings && decision == Approved ==>
        ToolRow(t.servers, t.mappings[id].server, t.mappings[id].tool).Some?
    case CallDecommission(server, phase, replacement, _) =>
      phase == Migration && replacement.Some? && MigrationAccepted(t, server, replacement.value) ==>
        TargetMatches(t, server, replacement.value)
    case _ => true
  }

  /** What an inspection leaves active, it leaves as it was, tool row included. */
  lemma InspectKeepsRow(t: Tables, server: ServerId, listing: Listing, now: Time, id: MappingId)
    requires var t' := Step(t, CallInspect(server, listing, now));
      id in t'.mappings && t'.mappings[id].status == Active
    requires id in t.mappings && Validated(t.servers, t.mappings[id])
    ensures var t' := Step(t, CallInspect(server, listing, now));
      var m := t.mappings[id];
      t'.mappings[id] == m && ToolRow(t'.servers, m.server, m.tool) == ToolRow(t.servers, m.server, m.tool)
  {
    var m := t.mappings[id];
    if Apply(t, CallInspect(server, listing, now)).1 == Done && m.server == server {
      DoneKeepsRow(t, server, ByName(listing.tools), now, id);
    }
  }

  lemma DoneKeepsRow(t: Tables, server: ServerId, curr: map<string, ToolDefinition>, now: Time, id: MappingId)
    requires server in t.servers && id in t.mappings && t.mappings[id].server == server
    requires InspectionDone(t, server, curr, now).mappings[id].status == Active
    requires Validated(t.servers, t.mappings[id])
    ensures var t' := InspectionDone(t, server, curr, now);
      var m := t.mappings[id];
      t'.mappings[id] == m && ToolRow(t'.servers, server, m.tool) == ToolRow(t.servers, server, m.tool)
  {
    assert id in ActiveOn(t.mappings, server);
    assert t.mappings[id].tool !in Affected(t.servers[server].tools, curr);
  }

  lemma InspectCurrent(t: Tables, server: ServerId, listing: Listing, now: Time)
    requires Current(t)
    ensures Current(Step(t, CallInspect(server, listing, now)))
  {
    var t' := Step(t, CallInspect(server, listing, now));
    assert t'.mappings.Keys == t.mappings.Keys;
    forall id | id in t'.mappings && t'.mappings[id].status == Active
      ensures Validated(t'.servers, t'.mappings[id])
    {
      assert t.mappings[id].status == Active;
      InspectKeepsRow(t, server, listing, now, id);
    }
  }

  lemma ReviewCurrent(t: Tables, id: MappingId, decision: Decision)
    requires Sound(t) && Current(t)
    ensures Current(Step(t, CallReview(id, decision))) <==> Guarded(t, CallReview(id, decision))
  {
    if id in t.mappings && decision != OtherDecision {
      ReviewState(t, id, decision);
      OneRowCurrent(t, id, AfterReview(t.servers, t.mappings[id], decision));
    }
  }

  /** Replacing one row keeps the property exactly when the new row passes. */
  lemma OneRowCurrent(t: Tables, id: MappingId, m: Mapping)
    requires Current(t) && id in t.mappings
    ensures Current(t.(mappings := t.mappings[id := m])) <==> (m.status == Active ==> Validated(t.servers, m))
  {
    var mappings := t.mappings[id := m];
    assert mappings[id] == m;
    forall other | other in mappings && other != id && mappings[other].status == Active
      ensures Validated(t.servers, mappings[other])
    {
      assert mappings[other] == t.mappings[other];
    }
  }

  /** A re-pointed mapping stays validated exactly when the target's row has the same schemas. */
  lemma RepointedValidated(t: Tables, m: Mapping, target: ServerId)
    requires Validated(t.servers, m)
    ensures Validated(t.servers, m.(server := target)) <==>
      SameSchemas(ToolRow(t.servers, m.server, m.tool), ToolRow(t.servers, target, m.tool))
  {
    var here, there := ToolRow(t.servers, m.server, m.tool), ToolRow(t.servers, target, m.tool);
    if there.Some? {
      DigestDeterminesTool(m.tool, here.value.input, here.value.output, m.tool, there.value.input, there.value.output);
    }
  }

  lemma MigrationState(t: Tables, server: ServerId, target: ServerId, now: Time)
    requires Apply(t, CallDecommission(server, Migration, Some(target), now)).1 == Done
    ensures server in t.servers
    ensures Step(t, CallDecommission(server, Migration, Some(target), now)) ==
      t.(servers := t.servers[server := Entered(t.servers[server], Migration, now)],
         mappings := Repointed(t.mappings, server, target))
  {
  }

  lemma MigrationCurrent(t: Tables, server: ServerId, target: ServerId, now: Time)
    requires Current(t) && Apply(t, CallDecommission(server, Migration, Some(target), now)).1 == Done
    ensures Current(Step(t, CallDecommission(server, Migration, Some(target), now))) <==>
      TargetMatches(t, server, target)
  {
    var t' := Step(t, CallDecommission(server, Migration, Some(target), now));
    MigrationState(t, server, target, now);
    forall id | id in t.mappings && t.mappings[id].status == Active
      ensures Validated(t'.servers, t'.mappings[id]) <==> (
        id in ActiveOn(t.mappings, server) ==>
        SameSchemas(ToolRow(t.servers, server, t.mappings[id].tool), ToolRow(t.servers, target, t.mappings[id].tool)))
    {
      MigratedRow(t, server, target, now, id);
    }
    assert forall id :: id in t.mappings ==> t'.mappings[id].status == t.mappings[id].status;
  }

  lemma MigratedRow(t: Tables, server: ServerId, target: ServerId, now: Time, id: MappingId)
    requires id in t.mappings && t.mappings[id].status == Active && Validated(t.servers, t.mappings[id])
    requires server in t.servers
    ensures var servers := t.servers[server := Entered(t.servers[server], Migration, now)];
      var m, m' := t.mappings[id], Repointed(t.mappings, server, target)[id];
      Validated(servers, m') <==> (
        id in ActiveOn(t.mappings, server) ==>
        SameSchemas(ToolRow(t.servers, server, m.tool), ToolRow(t.servers, target, m.tool)))
  {
    PhaseKeepsRows(t, server, Migration, now);
    RepointedValidated(t, t.mappings[id], target);
  }

  lemma PhaseKeepsRows(t: Tables, server: ServerId, phase: Phase, now: Time)
    requires server in t.servers
    ensures forall s, n ::
      ToolRow(t.servers[server := Entered(t.servers[server], phase, now)], s, n) == ToolRow(t.servers, s, n)
  {
  }

  /** Known servers untouched, and every active mapping either untouched or checked. */
  lemma KeptCurrent(t: Tables, t': Tables)
    requires Sound(t) && Current(t)
    requires forall s :: s in t.servers ==> s in t'.servers && t'.servers[s] == t.servers[s]
    requires forall id :: id in t'.mappings && t'.mappings[id].status == Active ==>
      (id in t.mappings && t'.mappings[id] == t.mappings[id]) || Validated(t'.servers, t'.mappings[id])
    ensures Current(t')
  {
    forall id | id in t'.mappings && t'.mappings[id].status == Active
      ensures Validated(t'.servers, t'.mappings[id])
    {
      if id in t.mappings && t'.mappings[id] == t.mappings[id] {
        var m := t.mappings[id];
        assert m.server in t.servers;
        assert ToolRow(t'.servers, m.server, m.tool) == ToolRow(t.servers, m.server, m.tool);
        assert Validated(t.servers, m);
      }
    }
  }

  lemma CreateCurrent(t: Tables, capability: CapabilityId, server: ServerId, tool: string, now: Time)
    requires Sound(t) && Current(t)
    ensures Current(Step(t, CallCreate(capability, server, tool, now)))
  {
    var t' := Step(t, CallCreate(capability, server, tool, now));
    assert t'.servers == t.servers;
    var row := ToolRow(t.servers, server, tool);
    if row.Some? {
      assert Validated(t.servers, NewMapping(t, capability, server, tool, row.value, now));
    }
    KeptCurrent(t, t');
  }

  lemma RegisterCurrent(t: Tables, endpoint: string, listing: Listing, now: Time)
    requires Sound(t) && Current(t)
    ensures Current(Step(t, CallRegister(endpoint, listing, now)))
  {
    var t' := Step(t, CallRegister(endpoint, listing, now));
    assert t.nextId !in t.servers;
    assert t'.mappings == t.mappings;
    KeptCurrent(t, t');
  }

  lemma RetireCurrent(t: Tables, cause: Option<FailureClass>, ids: set<MappingId>)
    requires Sound(t) && Current(t)
    ensures Current(Step(t, CallRetire(cause, ids)))
  {
    KeptCurrent(t, Step(t, CallRetire(cause, ids)));
  }

  /** One step keeps the property exactly when it is guarded. */
  lemma StepCurrentIff(t: Tables, call: Call)
    requires Sound(t) && Current(t)
    ensures Current(Step(t, call)) <==> Guarded(t, call)
  {
    match call
    case CallInspect(server, listing, now) => InspectCurrent(t, server, listing, now);
    case CallReview(id, decision) => ReviewCurrent(t, id, decision);
    case CallDecommission(server, phase, replacement, now) =>
      if phase == Migration && replacement.Some? {
        MigrationCurrentIff(t, server, replacement.value, now);
      } else {
        DecommissionCurrent(t, server, phase, replacement, now);
      }
    case CallRegister(endpoint, listing, now) => RegisterCurrent(t, endpoint, listing, now);
    case CallCreate(capability, server, tool, now) => CreateCurrent(t, capability, server, tool, now);
    case CallRetire(cause, ids) => RetireCurrent(t, cause, ids);
  }

  lemma MigrationCurrentIff(t: Tables, server: ServerId, target: ServerId, now: Time)
    requires Sound(t) && Current(t)
    ensures Current(Step(t, CallDecommission(server, Migration, Some(target), now))) <==>
      (MigrationAccepted(t, server, target) ==> TargetMatches(t, server, target))
  {
    MigrationDecided(t, server, target, now);
    if MigrationAccepted(t, server, target) {
      MigrationCurrent(t, server, target, now);
    } else {
      RefusedUnchanged(t, CallDecommission(server, Migration, Some(target), now));
    }
  }

  /** Only an inspection that cannot reach its server changes the tables and still raises. */
  lemma RefusedUnchanged(t: Tables, call: Call)
    requires Apply(t, call).1 != Done && !call.CallInspect?
    ensures Step(t, call) == t
  {
  }

  /** Entering any other phase, or migrating without a replacement, re-points nothing. */
  lemma DecommissionCurrent(t: Tables, server: ServerId, phase: Phase, replacement: Option<ServerId>, now: Time)
    requires Current(t) && (phase == Migration ==> replacement.None?)
    ensures Current(Step(t, CallDecommission(server, phase, replacement, now)))
  {
    var t' := Step(t, CallDecommission(server, phase, replacement, now));
    if server in t.servers {
      PhaseKeepsRows(t, server, phase, now);
    }
    forall id | id in t'.mappings && t'.mappings[id].status == Active
      ensures Validated(t'.servers, t'.mappings[id])
    {
      assert t'.mappings[id] == t.mappings[id];
    }
  }

  predicate GuardedRun(t: Tables, calls: seq<Call>)
    decreases |calls|
  {
    calls == [] || (Guarded(t, calls[0]) && GuardedRun(Step(t, calls[0]), calls[1..]))
  }

  /** Current after every prefix of the run. */
  predicate CurrentThroughout(t: Tables, calls: seq<Call>)
    decreases |calls|
  {
    Current(t) && (calls == [] || CurrentThroughout(Step(t, calls[0]), calls[1..]))
  }

  /** The runs that keep every active mapping's digest current at every point are the guarded ones. */
  lemma {:induction false} RunCurrent(t: Tables, calls: seq<Call>)
    requires Sound(t) && Current(t)
    ensures CurrentThroughout(t, calls) <==> GuardedRun(t, calls)
    ensures GuardedRun(t, calls) ==> Current(Run(t, calls))
    decreases |calls|
  {
    if calls != [] {
      StepCurrentIff(t, calls[0]);
      StepSound(t, calls[0]);
      if Guarded(t, calls[0]) {
        RunCurrent(Step(t, calls[0]), calls[1..]);
      }
    }
  }

  /** Then the heaviest candidate is always the one selected: the digest check skips nothing. */
  lemma NothingSkipped(calls: seq<Call>, capability: CapabilityId, rows: seq<MappingId>)
    requires GuardedRun(EMPTY, calls)
    requires rows != [] && Candidates(Run(EMPTY, calls), capability, rows)
    ensures Routable(Run(EMPTY, calls), capability, rows[0])
  {
    RunCurrent(EMPTY, calls);
    assert rows[0] in rows;
  }

  // ---------------------------------------------------------------- what the check misses

  /** A mapping survives an inspection in service exactly when its tool is still listed and compares
      as identical; its digest is then that of the listed tool exactly when the input schemas agree. */
  lemma SurvivesInspection(t: Tables, server: ServerId, defs: seq<ToolDefinition>, now: Time, id: MappingId)
    requires Current(t) && server in t.servers && !Faults(t.servers[server].tools, ByName(defs))
    requires id in ActiveOn(t.mappings, server)
    ensures var m := t.mappings[id];
      var m' := Step(t, CallInspect(server, Listed(defs), now)).mappings[id];
      var curr := ByName(defs);
      && (m'.status == Active <==>
           m.tool in curr && Compare(Definition(m.tool, t.servers[server].tools[m.tool]), curr[m.tool]).Identical?)
      && (m'.status == Active ==>
           (m'.digest == ComputeToolDigest(m.tool, curr[m.tool].input, curr[m.tool].output)
            <==> t.servers[server].tools[m.tool].input == curr[m.tool].input))
  {
    var m := t.mappings[id];
    var rows, curr := t.servers[server].tools, ByName(defs);
    assert Validated(t.servers, m);
    if m.tool in curr && Compare(Definition(m.tool, rows[m.tool]), curr[m.tool]).Identical? {
      assert curr[m.tool].name == m.tool;
      IdenticalDigests(Definition(m.tool, rows[m.tool]), curr[m.tool]);
    }
  }

  /** The survivor is then routed to, whatever the comparison did not see. */
  lemma SurvivorRouted(t: Tables, server: ServerId, defs: seq<ToolDefinition>, now: Time, id: MappingId)
    requires Current(t) && server in t.servers && !Faults(t.servers[server].tools, ByName(defs))
    requires id in ActiveOn(t.mappings, server) && t.mappings[id].tool in ByName(defs)
    requires ToolRow(t.servers, server, t.mappings[id].tool).Some?
    requires var m := t.mappings[id];
      Compare(Definition(m.tool, t.servers[server].tools[m.tool]), ByName(defs)[m.tool]).Identical?
    ensures var m, curr := t.mappings[id], ByName(defs);
      var t' := Step(t, CallInspect(server, Listed(defs), now));
      && id in t'.mappings && Routable(t', m.capability, id)
      && (t'.mappings[id].digest == ComputeToolDigest(m.tool, curr[m.tool].input, curr[m.tool].output)
          <==> t.servers[server].tools[m.tool].input == curr[m.tool].input)
  {
    SurvivesInspection(t, server, defs, now, id);
    InspectLinks(t, server, Listed(defs), now);
    InspectCurrent(t, server, Listed(defs), now);
  }

  // ---------------------------------------------------------------- from drift to approval

  lemma VersionRecorded(t: Tables, server: ServerId, curr: map<string, ToolDefinition>, now: Time, n: string)
    requires server in t.servers && n in Affected(t.servers[server].tools, curr)
    ensures var row := t.servers[server].tools[n];
      ToolVersion(server, n, row.input, row.output, n in Breaking(t.servers[server].tools, curr))
        in InspectionDone(t, server, curr, now).versions - t.versions
  {
    var rows := t.servers[server].tools;
    var recorded := VersionsOf(server, Affected(rows, curr), rows, Breaking(rows, curr));
    assert InspectionDone(t, server, curr, now).versions - t.versions == multiset(recorded);
    assert ToolVersion(server, n, rows[n].input, rows[n].output, n in Breaking(rows, curr)) in recorded;
  }

  /** A mapping an inspection takes out of service keeps the digest of a version recorded by that
      inspection; if the tool is gone the version is breaking. */
  lemma StaleHasVersion(t: Tables, server: ServerId, defs: seq<ToolDefinition>, now: Time, id: MappingId)
    requires Current(t) && id in ActiveOn(t.mappings, server)
    requires Apply(t, CallInspect(server, Listed(defs), now)).1 == Done
    requires Step(t, CallInspect(server, Listed(defs), now)).mappings[id].status != Active
    ensures var t' := Step(t, CallInspect(server, Listed(defs), now));
      exists v :: v in t'.versions - t.versions && v.server == server && v.tool == t.mappings[id].tool
        && t'.mappings[id].digest == ComputeToolDigest(v.tool, v.input, v.output)
        && (v.tool !in ByName(defs) ==> v.isBreaking)
  {
    var m, rows, curr := t.mappings[id], t.servers[server].tools, ByName(defs);
    assert Validated(t.servers, m);
    assert m.tool in Affected(rows, curr);
    VersionRecorded(t, server, curr, now, m.tool);
    var v := ToolVersion(server, m.tool, rows[m.tool].input, rows[m.tool].output, m.tool in Breaking(rows, curr));
    assert Step(t, CallInspect(server, Listed(defs), now)) == InspectionDone(t, server, curr, now);
    assert m.digest == ComputeToolDigest(v.tool, v.input, v.output);
  }

  /** The stored row of a listed tool after an inspection that took a mapping to it out of service. */
  lemma StaleRowRefreshed(t: Tables, server: ServerId, defs: seq<ToolDefinition>, now: Time, id: MappingId)
    requires id in ActiveOn(t.mappings, server) && t.mappings[id].tool in ByName(defs)
    requires Apply(t, CallInspect(server, Listed(defs), now)).1 == Done
    requires Step(t, CallInspect(server, Listed(defs), now)).mappings[id].status != Active
    ensures var t' := Step(t, CallInspect(server, Listed(defs), now));
      var m := t.mappings[id];
      && t'.mappings[id] == Suspend(m, Stale, Drifted, now)
      && ToolRow(t'.servers, server, m.tool) == Some(RowOf(ByName(defs)[m.tool]))
  {
  }

  /** Approving a mapping whose tool row exists makes it routable with that row's digest. */
  lemma ApprovalActs(t: Tables, id: MappingId, row: Tool)
    requires Sound(t) && id in t.mappings
    requires ToolRow(t.servers, t.mappings[id].server, t.mappings[id].tool) == Some(row)
    ensures var t' := Step(t, CallReview(id, Approved));
      var m := t.mappings[id];
      && Routable(t', m.capability, id) && t'.mappings[id].digest == RowDigest(m.tool, row)
      && t'.mappings[id].reviews == m.reviews + [Review(m.digest, RowDigest(m.tool, row), Approved)]
  {
    ReviewSound(t, id, Approved);
    assert Step(t, CallReview(id, Approved)).mappings[id] == AfterReview(t.servers, t.mappings[id], Approved);
  }

  /** Approving a mapping whose tool row is gone makes it active with nothing to match. */
  lemma ApprovalUnmatched(t: Tables, id: MappingId)
    requires Sound(t) && id in t.mappings
    requires ToolRow(t.servers, t.mappings[id].server, t.mappings[id].tool).None?
    ensures var t' := Step(t, CallReview(id, Approved));
      id in t'.mappings && t'.mappings[id].status == Active && !Current(t')
  {
    ReviewState(t, id, Approved);
    assert Step(t, CallReview(id, Approved)).mappings[id] == AfterReview(t.servers, t.mappings[id], Approved);
  }

  /** Approving it adopts the listed tool: the mapping is routable again, with the listed tool's
      digest, and the review records that digest and the one it replaces. */
  lemma ApprovalAdopts(t: Tables, server: ServerId, defs: seq<ToolDefinition>, now: Time, id: MappingId)
    requires Sound(t) && id in ActiveOn(t.mappings, server) && t.mappings[id].tool in ByName(defs)
    requires Apply(t, CallInspect(server, Listed(defs), now)).1 == Done
    requires Step(t, CallInspect(server, Listed(defs), now)).mappings[id].status != Active
    ensures var t' := Step(Step(t, CallInspect(server, Listed(defs), now)), CallReview(id, Approved));
      var m := t.mappings[id];
      var listed := ComputeToolDigest(m.tool, ByName(defs)[m.tool].input, ByName(defs)[m.tool].output);
      && Routable(t', m.capability, id) && t'.mappings[id].digest == listed
      && t'.mappings[id].reviews == m.reviews + [Review(m.digest, listed, Approved)]
  {
    var t1 := Step(t, CallInspect(server, Listed(defs), now));
    StaleRowRefreshed(t, server, defs, now, id);
    StepSound(t, CallInspect(server, Listed(defs), now));
    ApprovalActs(t1, id, RowOf(ByName(defs)[t.mappings[id].tool]));
  }
}
