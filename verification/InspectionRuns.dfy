/** Repeating an inspection, and the phases of decommissioning a server. */
module InspectionRuns {
  import opened Options
  import opened ToolDiff
  import opened Tables
  import opened RegistryService
  import opened Lifecycle

  /** After a successful inspection the stored tools are the listed ones, by name. */
  lemma InspectionStoresNames(t: Tables, server: ServerId, defs: seq<ToolDefinition>, now: Time)
    requires Apply(t, CallInspect(server, Listed(defs), now)).1 == Done
    ensures Step(t, CallInspect(server, Listed(defs), now)).servers[server].tools.Keys == ByName(defs).Keys
  {
  }

  /** A refreshed row differs from the listed definition in nothing the comparison sees. */
  lemma RefreshedCompares(rows: map<string, Tool>, curr: map<string, ToolDefinition>, n: string)
    requires !Faults(rows, curr) && n in curr && curr[n].name == n
    ensures Compare(Definition(n, Refreshed(rows, curr)[n]), curr[n]) ==
      if Readable(curr[n].input) then Identical else TypeFault
  {
    if n in rows && n !in Changed(rows, curr) {
      assert Compare(Definition(n, rows[n]), curr[n]).Identical?;
    } else {
      assert Definition(n, RowOf(curr[n])) == curr[n];
      CompareSelf(curr[n]);
    }
  }

  /** Comparing refreshed rows with the same list again. */
  lemma RefreshedAgain(rows: map<string, Tool>, curr: map<string, ToolDefinition>)
    requires !Faults(rows, curr) && forall n :: n in curr ==> curr[n].name == n
    ensures !Faults(Refreshed(rows, curr), curr) <==> forall n :: n in curr ==> Readable(curr[n].input)
    ensures !Faults(Refreshed(rows, curr), curr) ==> SameTools(Refreshed(rows, curr), curr)
  {
    var rows' := Refreshed(rows, curr);
    forall n | n in curr
      ensures Compare(Definition(n, rows'[n]), curr[n]) == if Readable(curr[n].input) then Identical else TypeFault
    {
      RefreshedCompares(rows, curr, n);
    }
    if n :| n in curr && !Readable(curr[n].input) {
      assert Compare(Definition(n, rows'[n]), curr[n]).TypeFault?;
    }
  }

  predicate SameTools(rows: map<string, Tool>, curr: map<string, ToolDefinition>) {
    rows.Keys == curr.Keys && forall n | n in curr :: Compare(Definition(n, rows[n]), curr[n]) == Identical
  }

  lemma SameToolsUntouched(rows: map<string, Tool>, curr: map<string, ToolDefinition>)
    requires SameTools(rows, curr)
    ensures Affected(rows, curr) == {} && Refreshed(rows, curr) == rows
  {
  }

  /** The tables with nothing changed but the time of the server's last update. */
  function Touched(t: Tables, server: ServerId, now: Time): Tables
    requires server in t.servers
  {
    t.(servers := t.servers[server := t.servers[server].(updatedAt := now)])
  }

  lemma NothingToDo(t: Tables, server: ServerId, curr: map<string, ToolDefinition>, now: Time)
    requires server in t.servers && t.servers[server].health == Reachable
    requires SameTools(t.servers[server].tools, curr)
    ensures InspectionDone(t, server, curr, now) == Touched(t, server, now)
  {
    var t' := InspectionDone(t, server, curr, now);
    var rows := t.servers[server].tools;
    SameToolsUntouched(rows, curr);
    assert VersionsOf(server, {}, rows, Breaking(rows, curr)) == {};
    assert t'.servers == Touched(t, server, now).servers;
    assert t'.mappings == t.mappings;
    assert t'.versions == t.versions;
  }

  lemma InspectedListed(t: Tables, server: ServerId, defs: seq<ToolDefinition>, now: Time)
    requires server in t.servers
    ensures Apply(t, CallInspect(server, Listed(defs), now)) ==
      if Faults(t.servers[server].tools, ByName(defs)) then (t, TypeError)
      else (InspectionDone(t, server, ByName(defs), now), Done)
  {
  }

  /** Inspecting again with the same list succeeds exactly when every listed schema is readable, and
      then changes no tool, version, mapping or status, only the time of the last update; otherwise it
      changes nothing at all. */
  lemma InspectionConverges(t: Tables, server: ServerId, defs: seq<ToolDefinition>, now: Time, later: Time)
    requires Apply(t, CallInspect(server, Listed(defs), now)).1 == Done
    ensures var t' := Step(t, CallInspect(server, Listed(defs), now));
      && server in t'.servers
      && Apply(t', CallInspect(server, Listed(defs), later)) ==
        if forall n | n in ByName(defs) :: Readable(ByName(defs)[n].input)
        then (Touched(t', server, later), Done)
        else (t', TypeError)
  {
    var rows, curr := t.servers[server].tools, ByName(defs);
    var t' := InspectionDone(t, server, curr, now);
    assert Step(t, CallInspect(server, Listed(defs), now)) == t';
    assert t'.servers[server].tools == Refreshed(rows, curr) && t'.servers[server].health == Reachable;
    RefreshedAgain(rows, curr);
    InspectedListed(t', server, defs, later);
    if !Faults(Refreshed(rows, curr), curr) {
      NothingToDo(t', server, curr, later);
    }
  }

  /** A stored tool whose schema is unreadable stops every later inspection that still lists it:
      the call fails and nothing is marked stale. */
  lemma UnreadableRowBlocks(t: Tables, server: ServerId, defs: seq<ToolDefinition>, now: Time, n: string)
    requires server in t.servers && n in t.servers[server].tools && n in ByName(defs)
    requires !Readable(t.servers[server].tools[n].input)
    ensures Apply(t, CallInspect(server, Listed(defs), now)) == (t, TypeError)
  {
    assert Compare(Definition(n, t.servers[server].tools[n]), ByName(defs)[n]).TypeFault?;
  }

  // ---------------------------------------------------------------- decommissioning

  function Rank(phase: Option<Phase>): nat {
    match phase
    case None => 0
    case Some(GracePeriod) => 1
    case Some(Migration) => 2
    case Some(Sunset) => 3
  }

  function RankOf(t: Tables, server: ServerId): nat {
    if server in t.servers then Rank(t.servers[server].phase) else 0
  }

  predicate Advances(t: Tables, call: Call, server: ServerId) {
    call.CallDecommission? && call.server == server && Apply(t, call).1 == Done
  }

  /** The rank moves by one exactly with an accepted call for this server. */
  predicate RankMoves(t: Tables, call: Call, server: ServerId) {
    && server in Step(t, call).servers
    && RankOf(Step(t, call), server) == RankOf(t, server) + if Advances(t, call, server) then 1 else 0
  }

  lemma InspectRank(t: Tables, inspected: ServerId, listing: Listing, now: Time, server: ServerId)
    requires server in t.servers
    ensures RankMoves(t, CallInspect(inspected, listing, now), server)
  {
    InspectPhases(t, inspected, listing, now, server);
  }

  lemma RegisterRank(t: Tables, endpoint: string, listing: Listing, now: Time, server: ServerId)
    requires Sound(t) && server in t.servers
    ensures RankMoves(t, CallRegister(endpoint, listing, now), server)
  {
    assert server < t.nextId;
  }

  lemma DecommissionRank(t: Tables, moved: ServerId, phase: Phase, replacement: Option<ServerId>, now: Time,
                         server: ServerId)
    requires server in t.servers
    ensures RankMoves(t, CallDecommission(moved, phase, replacement, now), server)
  {
  }

  lemma OtherRank(t: Tables, call: Call, server: ServerId)
    requires server in t.servers && (call.CallCreate? || call.CallReview? || call.CallRetire?)
    ensures RankMoves(t, call, server)
  {
    OtherServers(t, call);
  }

  lemma StepRank(t: Tables, call: Call, server: ServerId)
    requires Sound(t) && server in t.servers
    ensures RankMoves(t, call, server)
  {
    match call
    case CallRegister(endpoint, listing, now) => RegisterRank(t, endpoint, listing, now, server);
    case CallInspect(inspected, listing, now) => InspectRank(t, inspected, listing, now, server);
    case CallDecommission(moved, phase, replacement, now) =>
      DecommissionRank(t, moved, phase, replacement, now, server);
    case CallCreate(_, _, _, _) => OtherRank(t, call, server);
    case CallReview(_, _) => OtherRank(t, call, server);
    case CallRetire(_, _) => OtherRank(t, call, server);
  }

  /** How many of the calls moved the server on. */
  function Moves(t: Tables, calls: seq<Call>, server: ServerId): nat
    decreases |calls|
  {
    if calls == [] then 0
    else
      (if Advances(t, calls[0], server) then 1 else 0) + Moves(Step(t, calls[0]), calls[1..], server)
  }

  /** Over any run a server's phase never goes back and skips none: it advances by one per accepted
      call, so at most three calls are ever accepted. */
  lemma {:induction false} PhasesInOrder(t: Tables, calls: seq<Call>, server: ServerId)
    requires Sound(t) && server in t.servers
    ensures server in Run(t, calls).servers
    ensures RankOf(Run(t, calls), server) == RankOf(t, server) + Moves(t, calls, server) <= 3
    decreases |calls|
  {
    if calls != [] {
      StepRank(t, calls[0], server);
      StepSound(t, calls[0]);
      PhasesInOrder(Step(t, calls[0]), calls[1..], server);
    }
  }

  lemma RepointMoves(mappings: map<MappingId, Mapping>, server: ServerId, target: ServerId)
    requires server != target
    ensures var moved := Repointed(mappings, server, target);
      && moved.Keys == mappings.Keys && MappingsOf(moved, server) == {}
      && MappingsOf(moved, target) == MappingsOf(mappings, server) + MappingsOf(mappings, target)
  {
  }

  /** Migration hands all of a server's mappings over and loses none; from the grace period it is
      refused, with nothing changed, exactly when there are mappings and the target is missing or
      already links one of the same tools. */
  lemma MigrationConserves(t: Tables, server: ServerId, target: ServerId, now: Time)
    requires Sound(t) && server in t.servers && server != target && t.servers[server].phase == Some(GracePeriod)
    ensures var (t', outcome) := Apply(t, CallDecommission(server, Migration, Some(target), now));
      if MappingsOf(t.mappings, server) != {} && (target !in t.servers || Clash(t.mappings, server, target))
      then outcome == IntegrityFault && t' == t
      else
        && outcome == Done && t'.mappings.Keys == t.mappings.Keys && MappingsOf(t'.mappings, server) == {}
        && MappingsOf(t'.mappings, target) == MappingsOf(t.mappings, server) + MappingsOf(t.mappings, target)
  {
    MigrationDecided(t, server, target, now);
    RepointMoves(t.mappings, server, target);
  }

  /** Sunset removes the server's mappings and no others. */
  lemma SunsetRemoves(t: Tables, server: ServerId, now: Time)
    requires server in t.servers && t.servers[server].phase == Some(Migration)
    ensures var t' := Step(t, CallDecommission(server, Sunset, None, now));
      && MappingsOf(t'.mappings, server) == {}
      && (forall id :: id in t.mappings && t.mappings[id].server != server ==>
            id in t'.mappings && t'.mappings[id] == t.mappings[id])
  {
  }
}
