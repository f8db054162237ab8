/** Registering, inspecting and decommissioning servers (api/services/registry_service.py). Each
    method changes the database exactly as the function above it says. */
module RegistryService {
  import opened Options
  import opened ToolDiff
  import opened Tables

  /** What `list_tools` brings back. */
  datatype Listing = Listed(tools: seq<ToolDefinition>) | TimedOut | Failed

  // ---------------------------------------------------------------- register

  predicate DistinctNames(defs: seq<ToolDefinition>) {
    forall i, j | 0 <= i < j < |defs| :: defs[i].name != defs[j].name
  }

  function RowsOf(defs: seq<ToolDefinition>): (rows: map<string, Tool>)
    ensures forall n :: n in rows <==> exists i :: 0 <= i < |defs| && defs[i].name == n
  {
    if defs == [] then map[]
    else
      var last := defs[|defs| - 1];
      RowsOf(defs[..|defs| - 1])[last.name := RowOf(last)]
  }

  function Registered(t: Tables, endpoint: string, listing: Listing, now: Time): (Tables, Outcome) {
    if exists s | s in t.servers :: t.servers[s].endpoint == endpoint then (t, DuplicateServer)
    else if !listing.Listed? then (t, UnreachableServer)
    else if !DistinctNames(listing.tools) then (t, IntegrityFault)
    else
      var server := Server(endpoint, Unknown, None, RowsOf(listing.tools), now, None);
      (t.(servers := t.servers[t.nextId := server], nextId := t.nextId + 1), Done)
  }

  lemma OneMoreName(defs: seq<ToolDefinition>, i: nat)
    requires i < |defs| && DistinctNames(defs[..i])
    ensures RowsOf(defs[..i + 1]) == RowsOf(defs[..i])[defs[i].name := RowOf(defs[i])]
    ensures defs[i].name !in RowsOf(defs[..i]) ==> DistinctNames(defs[..i + 1])
    ensures defs[i].name in RowsOf(defs[..i]) ==> !DistinctNames(defs)
  {
    var front, longer := defs[..i], defs[..i + 1];
    assert longer[..i] == front && longer[i] == defs[i];
    if defs[i].name in RowsOf(front) {
      var j :| 0 <= j < i && front[j].name == defs[i].name;
      assert defs[j].name == defs[i].name;
    }
  }

  /** The rows of a new server; `None` when two tools share a name, which the unique index on
      (server_id, tool_name) refuses. */
  method InsertTools(defs: seq<ToolDefinition>) returns (rows: Option<map<string, Tool>>)
    ensures rows == if DistinctNames(defs) then Some(RowsOf(defs)) else None
  {
    var tools: map<string, Tool> := map[];
    var i := 0;
    while i < |defs|
      invariant 0 <= i <= |defs|
      invariant tools == RowsOf(defs[..i])
      invariant DistinctNames(defs[..i])
    {
      OneMoreName(defs, i);
      if defs[i].name in tools {
        return None;
      }
      tools := tools[defs[i].name := RowOf(defs[i])];
      i := i + 1;
    }
    assert defs[..|defs|] == defs;
    return Some(tools);
  }

  method Register(db: Database, endpoint: string, listing: Listing, now: Time) returns (outcome: Outcome)
    modifies db
    ensures (db.Snapshot(), outcome) == Registered(old(db.Snapshot()), endpoint, listing, now)
  {
    if exists s | s in db.servers :: db.servers[s].endpoint == endpoint {
      return DuplicateServer;
    }
    if !listing.Listed? {
      return UnreachableServer;
    }
    var rows := InsertTools(listing.tools);
    if rows.None? {
      return IntegrityFault;  // rolled back
    }
    db.servers := db.servers[db.nextId := Server(endpoint, Unknown, None, rows.value, now, None)];
    db.nextId := db.nextId + 1;
    return Done;
  }

  // ---------------------------------------------------------------- inspect

  function ActiveOn(mappings: map<MappingId, Mapping>, server: ServerId): set<MappingId> {
    set id | id in mappings && mappings[id].server == server && mappings[id].status == Active
  }

  /** Re-inspection failed: no mapping of the server stays active. */
  function InspectionFailed(t: Tables, server: ServerId, cause: FailureClass, now: Time): Tables
    requires server in t.servers
  {
    t.(servers := t.servers[server := t.servers[server].(health := Unreachable)],
       mappings := UpdateRows(t.mappings, ActiveOn(t.mappings, server), m => Suspend(m, StaleUnverified, cause, now)))
  }

  function Removed(rows: map<string, Tool>, curr: map<string, ToolDefinition>): set<string> {
    rows.Keys - curr.Keys
  }

  predicate Faults(rows: map<string, Tool>, curr: map<string, ToolDefinition>) {
    exists n | n in rows && n in curr :: Compare(Definition(n, rows[n]), curr[n]).TypeFault?
  }

  function Changed(rows: map<string, Tool>, curr: map<string, ToolDefinition>): set<string> {
    set n | n in rows && n in curr && Compare(Definition(n, rows[n]), curr[n]).Differs?
  }

  function Affected(rows: map<string, Tool>, curr: map<string, ToolDefinition>): set<string> {
    Removed(rows, curr) + Changed(rows, curr)
  }

  /** The listed tools, keeping the stored row of every tool that compares as identical. */
  function Refreshed(rows: map<string, Tool>, curr: map<string, ToolDefinition>): map<string, Tool> {
    map n | n in curr :: if n in rows && n !in Changed(rows, curr) then rows[n] else RowOf(curr[n])
  }

  /** Removals always break callers; a changed tool breaks them if the comparison says so. */
  function Breaking(rows: map<string, Tool>, curr: map<string, ToolDefinition>): set<string> {
    Removed(rows, curr) + set n | n in Changed(rows, curr) && Compare(Definition(n, rows[n]), curr[n]).change.isBreaking
  }

  /** The snapshots recorded for the tools in `names`. */
  function VersionsOf(server: ServerId, names: set<string>, rows: map<string, Tool>,
                      breaking: set<string>): set<ToolVersion>
    requires names <= rows.Keys
  {
    set n | n in names :: ToolVersion(server, n, rows[n].input, rows[n].output, n in breaking)
  }

  function Drifting(mappings: map<MappingId, Mapping>, server: ServerId, names: set<string>): set<MappingId> {
    set id | id in ActiveOn(mappings, server) && mappings[id].tool in names
  }

  function InspectionDone(t: Tables, server: ServerId, curr: map<string, ToolDefinition>, now: Time): Tables
    requires server in t.servers
  {
    var rows := t.servers[server].tools;
    var affected := Affected(rows, curr);
    var row := t.servers[server].(health := Reachable, tools := Refreshed(rows, curr), updatedAt := now);
    t.(servers := t.servers[server := row],
       mappings := UpdateRows(t.mappings, Drifting(t.mappings, server, affected), m => Suspend(m, Stale, Drifted, now)),
       versions := t.versions + multiset(VersionsOf(server, affected, rows, Breaking(rows, curr))))
  }

  function Inspected(t: Tables, server: ServerId, listing: Listing, now: Time): (Tables, Outcome) {
    if server !in t.servers then (t, ServerNotFound)
    else if listing.TimedOut? then (InspectionFailed(t, server, ServerTimeout, now), UnreachableServer)
    else if listing.Failed? then (InspectionFailed(t, server, ServerUnreachable, now), UnreachableServer)
    else if Faults(t.servers[server].tools, ByName(listing.tools)) then (t, TypeError)
    else (InspectionDone(t, server, ByName(listing.tools), now), Done)
  }

  /** One row's fields assigned per iteration, in any order. */
  method SuspendRows(mappings: map<MappingId, Mapping>, ids: set<MappingId>, status: Status, cause: FailureClass,
                     now: Time)
    returns (updated: map<MappingId, Mapping>)
    requires ids <= mappings.Keys
    ensures updated == UpdateRows(mappings, ids, m => Suspend(m, status, cause, now))
  {
    updated := mappings;
    var todo := ids;
    while todo != {}
      invariant todo <= ids
      invariant updated == UpdateRows(mappings, ids - todo, m => Suspend(m, status, cause, now))
      decreases |todo|
    {
      var id :| id in todo;
      updated := updated[id := Suspend(updated[id], status, cause, now)];
      todo := todo - {id};
    }
    assert ids - todo == ids;
  }

  /** Recording one more version. */
  lemma OneMore(server: ServerId, names: set<string>, n: string, rows: map<string, Tool>, breaking: set<string>,
                breaking': set<string>)
    requires names <= rows.Keys && n in rows && n !in names
    requires forall k :: k in names ==> (k in breaking <==> k in breaking')
    ensures VersionsOf(server, names + {n}, rows, breaking') ==
      VersionsOf(server, names, rows, breaking)
      + {ToolVersion(server, n, rows[n].input, rows[n].output, n in breaking')}
  {
  }

  /** The loop over removed names: rows deleted, each recorded as a breaking version. */
  method DropRemoved(server: ServerId, rows: map<string, Tool>, removed: set<string>)
    returns (tools: map<string, Tool>, recorded: set<ToolVersion>)
    requires removed <= rows.Keys
    ensures tools == rows - removed
    ensures recorded == VersionsOf(server, removed, rows, removed)
  {
    tools, recorded := rows, {};
    var todo, done := removed, {};
    while todo != {}
      invariant todo !! done && todo + done == removed
      invariant recorded == VersionsOf(server, done, rows, done)
      invariant tools == rows - done
      decreases |todo|
    {
      var name :| name in todo;
      OneMore(server, done, name, rows, done, done + {name});
      recorded := recorded + {ToolVersion(server, name, rows[name].input, rows[name].output, true)};
      tools := tools - {name};
      todo, done := todo - {name}, done + {name};
    }
  }

  /** The verdicts reached so far, on every common name outside `todo`. */
  ghost predicate Judged(rows: map<string, Tool>, curr: map<string, ToolDefinition>, todo: set<string>,
                         changed: set<string>, breaking: set<string>)
  {
    && breaking <= changed <= rows.Keys * curr.Keys && changed !! todo
    && forall n :: n in rows && n in curr && n !in todo ==>
      var verdict := Compare(Definition(n, rows[n]), curr[n]);
      !verdict.TypeFault? && (n in changed <==> verdict.Differs?)
      && (n in breaking <==> verdict.Differs? && verdict.change.isBreaking)
  }

  lemma JudgedStep(rows: map<string, Tool>, curr: map<string, ToolDefinition>, todo: set<string>,
                   changed: set<string>, breaking: set<string>, n: string)
    requires Judged(rows, curr, todo, changed, breaking) && n in todo && n in rows && n in curr
    requires !Compare(Definition(n, rows[n]), curr[n]).TypeFault?
    ensures var verdict := Compare(Definition(n, rows[n]), curr[n]);
      Judged(rows, curr, todo - {n}, if verdict.Differs? then changed + {n} else changed,
             if verdict.Differs? && verdict.change.isBreaking then breaking + {n} else breaking)
  {
  }

  lemma JudgedAll(rows: map<string, Tool>, curr: map<string, ToolDefinition>, changed: set<string>,
                  breaking: set<string>)
    requires Judged(rows, curr, {}, changed, breaking)
    ensures !Faults(rows, curr) && changed == Changed(rows, curr)
    ensures breaking == Breaking(rows, curr) - Removed(rows, curr)
  {
  }

  function Overwritten(tools: map<string, Tool>, curr: map<string, ToolDefinition>, changed: set<string>)
    : map<string, Tool>
  {
    map n | n in tools :: if n in changed && n in curr then RowOf(curr[n]) else tools[n]
  }

  lemma OverwriteOne(tools: map<string, Tool>, curr: map<string, ToolDefinition>, changed: set<string>, n: string)
    requires n in tools && n in curr
    ensures Overwritten(tools, curr, changed + {n}) == Overwritten(tools, curr, changed)[n := RowOf(curr[n])]
  {
  }

  /** The loop over common names: rows rewritten where the definitions differ. */
  method RewriteChanged(server: ServerId, rows: map<string, Tool>, curr: map<string, ToolDefinition>,
                        tools: map<string, Tool>)
    returns (ok: bool, rewritten: map<string, Tool>, recorded: set<ToolVersion>, changed: set<string>,
             ghost breaking: set<string>)
    requires tools == rows - Removed(rows, curr)
    ensures ok <==> !Faults(rows, curr)
    ensures ok ==> changed == Changed(rows, curr)
    ensures ok ==> breaking == Breaking(rows, curr) - Removed(rows, curr)
    ensures ok ==> recorded == VersionsOf(server, changed, rows, breaking)
    ensures ok ==> rewritten == Overwritten(tools, curr, changed)
  {
    rewritten, recorded, changed, breaking := tools, {}, {}, {};
    var todo := rows.Keys * curr.Keys;
    while todo != {}
      invariant todo <= rows.Keys * curr.Keys
      invariant Judged(rows, curr, todo, changed, breaking)
      invariant recorded == VersionsOf(server, changed, rows, breaking)
      invariant rewritten == Overwritten(tools, curr, changed)
      decreases |todo|
    {
      var name :| name in todo;
      var comparison := CompareToolDefinitions(Definition(name, rows[name]), curr[name]);
      if comparison.TypeFault? {
        return false, rewritten, recorded, changed, breaking;
      }
      JudgedStep(rows, curr, todo, changed, breaking, name);
      if comparison.Differs? {
        ghost var wider := if comparison.change.isBreaking then breaking + {name} else breaking;
        OneMore(server, changed, name, rows, breaking, wider);
        OverwriteOne(tools, curr, changed, name);
        recorded := recorded
          + {ToolVersion(server, name, rows[name].input, rows[name].output, comparison.change.isBreaking)};
        rewritten := rewritten[name := RowOf(curr[name])];
        changed, breaking := changed + {name}, wider;
      }
      todo := todo - {name};
    }
    JudgedAll(rows, curr, changed, breaking);
    ok := true;
  }

  function WithRows(tools: map<string, Tool>, curr: map<string, ToolDefinition>, names: set<string>): map<string, Tool>
    requires names <= curr.Keys
  {
    tools + map n | n in names :: RowOf(curr[n])
  }

  lemma WithOneRow(tools: map<string, Tool>, curr: map<string, ToolDefinition>, names: set<string>, n: string)
    requires names <= curr.Keys && n in curr
    ensures WithRows(tools, curr, names + {n}) == WithRows(tools, curr, names)[n := RowOf(curr[n])]
  {
  }

  /** The loop over added names. */
  method InsertAdded(curr: map<string, ToolDefinition>, added: set<string>, tools: map<string, Tool>)
    returns (complete: map<string, Tool>)
    requires added <= curr.Keys
    ensures complete == WithRows(tools, curr, added)
  {
    complete := tools;
    var todo, done := added, {};
    while todo != {}
      invariant todo + done == added
      invariant complete == WithRows(tools, curr, done)
      decreases |todo|
    {
      var name :| name in todo;
      WithOneRow(tools, curr, done, name);
      complete := complete[name := RowOf(curr[name])];
      todo, done := todo - {name}, done + {name};
    }
    assert done == added;
  }

  /** Dropping, rewriting and inserting together give the refreshed rows. */
  lemma RefreshedParts(rows: map<string, Tool>, curr: map<string, ToolDefinition>)
    ensures WithRows(Overwritten(rows - Removed(rows, curr), curr, Changed(rows, curr)), curr, curr.Keys - rows.Keys)
      == Refreshed(rows, curr)
  {
  }

  lemma VersionsTogether(server: ServerId, rows: map<string, Tool>, curr: map<string, ToolDefinition>,
                         breaking: set<string>)
    requires breaking == Breaking(rows, curr) - Removed(rows, curr)
    ensures Removed(rows, curr) !! Changed(rows, curr)
    ensures VersionsOf(server, Affected(rows, curr), rows, Breaking(rows, curr)) ==
      VersionsOf(server, Removed(rows, curr), rows, Removed(rows, curr))
      + VersionsOf(server, Changed(rows, curr), rows, breaking)
  {
  }

  method Inspect(db: Database, server: ServerId, listing: Listing, now: Time) returns (outcome: Outcome)
    modifies db
    ensures (db.Snapshot(), outcome) == Inspected(old(db.Snapshot()), server, listing, now)
  {
    if server !in db.servers {
      return ServerNotFound;
    }
    var row := db.servers[server];
    if !listing.Listed? {
      var cause := if listing.TimedOut? then ServerTimeout else ServerUnreachable;
      db.mappings := SuspendRows(db.mappings, ActiveOn(db.mappings, server), StaleUnverified, cause, now);
      db.servers := db.servers[server := row.(health := Unreachable)];
      return UnreachableServer;
    }
    outcome := InspectListed(db, server, ByName(listing.tools), now);
  }

  method InspectListed(db: Database, server: ServerId, curr: map<string, ToolDefinition>, now: Time)
    returns (outcome: Outcome)
    requires server in db.servers
    modifies db
    ensures var rows := old(db.servers[server].tools);
      if Faults(rows, curr) then outcome == TypeError && db.Snapshot() == old(db.Snapshot())
      else outcome == Done && db.Snapshot() == InspectionDone(old(db.Snapshot()), server, curr, now)
  {
    var row := db.servers[server];
    var tools, dropped := DropRemoved(server, row.tools, row.tools.Keys - curr.Keys);
    var ok, rewritten, recorded, changed, breaking := RewriteChanged(server, row.tools, curr, tools);
    if !ok {
      return TypeError;  // nothing was committed
    }
    var complete := InsertAdded(curr, curr.Keys - row.tools.Keys, rewritten);
    RefreshedParts(row.tools, curr);
    var affected := Removed(row.tools, curr) + changed;
    VersionsTogether(server, row.tools, curr, breaking);
    db.mappings := SuspendRows(db.mappings, Drifting(db.mappings, server, affected), Stale, Drifted, now);
    db.versions := db.versions + multiset(dropped + recorded);
    db.servers := db.servers[server := row.(health := Reachable, tools := complete, updatedAt := now)];
    outcome := Done;
  }

  // ---------------------------------------------------------------- decommission

  function MappingsOf(mappings: map<MappingId, Mapping>, server: ServerId): set<MappingId> {
    set id | id in mappings && mappings[id].server == server
  }

  /** The phase that must come next; `None` once fully decommissioned. */
  function NextPhase(current: Option<Phase>): Option<Phase> {
    match current
    case None => Some(GracePeriod)
    case Some(GracePeriod) => Some(Migration)
    case Some(Migration) => Some(Sunset)
    case Some(Sunset) => None
  }

  function Repointed(mappings: map<MappingId, Mapping>, server: ServerId, target: ServerId): map<MappingId, Mapping> {
    UpdateRows(mappings, MappingsOf(mappings, server), (m: Mapping) => m.(server := target))
  }

  /** The server's row in its new phase; the time is that of the grace period's start. */
  function Entered(row: Server, phase: Phase, now: Time): Server {
    row.(phase := Some(phase), decommissionedAt := if phase == GracePeriod then Some(now) else row.decommissionedAt)
  }

  function Decommissioned(t: Tables, server: ServerId, phase: Phase, replacement: Option<ServerId>, now: Time)
    : (Tables, Outcome)
  {
    if server !in t.servers then (t, ServerNotFound)
    else if NextPhase(t.servers[server].phase) != Some(phase) then (t, PhaseOrder)
    else
      var moved := t.(servers := t.servers[server := Entered(t.servers[server], phase, now)]);
      match phase
      case GracePeriod => (moved, Done)
      case Migration =>
        if replacement.None? then (moved, Done)
        else
          var mappings := Repointed(t.mappings, server, replacement.value);
          if MappingsOf(t.mappings, server) != {} && (replacement.value !in t.servers || !UniqueMappings(mappings))
          then (t, IntegrityFault)
          else (moved.(mappings := mappings), Done)
      case Sunset =>
        var gone := MappingsOf(t.mappings, server);
        (moved.(mappings := t.mappings - gone), Done)
  }

  method RepointMappings(mappings: map<MappingId, Mapping>, server: ServerId, target: ServerId)
    returns (moved: map<MappingId, Mapping>)
    ensures moved == Repointed(mappings, server, target)
  {
    moved := mappings;
    var own := MappingsOf(mappings, server);
    var todo := own;
    while todo != {}
      invariant todo <= own
      invariant moved == UpdateRows(mappings, own - todo, (m: Mapping) => m.(server := target))
      decreases |todo|
    {
      var id :| id in todo;
      moved := moved[id := moved[id].(server := target)];
      todo := todo - {id};
    }
    assert own - todo == own;
  }

  method DeleteMappings(mappings: map<MappingId, Mapping>, gone: set<MappingId>) returns (kept: map<MappingId, Mapping>)
    requires gone <= mappings.Keys
    ensures kept == mappings - gone
  {
    kept := mappings;
    var todo := gone;
    while todo != {}
      invariant todo <= gone
      invariant kept == mappings - (gone - todo)
      decreases |todo|
    {
      var id :| id in todo;
      kept := kept - {id};
      todo := todo - {id};
    }
    assert gone - todo == gone;
  }

  method Decommission(db: Database, server: ServerId, phase: Phase, replacement: Option<ServerId>, now: Time)
    returns (outcome: Outcome)
    modifies db
    ensures (db.Snapshot(), outcome) == Decommissioned(old(db.Snapshot()), server, phase, replacement, now)
  {
    if server !in db.servers {
      return ServerNotFound;
    }
    var row := db.servers[server];
    if NextPhase(row.phase) != Some(phase) {
      return PhaseOrder;
    }
    var own := MappingsOf(db.mappings, server);
    var mappings := db.mappings;
    match phase {
      case GracePeriod =>
        row := row.(decommissionedAt := Some(now));
      case Migration =>
        if replacement.Some? {
          mappings := RepointMappings(db.mappings, server, replacement.value);
          if own != {} && (replacement.value !in db.servers || !UniqueMappings(mappings)) {
            return IntegrityFault;  // rolled back
          }
        }
      case Sunset =>
        mappings := DeleteMappings(db.mappings, own);
    }
    db.mappings := mappings;
    db.servers := db.servers[server := row.(phase := Some(phase))];
    return Done;
  }
}
