/** Runs from the empty tables that reach each failure of the digest check and of inspection. */
module Instances {
  import opened Options
  import opened Json
  import opened Digest
  import opened ToolDiff
  import opened Tables
  import opened RegistryService
  import opened CapabilityService
  import opened RoutingService
  import opened Lifecycle
  import opened DigestCurrency
  import opened InspectionRuns

  /** The tables after registering a server with one tool and mapping a capability to it. */
  function Registration(def: ToolDefinition, capability: CapabilityId): Tables {
    Step(Step(EMPTY, CallRegister("host", Listed([def]), 0)), CallCreate(capability, 0, def.name, 0))
  }

  function Host(def: ToolDefinition): Server {
    Server("host", Unknown, None, map[def.name := RowOf(def)], 0, None)
  }

  lemma RegisteredHost(def: ToolDefinition)
    ensures Step(EMPTY, CallRegister("host", Listed([def]), 0)) == Tables(map[0 := Host(def)], map[], multiset{}, 1)
  {
    assert [def][..0] == [];
    assert RowsOf([def]) == map[def.name := RowOf(def)];
  }

  lemma FirstMapping(def: ToolDefinition, capability: CapabilityId)
    ensures var t := Tables(map[0 := Host(def)], map[], multiset{}, 1);
      var m := Mapping(capability, 0, def.name, 1.0, RowDigest(def.name, RowOf(def)), Active, None, None, []);
      MappingCreated(t, capability, 0, def.name, 0) == (t.(mappings := map[1 := m], nextId := 2), Done)
  {
    var t := Tables(map[0 := Host(def)], map[], multiset{}, 1);
    assert ToolRow(t.servers, 0, def.name) == Some(RowOf(def));
    assert !HasCollision(t.mappings, capability, def.name);
  }

  lemma RegistrationRows(def: ToolDefinition, capability: CapabilityId)
    ensures var t := Registration(def, capability);
      && t.servers == map[0 := Host(def)]
      && t.mappings.Keys == {1} && t.mappings[1].status == Active && t.mappings[1].server == 0
      && t.mappings[1].tool == def.name && t.mappings[1].capability == capability
  {
    RegisteredHost(def);
    FirstMapping(def, capability);
  }

  lemma RegistrationGood(def: ToolDefinition, capability: CapabilityId)
    ensures Sound(Registration(def, capability)) && Current(Registration(def, capability))
  {
    var t := Step(EMPTY, CallRegister("host", Listed([def]), 0));
    StepSound(EMPTY, CallRegister("host", Listed([def]), 0));
    StepSound(t, CallCreate(capability, 0, def.name, 0));
    CreateCurrent(t, capability, 0, def.name, 0);
  }

  /** A change the comparison does not look at: inspection succeeds, the stored digest is no longer
      that of the tool on offer, and the mapping is still routed to. */
  lemma UnseenChangeRouted(first: ToolDefinition, second: ToolDefinition)
    requires first.name == second.name && Compare(first, second).Identical? && first.input != second.input
    ensures var t := Step(Registration(first, 7), CallInspect(0, Listed([second]), 1));
      && 1 in t.mappings && Routable(t, 7, 1)
      && t.mappings[1].digest != ComputeToolDigest(second.name, second.input, second.output)
  {
    var t := Registration(first, 7);
    RegistrationRows(first, 7);
    RegistrationGood(first, 7);
    OneByName(second);
    assert t.servers[0].tools == map[first.name := RowOf(first)];
    assert Definition(first.name, t.servers[0].tools[first.name]) == first;
    SurvivorRouted(t, 0, [second], 1, 1);
  }

  lemma OneByName(def: ToolDefinition)
    ensures ByName([def]) == map[def.name := def]
  {
    assert [def][..0] == [];
  }

  /** Such a change exists: a parameter's type. */
  lemma TypeDriftRouted(before: string, after: string)
    requires before != after
    ensures var t := Step(Registration(OneParameter(before), 7), CallInspect(0, Listed([OneParameter(after)]), 1));
      && 1 in t.mappings && Routable(t, 7, 1)
      && t.mappings[1].digest != ComputeToolDigest("lookup", OneParameter(after).input, None)
  {
    var first, second := OneParameter(before), OneParameter(after);
    TypeChangeUnseen(before, after);
    UnseenChangeRouted(first, second);
  }

  /** An empty listing is never unreadable, and takes every tool row. */
  lemma EmptyListing(t: Tables, server: ServerId, now: Time)
    requires server in t.servers
    ensures var t' := Step(t, CallInspect(server, Listed([]), now));
      && t'.servers.Keys == t.servers.Keys && t'.servers[server].tools == map[]
      && t'.mappings.Keys == t.mappings.Keys
      && forall id :: id in t.mappings ==>
        t'.mappings[id].server == t.mappings[id].server && t'.mappings[id].tool == t.mappings[id].tool
  {
    assert ByName([]) == map[];
    assert !Faults(t.servers[server].tools, ByName([]));
    assert Refreshed(t.servers[server].tools, map[]) == map[];
  }

  lemma RemovalRows(def: ToolDefinition)
    ensures var t := Step(Registration(def, 7), CallInspect(0, Listed([]), 1));
      && Sound(t) && Current(t) && 1 in t.mappings
      && ToolRow(t.servers, t.mappings[1].server, t.mappings[1].tool).None?
  {
    var t := Registration(def, 7);
    RegistrationRows(def, 7);
    RegistrationGood(def, 7);
    StepSound(t, CallInspect(0, Listed([]), 1));
    InspectCurrent(t, 0, Listed([]), 1);
    EmptyListing(t, 0, 1);
  }

  /** Approving a mapping whose tool has disappeared makes it active with nothing to match. */
  lemma ApprovalWithoutRow(def: ToolDefinition)
    ensures var t := Step(Step(Registration(def, 7), CallInspect(0, Listed([]), 1)), CallReview(1, Approved));
      && 1 in t.mappings && t.mappings[1].status == Active && !Current(t)
  {
    var t := Step(Registration(def, 7), CallInspect(0, Listed([]), 1));
    RemovalRows(def);
    ApprovalUnmatched(t, 1);
  }

  /** Registering a second server that offers nothing, and starting the first one's grace period. */
  function BeforeMigration(def: ToolDefinition): Tables {
    Step(Step(Registration(def, 7), CallRegister("other", Listed([]), 1)), CallDecommission(0, GracePeriod, None, 2))
  }

  lemma SecondServer(def: ToolDefinition)
    ensures var t := Registration(def, 7);
      Step(t, CallRegister("other", Listed([]), 1)) ==
        t.(servers := t.servers[2 := Server("other", Unknown, None, map[], 1, None)], nextId := 3)
  {
    RegisteredHost(def);
    FirstMapping(def, 7);
    RegistrationRows(def, 7);
  }

  lemma GraceStarted(t: Tables, server: ServerId, now: Time)
    requires server in t.servers && t.servers[server].phase.None?
    ensures Step(t, CallDecommission(server, GracePeriod, None, now)) ==
      t.(servers := t.servers[server := Entered(t.servers[server], GracePeriod, now)])
  {
  }

  lemma BeforeMigrationRows(def: ToolDefinition)
    ensures var t := BeforeMigration(def);
      && t.mappings == Registration(def, 7).mappings
      && t.servers == map[0 := Entered(Host(def), GracePeriod, 2), 2 := Server("other", Unknown, None, map[], 1, None)]
  {
    RegistrationRows(def, 7);
    SecondServer(def);
    GraceStarted(Step(Registration(def, 7), CallRegister("other", Listed([]), 1)), 0, 2);
  }

  /** Registering a server and starting a grace period keep the tables sound and current. */
  lemma GraceKeeps(t: Tables, endpoint: string, server: ServerId, now: Time, later: Time)
    requires Sound(t) && Current(t)
    ensures var t' := Step(Step(t, CallRegister(endpoint, Listed([]), now)),
                           CallDecommission(server, GracePeriod, None, later));
      Sound(t') && Current(t')
  {
    var t1 := Step(t, CallRegister(endpoint, Listed([]), now));
    StepSound(t, CallRegister(endpoint, Listed([]), now));
    RegisterCurrent(t, endpoint, Listed([]), now);
    StepSound(t1, CallDecommission(server, GracePeriod, None, later));
    DecommissionCurrent(t1, server, GracePeriod, None, later);
  }

  lemma BeforeMigrationGood(def: ToolDefinition)
    ensures Sound(BeforeMigration(def)) && Current(BeforeMigration(def))
  {
    RegistrationGood(def, 7);
    GraceKeeps(Registration(def, 7), "other", 0, 1, 2);
  }

  /** Migrating to a server that does not offer the tool: the mapping stays active with nothing to
      match, so it is never selected. */
  lemma MigrationElsewhere(def: ToolDefinition)
    ensures var t := Step(BeforeMigration(def), CallDecommission(0, Migration, Some(2), 3));
      && 1 in t.mappings && t.mappings[1].status == Active && !Current(t) && !Routable(t, 7, 1)
  {
    var t := BeforeMigration(def);
    var t' := Step(t, CallDecommission(0, Migration, Some(2), 3));
    RegistrationRows(def, 7);
    BeforeMigrationRows(def);
    BeforeMigrationGood(def);
    assert MappingsOf(t.mappings, 2) == {};
    assert MigrationAccepted(t, 0, 2);
    MigrationDecided(t, 0, 2, 3);
    MigrationState(t, 0, 2, 3);
    assert t'.mappings[1] == t.mappings[1].(server := 2);
    assert ToolRow(t'.servers, 2, def.name).None?;
  }

  /** Registering a tool with an unreadable schema succeeds; the next inspection, of the very same
      tool, raises and changes nothing. */
  lemma UnreadableStops(def: ToolDefinition)
    requires !Readable(def.input)
    ensures Apply(Registration(def, 7), CallInspect(0, Listed([def]), 1)) == (Registration(def, 7), TypeError)
    ensures Routable(Registration(def, 7), 7, 1)
  {
    RegistrationRows(def, 7);
    RegistrationGood(def, 7);
    OneByName(def);
    UnreadableRowBlocks(Registration(def, 7), 0, [def], 1, def.name);
  }

  /** Such a schema exists: a null list of required parameters. */
  lemma NullRequiredStops(name: string)
    ensures var def := ToolDefinition(name, None, map["required" := Null], None);
      Apply(Registration(def, 7), CallInspect(0, Listed([def]), 1)) == (Registration(def, 7), TypeError)
  {
    var def := ToolDefinition(name, None, map["required" := Null], None);
    assert Field(def.input, "required") == Null;
    UnreadableStops(def);
  }
}
