/** Creating and reviewing mappings and working the review queue
    (api/services/capability_service.py). */
module CapabilityService {
  import opened Options
  import opened Digest
  import opened Tables

  // ---------------------------------------------------------------- create_mapping

  /** Another mapping of the capability names a different tool, whatever its status. */
  predicate HasCollision(mappings: map<MappingId, Mapping>, capability: CapabilityId, tool: string) {
    exists id | id in mappings :: mappings[id].capability == capability && mappings[id].tool != tool
  }

  function NewMapping(t: Tables, capability: CapabilityId, server: ServerId, tool: string, row: Tool, now: Time)
    : Mapping
  {
    var digest := RowDigest(tool, row);
    if HasCollision(t.mappings, capability, tool)
    then Mapping(capability, server, tool, 1.0, digest, PendingReview, Some(SchemaMismatch), Some(now), [])
    else Mapping(capability, server, tool, 1.0, digest, Active, None, None, [])
  }

  function MappingCreated(t: Tables, capability: CapabilityId, server: ServerId, tool: string, now: Time)
    : (Tables, Outcome)
  {
    match ToolRow(t.servers, server, tool)
    case None => (t, ToolNotFound)
    case Some(row) =>
      var mappings := t.mappings[t.nextId := NewMapping(t, capability, server, tool, row, now)];
      if !UniqueMappings(mappings) then (t, IntegrityFault)
      else (t.(mappings := mappings, nextId := t.nextId + 1), Done)
  }

  method CreateMapping(db: Database, capability: CapabilityId, server: ServerId, tool: string, now: Time)
    returns (outcome: Outcome)
    modifies db
    ensures (db.Snapshot(), outcome) == MappingCreated(old(db.Snapshot()), capability, server, tool, now)
  {
    var row := ToolRow(db.servers, server, tool);
    if row.None? {
      return ToolNotFound;
    }
    var digest := ComputeToolDigest(tool, row.value.input, row.value.output);
    var collides := HasCollision(db.mappings, capability, tool);
    var status := if collides then PendingReview else Active;
    var failureClass := if collides then Some(SchemaMismatch) else None;
    var pendingSince := if collides then Some(now) else None;
    var mappings := db.mappings[db.nextId :=
      Mapping(capability, server, tool, 1.0, digest, status, failureClass, pendingSince, [])];
    if !UniqueMappings(mappings) {
      return IntegrityFault;  // rolled back
    }
    db.mappings := mappings;
    db.nextId := db.nextId + 1;
    return Done;
  }

  // ---------------------------------------------------------------- review_mapping

  /** Approval takes the digest of the tool row as it is now, or keeps the old one if the row is gone. */
  function ApprovedDigest(servers: map<ServerId, Server>, m: Mapping): Digest {
    match ToolRow(servers, m.server, m.tool)
    case None => m.digest
    case Some(row) => RowDigest(m.tool, row)
  }

  function AfterReview(servers: map<ServerId, Server>, m: Mapping, decision: Decision): Mapping {
    var digest := if decision == Approved then ApprovedDigest(servers, m) else m.digest;
    m.(digest := digest, status := if decision == Approved then Active else Rejected, pendingSince := None,
       reviews := m.reviews + [Review(m.digest, digest, decision)])
  }

  function Reviewed(t: Tables, id: MappingId, decision: Decision): (Tables, Outcome) {
    if id !in t.mappings then (t, MappingNotFound)
    else if decision == OtherDecision then (t, InvalidRequest)
    else
      var mappings := t.mappings[id := AfterReview(t.servers, t.mappings[id], decision)];
      if !UniqueMappings(mappings) then (t, IntegrityFault)
      else (t.(mappings := mappings), Done)
  }

  method ReviewMapping(db: Database, id: MappingId, decision: Decision) returns (outcome: Outcome)
    modifies db
    ensures (db.Snapshot(), outcome) == Reviewed(old(db.Snapshot()), id, decision)
  {
    if id !in db.mappings {
      return MappingNotFound;
    }
    var m := db.mappings[id];
    var previous := m.digest;
    if decision == Approved {
      var row := ToolRow(db.servers, m.server, m.tool);
      if row.Some? {
        m := m.(digest := ComputeToolDigest(m.tool, row.value.input, row.value.output));
      }
      m := m.(status := Active, pendingSince := None);
    } else if decision == Denied {
      m := m.(status := Rejected, pendingSince := None);
    } else {
      return InvalidRequest;
    }
    m := m.(reviews := m.reviews + [Review(previous, m.digest, decision)]);
    if !UniqueMappings(db.mappings[id := m]) {
      return IntegrityFault;  // rolled back
    }
    db.mappings := db.mappings[id := m];
    return Done;
  }

  // ---------------------------------------------------------------- the review queue

  function InLimbo(mappings: map<MappingId, Mapping>): set<MappingId> {
    set id | id in mappings && Limbo(mappings[id].status)
  }

  function InClass(mappings: map<MappingId, Mapping>, cause: FailureClass): set<MappingId> {
    set id | id in mappings && Limbo(mappings[id].status) && mappings[id].failureClass == Some(cause)
  }

  /** The limbo mappings a bulk retirement selects; no id list means all of them. */
  function Selected(mappings: map<MappingId, Mapping>, cause: Option<FailureClass>, ids: set<MappingId>)
    : set<MappingId>
  {
    set id | id in InLimbo(mappings)
      && (cause.Some? ==> mappings[id].failureClass == cause) && (ids != {} ==> id in ids)
  }

  function Retire(m: Mapping): Mapping {
    m.(status := Rejected, pendingSince := None, reviews := m.reviews + [Review(m.digest, m.digest, Denied)])
  }

  function BulkRetired(t: Tables, cause: Option<FailureClass>, ids: set<MappingId>): (Tables, Outcome) {
    if cause.None? && ids == {} then (t, InvalidRequest)
    else (t.(mappings := UpdateRows(t.mappings, Selected(t.mappings, cause, ids), Retire)), Done)
  }

  method BulkRetire(db: Database, cause: Option<FailureClass>, ids: set<MappingId>)
    returns (outcome: Outcome, retired: nat)
    modifies db
    ensures (db.Snapshot(), outcome) == BulkRetired(old(db.Snapshot()), cause, ids)
    ensures outcome == Done ==> retired == |Selected(old(db.mappings), cause, ids)|
  {
    if cause.None? && ids == {} {
      return InvalidRequest, 0;
    }
    var selected := Selected(db.mappings, cause, ids);
    var todo, updated := selected, db.mappings;
    while todo != {}
      invariant todo <= selected
      invariant updated == UpdateRows(db.mappings, selected - todo, Retire)
      decreases |todo|
    {
      var id :| id in todo;
      updated := updated[id := Retire(updated[id])];
      todo := todo - {id};
    }
    assert selected - todo == selected;
    db.mappings := updated;
    return Done, |selected|;
  }

  datatype QueueSummary = QueueSummary(total: nat, critical: nat, unreachable: nat, byClass: map<FailureClass, nat>)

  /** How often a class was seen. */
  function Tally(byClass: map<FailureClass, nat>, cause: FailureClass): nat {
    if cause in byClass then byClass[cause] else 0
  }

  function OfClass(mappings: map<MappingId, Mapping>, ids: set<MappingId>, cause: FailureClass): set<MappingId>
    requires ids <= mappings.Keys
  {
    set id | id in ids && mappings[id].failureClass == Some(cause)
  }

  lemma CountOne(mappings: map<MappingId, Mapping>, ids: set<MappingId>, id: MappingId, cause: FailureClass)
    requires ids <= mappings.Keys && id in mappings && id !in ids
    ensures |OfClass(mappings, ids + {id}, cause)| ==
      |OfClass(mappings, ids, cause)| + if mappings[id].failureClass == Some(cause) then 1 else 0
  {
    if mappings[id].failureClass == Some(cause) {
      assert OfClass(mappings, ids + {id}, cause) == OfClass(mappings, ids, cause) + {id};
    } else {
      assert OfClass(mappings, ids + {id}, cause) == OfClass(mappings, ids, cause);
    }
  }

  /** The dictionary counts the rows done. */
  ghost predicate Tallied(mappings: map<MappingId, Mapping>, done: set<MappingId>, byClass: map<FailureClass, nat>) {
    done <= mappings.Keys && forall c :: Tally(byClass, c) == |OfClass(mappings, done, c)|
  }

  lemma TalliedStep(mappings: map<MappingId, Mapping>, done: set<MappingId>, byClass: map<FailureClass, nat>,
                    id: MappingId)
    requires Tallied(mappings, done, byClass) && id in mappings && id !in done
    ensures var cause := mappings[id].failureClass;
      Tallied(mappings, done + {id},
              if cause.Some? then byClass[cause.value := Tally(byClass, cause.value) + 1] else byClass)
  {
    forall c {
      CountOne(mappings, done, id, c);
    }
  }

  lemma AllTallied(mappings: map<MappingId, Mapping>, byClass: map<FailureClass, nat>)
    requires Tallied(mappings, InLimbo(mappings), byClass)
    ensures forall c :: Tally(byClass, c) == |InClass(mappings, c)|
  {
    forall c ensures Tally(byClass, c) == |InClass(mappings, c)| {
      assert OfClass(mappings, InLimbo(mappings), c) == InClass(mappings, c);
    }
  }

  ghost predicate Summarizes(s: QueueSummary, mappings: map<MappingId, Mapping>) {
    && s.total == |InLimbo(mappings)|
    && (forall c :: Tally(s.byClass, c) == |InClass(mappings, c)|)
    && s.critical == |InClass(mappings, Drifted)| + |InClass(mappings, SchemaMismatch)|
    && s.unreachable == |InClass(mappings, ServerUnreachable)| + |InClass(mappings, ServerTimeout)|
  }

  /** Counts the limbo rows into a dictionary, then sums its critical and unreachable entries. */
  method GetQueueSummary(mappings: map<MappingId, Mapping>) returns (s: QueueSummary)
    ensures Summarizes(s, mappings)
  {
    var rows := InLimbo(mappings);
    var todo, done := rows, {};
    var byClass: map<FailureClass, nat> := map[];
    while todo != {}
      invariant todo !! done && todo + done == rows
      invariant Tallied(mappings, done, byClass)
      decreases |todo|
    {
      var id :| id in todo;
      var cause := mappings[id].failureClass;
      TalliedStep(mappings, done, byClass, id);
      if cause.Some? {
        byClass := byClass[cause.value := Tally(byClass, cause.value) + 1];
      }
      todo, done := todo - {id}, done + {id};
    }
    assert done == rows;
    AllTallied(mappings, byClass);
    var critical := Tally(byClass, Drifted) + Tally(byClass, SchemaMismatch);
    var unreachable := Tally(byClass, ServerUnreachable) + Tally(byClass, ServerTimeout);
    return QueueSummary(|rows|, critical, unreachable, byClass);
  }
}
