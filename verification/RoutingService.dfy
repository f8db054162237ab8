/** Choosing the server for a capability (api/services/routing_service.py). */
module RoutingService {
  import opened Json
  import opened Digest
  import opened Tables

  /** The routing service's own copy of the digest computation. */
  function ComputeExpectedDigest(name: string, tool: Tool): Digest {
    Sha256(name + Render(Obj(tool.input)) + match tool.output case None => Render(Null) case Some(o) => Render(Obj(o)))
  }

  /** Both services hash the same text for the same row. */
  lemma ServicesAgree(name: string, tool: Tool)
    ensures ComputeExpectedDigest(name, tool) == ComputeToolDigest(name, tool.input, tool.output)
  {
  }

  /** A mapping whose stored digest is that of its current tool row. */
  predicate Validated(servers: map<ServerId, Server>, m: Mapping) {
    var row := ToolRow(servers, m.server, m.tool);
    row.Some? && m.digest == RowDigest(m.tool, row.value)
  }

  predicate Routable(t: Tables, capability: CapabilityId, id: MappingId) {
    && id in t.mappings && t.mappings[id].capability == capability && t.mappings[id].status == Active
    && Validated(t.servers, t.mappings[id])
  }

  /** An answer to the candidate query: the capability's active mappings, heaviest first. Ties come
      back in any order. */
  ghost predicate Candidates(t: Tables, capability: CapabilityId, rows: seq<MappingId>) {
    && (forall id :: id in rows <==>
         id in t.mappings && t.mappings[id].capability == capability && t.mappings[id].status == Active)
    && (forall i, j :: 0 <= i < j < |rows| ==> t.mappings[rows[i]].weight >= t.mappings[rows[j]].weight)
  }

  /** If only the candidates before `i` are known unroutable, every routable mapping is listed from
      `i` on, and weighs no more than the candidate there. */
  lemma RoutableAfter(t: Tables, capability: CapabilityId, rows: seq<MappingId>, i: nat, id: MappingId)
    requires Candidates(t, capability, rows) && i <= |rows|
    requires forall j :: 0 <= j < i ==> !Routable(t, capability, rows[j])
    requires Routable(t, capability, id)
    ensures i < |rows| && rows[i] in t.mappings && t.mappings[id].weight <= t.mappings[rows[i]].weight
  {
    assert id in rows;
    var k :| 0 <= k < |rows| && rows[k] == id;
    assert i <= k;
    assert rows[i] in rows;
  }

  datatype Selection = Selected(id: MappingId) | NoActiveMapping | NoValidatedMapping

  /** What the caller is promised: the heaviest routable mapping, or an error saying why not. */
  ghost predicate Answers(t: Tables, capability: CapabilityId, s: Selection) {
    match s
    case Selected(id) =>
      && Routable(t, capability, id)
      && (forall other :: Routable(t, capability, other) ==> t.mappings[other].weight <= t.mappings[id].weight)
    case NoActiveMapping =>
      forall id :: id in t.mappings && t.mappings[id].capability == capability ==> t.mappings[id].status != Active
    case NoValidatedMapping =>
      && (exists id :: id in t.mappings && t.mappings[id].capability == capability && t.mappings[id].status == Active)
      && (forall id :: !Routable(t, capability, id))
  }

  method SelectServer(t: Tables, capability: CapabilityId, rows: seq<MappingId>) returns (s: Selection)
    requires Candidates(t, capability, rows)
    ensures Answers(t, capability, s)
    ensures rows != [] && Routable(t, capability, rows[0]) ==> s == Selected(rows[0])
  {
    if rows == [] {
      assert forall id :: id !in rows;
      return NoActiveMapping;
    }
    var i := 0;
    while i < |rows|
      invariant 0 <= i <= |rows|
      invariant forall j :: 0 <= j < i ==> !Routable(t, capability, rows[j])
    {
      assert rows[i] in rows;
      var m := t.mappings[rows[i]];
      var row := ToolRow(t.servers, m.server, m.tool);
      if row.Some? {
        var expected := ComputeExpectedDigest(m.tool, row.value);
        ServicesAgree(m.tool, row.value);
        if m.digest == expected {
          forall other | Routable(t, capability, other)
            ensures t.mappings[other].weight <= t.mappings[rows[i]].weight
          {
            RoutableAfter(t, capability, rows, i, other);
          }
          return Selected(rows[i]);
        }
      }
      i := i + 1;
    }
    assert rows[0] in rows;
    forall id ensures !Routable(t, capability, id) {
      if Routable(t, capability, id) {
        RoutableAfter(t, capability, rows, i, id);
      }
    }
    return NoValidatedMapping;
  }

  /** The error is raised exactly when nothing is routable. */
  lemma AnswersDecide(t: Tables, capability: CapabilityId, s: Selection)
    requires Answers(t, capability, s)
    ensures s.Selected? <==> exists id :: Routable(t, capability, id)
  {
  }
}
