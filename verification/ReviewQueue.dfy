/** The review queue over all runs: who is in it, why, since when, and what a bulk retirement takes
    out of it. */
module ReviewQueue {
  import opened Options
  import opened Tables
  import opened RegistryService
  import opened CapabilityService
  import opened Lifecycle

  /** The waiting clock runs exactly in limbo, and each limbo status has its own failure classes. */
  predicate CoherentRow(m: Mapping) {
    && (m.pendingSince.Some? <==> Limbo(m.status))
    && (m.status == Stale ==> m.failureClass == Some(Drifted))
    && (m.status == PendingReview ==> m.failureClass == Some(SchemaMismatch))
    && (m.status == StaleUnverified ==>
         m.failureClass == Some(ServerUnreachable) || m.failureClass == Some(ServerTimeout))
  }

  predicate Coherent(t: Tables) {
    forall id | id in t.mappings :: CoherentRow(t.mappings[id])
  }

  lemma StepCoherent(t: Tables, call: Call)
    requires Coherent(t)
    ensures Coherent(Step(t, call))
  {
    forall id | id in Step(t, call).mappings ensures CoherentRow(Step(t, call).mappings[id]) {
      match call
      case CallRegister(_, _, _) =>
      case CallInspect(server, listing, now) => InspectCoherent(t, server, listing, now, id);
      case CallDecommission(server, phase, replacement, now) =>
        DecommissionCoherent(t, server, phase, replacement, now, id);
      case CallCreate(capability, server, tool, now) => CreateCoherent(t, capability, server, tool, now, id);
      case CallReview(reviewed, decision) => ReviewCoherent(t, reviewed, decision, id);
      case CallRetire(cause, ids) => RetireCoherent(t, cause, ids, id);
    }
  }

  lemma InspectCoherent(t: Tables, server: ServerId, listing: Listing, now: Time, id: MappingId)
    requires Coherent(t) && id in Step(t, CallInspect(server, listing, now)).mappings
    ensures CoherentRow(Step(t, CallInspect(server, listing, now)).mappings[id])
  {
    assert id in t.mappings;
  }

  lemma DecommissionCoherent(t: Tables, server: ServerId, phase: Phase, replacement: Option<ServerId>, now: Time,
                             id: MappingId)
    requires Coherent(t) && id in Step(t, CallDecommission(server, phase, replacement, now)).mappings
    ensures CoherentRow(Step(t, CallDecommission(server, phase, replacement, now)).mappings[id])
  {
    assert id in t.mappings;
  }

  lemma CreateCoherent(t: Tables, capability: CapabilityId, server: ServerId, tool: string, now: Time, id: MappingId)
    requires Coherent(t) && id in Step(t, CallCreate(capability, server, tool, now)).mappings
    ensures CoherentRow(Step(t, CallCreate(capability, server, tool, now)).mappings[id])
  {
  }

  lemma ReviewCoherent(t: Tables, reviewed: MappingId, decision: Decision, id: MappingId)
    requires Coherent(t) && id in Step(t, CallReview(reviewed, decision)).mappings
    ensures CoherentRow(Step(t, CallReview(reviewed, decision)).mappings[id])
  {
  }

  lemma RetireCoherent(t: Tables, cause: Option<FailureClass>, ids: set<MappingId>, id: MappingId)
    requires Coherent(t) && id in Step(t, CallRetire(cause, ids)).mappings
    ensures CoherentRow(Step(t, CallRetire(cause, ids)).mappings[id])
  {
  }

  lemma {:induction false} RunCoherent(t: Tables, calls: seq<Call>)
    requires Coherent(t)
    ensures Coherent(Run(t, calls))
    decreases |calls|
  {
    if calls != [] {
      StepCoherent(t, calls[0]);
      RunCoherent(Step(t, calls[0]), calls[1..]);
    }
  }

  /** The four classes divide the queue. */
  lemma ClassesPartition(t: Tables)
    requires Coherent(t)
    ensures |InLimbo(t.mappings)| ==
      |InClass(t.mappings, Drifted)| + |InClass(t.mappings, SchemaMismatch)|
      + |InClass(t.mappings, ServerUnreachable)| + |InClass(t.mappings, ServerTimeout)|
  {
    var d, s := InClass(t.mappings, Drifted), InClass(t.mappings, SchemaMismatch);
    var u, o := InClass(t.mappings, ServerUnreachable), InClass(t.mappings, ServerTimeout);
    assert d !! s && (d + s) !! u && (d + s + u) !! o;
    forall id | id in InLimbo(t.mappings) ensures id in d + s + u + o {
      assert CoherentRow(t.mappings[id]);
    }
    assert InLimbo(t.mappings) == d + s + u + o;
  }

  /** In every run from the empty tables, the summary's total is its critical and unreachable counts
      together, and the sum of its per-class counts. */
  lemma SummaryAddsUp(calls: seq<Call>, s: QueueSummary)
    requires Summarizes(s, Run(EMPTY, calls).mappings)
    ensures s.total == s.critical + s.unreachable
    ensures s.total == Tally(s.byClass, Drifted) + Tally(s.byClass, SchemaMismatch)
                       + Tally(s.byClass, ServerUnreachable) + Tally(s.byClass, ServerTimeout)
  {
    RunCoherent(EMPTY, calls);
    ClassesPartition(Run(EMPTY, calls));
  }

  /** What a retired row looks like: rejected, off the clock, one denial more on record. */
  predicate RetiredRow(m: Mapping, m': Mapping) {
    && m' == m.(status := Rejected, pendingSince := None, reviews := m'.reviews)
    && |m'.reviews| == |m.reviews| + 1 && m.reviews < m'.reviews
    && m'.reviews[|m.reviews|] == Review(m.digest, m.digest, Denied)
  }

  /** Bulk retirement takes exactly the selected mappings out of the queue, records one denial for
      each, and leaves every other mapping as it was. */
  lemma RetireExactly(t: Tables, cause: Option<FailureClass>, ids: set<MappingId>)
    requires Apply(t, CallRetire(cause, ids)).1 == Done
    ensures var t' := Step(t, CallRetire(cause, ids));
      var selected := Selected(t.mappings, cause, ids);
      && InLimbo(t'.mappings) == InLimbo(t.mappings) - selected
      && |InLimbo(t'.mappings)| == |InLimbo(t.mappings)| - |selected|
      && t'.mappings.Keys == t.mappings.Keys
      && (forall id :: id in t.mappings && id !in selected ==> t'.mappings[id] == t.mappings[id])
      && (forall id :: id in selected ==> RetiredRow(t.mappings[id], t'.mappings[id]))
  {
    var selected := Selected(t.mappings, cause, ids);
    RetireState(t, cause, ids);
    RetiredOut(t.mappings, selected);
    Smaller(InLimbo(t.mappings), selected);
    forall id | id in selected ensures RetiredRow(t.mappings[id], Retire(t.mappings[id])) {
      RetireRow(t.mappings[id]);
    }
  }

  lemma RetireState(t: Tables, cause: Option<FailureClass>, ids: set<MappingId>)
    requires Apply(t, CallRetire(cause, ids)).1 == Done
    ensures Step(t, CallRetire(cause, ids)) ==
      t.(mappings := UpdateRows(t.mappings, Selected(t.mappings, cause, ids), Retire))
  {
  }

  lemma RetireRow(m: Mapping)
    ensures RetiredRow(m, Retire(m))
  {
  }

  lemma RetiredOut(mappings: map<MappingId, Mapping>, ids: set<MappingId>)
    ensures InLimbo(UpdateRows(mappings, ids, Retire)) == InLimbo(mappings) - ids
  {
  }

  lemma Smaller<T>(s: set<T>, part: set<T>)
    requires part <= s
    ensures |s - part| == |s| - |part|
  {
  }

  /** Retiring one class empties it (unless an id list narrows the choice) and touches no other. */
  lemma RetireOneClass(t: Tables, cause: FailureClass, ids: set<MappingId>, other: FailureClass)
    ensures var t' := Step(t, CallRetire(Some(cause), ids));
      && (other != cause ==> InClass(t'.mappings, other) == InClass(t.mappings, other))
      && (ids == {} ==> InClass(t'.mappings, cause) == {})
  {
    RetireState(t, Some(cause), ids);
    RetiredClass(t.mappings, cause, ids, other);
    if ids == {} {
      RetiredClass(t.mappings, cause, ids, cause);
    }
  }

  lemma RetiredClass(mappings: map<MappingId, Mapping>, cause: FailureClass, ids: set<MappingId>, other: FailureClass)
    ensures var mappings' := UpdateRows(mappings, Selected(mappings, Some(cause), ids), Retire);
      && (other != cause ==> InClass(mappings', other) == InClass(mappings, other))
      && (other == cause && ids == {} ==> InClass(mappings', other) == {})
  {
  }
}
