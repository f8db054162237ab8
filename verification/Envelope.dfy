/** Approval envelopes and the concurrent burning of their budget
    (api/services/approval_fatigue_service.py). */
module Envelope {
  import opened Options

  type EnvelopeId = nat
  datatype Envelope = Envelope(scope: string, budget: int, remaining: int, expiresAt: int)

  datatype Refusal = NotFound | Expired | Exhausted
  datatype Burn = Burned(remaining: int) | Refused(reason: Refusal)

  /** The read before the update. */
  function Check(e: Envelope, now: int): Option<Refusal> {
    if e.expiresAt < now then Some(Expired) else if e.remaining <= 0 then Some(Exhausted) else None
  }

  /** `UPDATE ... SET remaining = remaining - 1 WHERE remaining > 0`. */
  function Decrement(remaining: int): int {
    if remaining > 0 then remaining - 1 else remaining
  }

  datatype Action = Action(reversible: bool, schemaChange: bool, target: string, envelope: Option<EnvelopeId>)
  datatype Classification = AutoApproved | Prompted | Escalated | AmbiguousScope

  function WithScope(envelopes: map<EnvelopeId, Envelope>, scope: string): set<EnvelopeId> {
    set id | id in envelopes && envelopes[id].scope == scope
  }

  /** Some envelope was granted for the scope, and no other. */
  predicate ScopeOnce(envelopes: map<EnvelopeId, Envelope>, scope: string) {
    exists id | id in envelopes :: envelopes[id].scope == scope
      && forall other | other in envelopes :: envelopes[other].scope == scope ==> other == id
  }

  predicate ScopeTwice(envelopes: map<EnvelopeId, Envelope>, scope: string) {
    exists a, b | a in envelopes && b in envelopes && a != b ::
      envelopes[a].scope == scope && envelopes[b].scope == scope
  }

  lemma ScopeCounts(envelopes: map<EnvelopeId, Envelope>, scope: string)
    ensures |WithScope(envelopes, scope)| == 1 <==> ScopeOnce(envelopes, scope)
    ensures |WithScope(envelopes, scope)| > 1 <==> ScopeTwice(envelopes, scope)
  {
    var known := WithScope(envelopes, scope);
    if known != {} {
      var a :| a in known;
      if known == {a} {
        assert forall id :: id in envelopes && envelopes[id].scope == scope ==> id in known;
      } else {
        assert known - {a} != {};
        var b :| b in known - {a};
        assert {a, b} <= known;
        Subset({a, b}, known);
      }
    } else {
      assert forall id :: id in envelopes && envelopes[id].scope == scope ==> id in known;
    }
  }

  lemma {:induction false} Subset<T>(a: set<T>, b: set<T>)
    requires a <= b
    ensures |a| <= |b|
  {
    assert b == a + (b - a);
  }

  /** An irreversible action that is no schema change and names an envelope. */
  predicate InEnvelope(action: Action) {
    !action.reversible && !action.schemaChange && action.envelope.Some?
  }

  class EnvelopeService {
    var envelopes: map<EnvelopeId, Envelope>
    var nextId: nat

    predicate Valid()
      reads this
    {
      forall id | id in envelopes :: id < nextId
    }

    constructor ()
      ensures Valid() && envelopes == map[]
    {
      envelopes, nextId := map[], 0;
    }

    method GrantEnvelope(scope: string, budget: int, expiresAt: int) returns (id: EnvelopeId)
      requires Valid()
      modifies this
      ensures Valid() && id !in old(envelopes)
      ensures envelopes == old(envelopes)[id := Envelope(scope, budget, budget, expiresAt)]
    {
      id := nextId;
      envelopes := envelopes[id := Envelope(scope, budget, budget, expiresAt)];
      nextId := nextId + 1;
    }

    /** Undisturbed, a burn spends exactly one unit of a live envelope and reports what is left. */
    method BurnEnvelopeBudget(id: EnvelopeId, now: int) returns (burn: Burn)
      requires Valid()
      modifies this
      ensures Valid()
      ensures burn == Refused(NotFound) <==> id !in old(envelopes)
      ensures id in old(envelopes) ==>
        var e := old(envelopes)[id];
        && (burn == Refused(Expired) <==> e.expiresAt < now)
        && (burn == Refused(Exhausted) <==> e.expiresAt >= now && e.remaining <= 0)
        && (burn.Burned? ==> burn.remaining == e.remaining - 1 >= 0
                             && envelopes == old(envelopes)[id := e.(remaining := burn.remaining)])
      ensures burn.Burned? <==> id in old(envelopes) && Check(old(envelopes)[id], now).None?
      ensures burn.Refused? ==> envelopes == old(envelopes)
    {
      if id !in envelopes {
        return Refused(NotFound);
      }
      var refusal := Check(envelopes[id], now);
      if refusal.Some? {
        return Refused(refusal.value);
      }
      envelopes := envelopes[id := envelopes[id].(remaining := Decrement(envelopes[id].remaining))];
      return Burned(envelopes[id].remaining);
    }

    /** Only an irreversible, in-envelope action in a known environment spends budget, and then one
        unit; every refusal of the envelope escalates. */
    method Classify(action: Action, now: int) returns (c: Classification)
      requires Valid()
      modifies this
      ensures Valid()
      ensures c == AutoApproved <==> action.reversible
      ensures c == AmbiguousScope <==>
        InEnvelope(action) && action.target != "" && ScopeTwice(old(envelopes), action.target)
      ensures InEnvelope(action) ==>
        (c == Prompted <==>
          && (action.target == "" || ScopeOnce(old(envelopes), action.target))
          && action.envelope.value in old(envelopes)
          && Check(old(envelopes)[action.envelope.value], now).None?)
      ensures !action.reversible && !InEnvelope(action) ==> c == if action.schemaChange then Escalated else Prompted
      ensures InEnvelope(action) && c == Prompted ==>
        var id := action.envelope.value;
        envelopes == old(envelopes)[id := old(envelopes)[id].(remaining := old(envelopes)[id].remaining - 1)]
      ensures !(InEnvelope(action) && c == Prompted) ==> envelopes == old(envelopes)
    {
      if action.reversible {
        return AutoApproved;
      }
      if action.schemaChange {
        return Escalated;
      }
      if action.envelope.None? {
        return Prompted;
      }
      if action.target != "" {
        var known := WithScope(envelopes, action.target);
        ScopeCounts(envelopes, action.target);
        if |known| > 1 {
          return AmbiguousScope;  // the query for one row fails
        }
        if known == {} {
          return Escalated;
        }
      }
      var burn := BurnEnvelopeBudget(action.envelope.value, now);
      if burn.Refused? {
        return Escalated;
      }
      return Prompted;
    }
  }

  // ---------------------------------------------------------------- concurrent burners

  /** Where a caller is inside `burn_envelope_budget`. */
  datatype Pc = Idle | Checked | Updated

  /** One envelope and its callers. `matched` and `missed` count the UPDATEs that did and did not find
      budget; `granted` counts the calls that returned success. */
  datatype System = System(
    budget: int, expiresAt: int, remaining: int, callers: seq<Pc>, matched: nat, missed: nat, granted: nat)

  datatype Event = DoCheck(i: nat, now: int) | DoUpdate(i: nat) | DoReturn(i: nat)

  function Start(budget: int, expiresAt: int, callers: nat): System {
    System(budget, expiresAt, budget, seq(callers, _ => Idle), 0, 0, 0)
  }

  predicate Enabled(s: System, e: Event) {
    match e
    case DoCheck(i, _) => i < |s.callers| && s.callers[i] == Idle
    case DoUpdate(i) => i < |s.callers| && s.callers[i] == Checked
    case DoReturn(i) => i < |s.callers| && s.callers[i] == Updated
  }

  function Happen(s: System, e: Event): System
    requires Enabled(s, e)
  {
    match e
    case DoCheck(i, now) =>
      if Check(Envelope("", s.budget, s.remaining, s.expiresAt), now).Some? then s
      else s.(callers := s.callers[i := Checked])
    case DoUpdate(i) =>
      s.(remaining := Decrement(s.remaining), callers := s.callers[i := Updated],
         matched := if s.remaining > 0 then s.matched + 1 else s.matched,
         missed := if s.remaining > 0 then s.missed else s.missed + 1)
    case DoReturn(i) => s.(callers := s.callers[i := Idle], granted := s.granted + 1)
  }

  predicate Possible(s: System, es: seq<Event>)
    decreases |es|
  {
    es == [] || (Enabled(s, es[0]) && Possible(Happen(s, es[0]), es[1..]))
  }

  function Execute(s: System, es: seq<Event>): (s': System)
    requires Possible(s, es)
    ensures |s'.callers| == |s.callers| && s'.budget == s.budget
    decreases |es|
  {
    if es == [] then s else Execute(Happen(s, es[0]), es[1..])
  }

  function CountPc(callers: seq<Pc>, pc: Pc): nat {
    if callers == [] then 0
    else CountPc(callers[..|callers| - 1], pc) + if callers[|callers| - 1] == pc then 1 else 0
  }

  lemma {:induction false} CountUpdate(callers: seq<Pc>, i: nat, to: Pc, pc: Pc)
    requires i < |callers|
    ensures CountPc(callers[i := to], pc) ==
      CountPc(callers, pc) + (if to == pc then 1 else 0) - (if callers[i] == pc then 1 else 0)
  {
    var n := |callers| - 1;
    if i == n {
      assert callers[i := to][..n] == callers[..n];
    } else {
      CountUpdate(callers[..n], i, to, pc);
      assert callers[i := to][..n] == callers[..n][i := to];
    }
  }

  lemma {:induction false} CountBound(callers: seq<Pc>, pc: Pc)
    ensures CountPc(callers, pc) <= |callers|
  {
    if callers != [] {
      CountBound(callers[..|callers| - 1], pc);
    }
  }

  lemma {:induction false} CountNone(n: nat, pc: Pc)
    requires pc != Idle
    ensures CountPc(seq(n, _ => Idle), pc) == 0
  {
    if n > 0 {
      CountNone(n - 1, pc);
      assert seq(n, _ => Idle)[..n - 1] == seq(n - 1, _ => Idle);
    }
  }

  /** At no point of the run are more than `width` callers between their check and their update. */
  predicate Narrow(s: System, es: seq<Event>, width: nat)
    requires Possible(s, es)
    decreases |es|
  {
    CountPc(s.callers, Checked) <= width && (es == [] || Narrow(Happen(s, es[0]), es[1..], width))
  }

  /** What every interleaving keeps. */
  ghost predicate Accounted(s: System, width: nat) {
    && s.remaining <= s.budget && (s.budget >= 0 ==> s.remaining >= 0)
    && s.budget - s.remaining == s.matched
    && s.granted + CountPc(s.callers, Updated) == s.matched + s.missed
    && (s.remaining > 0 ==> s.missed == 0)
    && (s.remaining <= 0 && s.budget > 0 ==> s.missed + CountPc(s.callers, Checked) < width)
    && (s.budget <= 0 ==> s.missed == 0 && CountPc(s.callers, Checked) == 0)
  }

  lemma StepAccounted(s: System, e: Event, width: nat)
    requires Accounted(s, width) && Enabled(s, e) && CountPc(s.callers, Checked) <= width
    ensures Accounted(Happen(s, e), width)
  {
    match e
    case DoCheck(i, _) =>
      CountUpdate(s.callers, i, Checked, Checked);
      CountUpdate(s.callers, i, Checked, Updated);
    case DoUpdate(i) =>
      CountUpdate(s.callers, i, Updated, Checked);
      CountUpdate(s.callers, i, Updated, Updated);
    case DoReturn(i) =>
      CountUpdate(s.callers, i, Idle, Checked);
      CountUpdate(s.callers, i, Idle, Updated);
  }

  lemma {:induction false} RunAccounted(s: System, es: seq<Event>, width: nat)
    requires Accounted(s, width) && Possible(s, es) && Narrow(s, es, width)
    ensures Accounted(Execute(s, es), width)
    decreases |es|
  {
    if es != [] {
      StepAccounted(s, es[0], width);
      RunAccounted(Happen(s, es[0]), es[1..], width);
    }
  }

  lemma {:induction false} AlwaysNarrow(s: System, es: seq<Event>, width: nat)
    requires Possible(s, es) && |s.callers| <= width
    ensures Narrow(s, es, width)
    decreases |es|
  {
    CountBound(s.callers, Checked);
    if es != [] {
      AlwaysNarrow(Happen(s, es[0]), es[1..], width);
    }
  }

  /** In every interleaving the stored budget is accounted for by the UPDATEs that matched, and at
      most `width - 1` calls report success without having spent anything. */
  lemma OverspendBound(budget: nat, expiresAt: int, callers: nat, es: seq<Event>, width: nat)
    requires width > 0
    requires Possible(Start(budget, expiresAt, callers), es) && Narrow(Start(budget, expiresAt, callers), es, width)
    ensures var s := Execute(Start(budget, expiresAt, callers), es);
      && 0 <= s.remaining <= budget && budget - s.remaining == s.matched
      && s.granted <= budget + width - 1
      && (s.granted > s.matched ==> s.remaining == 0)
  {
    CountNone(callers, Checked);
    CountNone(callers, Updated);
    RunAccounted(Start(budget, expiresAt, callers), es, width);
  }

  /** So with `k` callers at most `budget + k - 1` calls succeed. */
  lemma CallersBound(budget: nat, expiresAt: int, k: nat, es: seq<Event>)
    requires k > 0 && Possible(Start(budget, expiresAt, k), es)
    ensures Execute(Start(budget, expiresAt, k), es).granted <= budget + k - 1
  {
    AlwaysNarrow(Start(budget, expiresAt, k), es, k);
    OverspendBound(budget, expiresAt, k, es, k);
  }

  /** When checks and updates of different callers do not overlap, successes equal budget spent once
      all calls have returned. */
  lemma SerialExact(budget: nat, expiresAt: int, k: nat, es: seq<Event>)
    requires Possible(Start(budget, expiresAt, k), es) && Narrow(Start(budget, expiresAt, k), es, 1)
    requires forall i :: 0 <= i < k ==> Execute(Start(budget, expiresAt, k), es).callers[i] == Idle
    ensures var s := Execute(Start(budget, expiresAt, k), es);
      s.granted == budget - s.remaining
  {
    CountNone(k, Checked);
    CountNone(k, Updated);
    RunAccounted(Start(budget, expiresAt, k), es, 1);
    var s := Execute(Start(budget, expiresAt, k), es);
    assert s.callers == seq(k, _ => Idle);
  }

  // ---------------------------------------------------------------- the bound is reached

  function OneCall(now: int): seq<Event> {
    [DoCheck(0, now), DoUpdate(0), DoReturn(0)]
  }

  function Calls(n: nat, now: int): seq<Event> {
    if n == 0 then [] else OneCall(now) + Calls(n - 1, now)
  }

  /** `from` to `k` one after the other. */
  function Checks(from: nat, k: nat, now: int): seq<Event>
    decreases k - from
  {
    if from >= k then [] else [DoCheck(from, now)] + Checks(from + 1, k, now)
  }

  function Updates(from: nat, k: nat): seq<Event>
    decreases k - from
  {
    if from >= k then [] else [DoUpdate(from)] + Updates(from + 1, k)
  }

  function Returns(from: nat, k: nat): seq<Event>
    decreases k - from
  {
    if from >= k then [] else [DoReturn(from)] + Returns(from + 1, k)
  }

  lemma {:induction false} ExecuteConcat(s: System, a: seq<Event>, b: seq<Event>)
    requires Possible(s, a) && Possible(Execute(s, a), b)
    ensures Possible(s, a + b) && Execute(s, a + b) == Execute(Execute(s, a), b)
    decreases |a|
  {
    if a == [] {
      assert a + b == b;
    } else {
      assert (a + b)[0] == a[0] && (a + b)[1..] == a[1..] + b;
      ExecuteConcat(Happen(s, a[0]), a[1..], b);
    }
  }

  lemma ExecuteOne(s: System, e: Event, rest: seq<Event>)
    requires Enabled(s, e) && Possible(Happen(s, e), rest)
    ensures Possible(s, [e] + rest) && Execute(s, [e] + rest) == Execute(Happen(s, e), rest)
  {
    assert ([e] + rest)[1..] == rest;
  }

  lemma RunOneCall(s: System, now: int)
    requires s.callers != [] && s.callers[0] == Idle && s.remaining > 0 && s.expiresAt >= now
    ensures Possible(s, OneCall(now))
    ensures Execute(s, OneCall(now)) ==
      s.(remaining := s.remaining - 1, matched := s.matched + 1, granted := s.granted + 1)
  {
    var s1 := Happen(s, DoCheck(0, now));
    var s2 := Happen(s1, DoUpdate(0));
    var s3 := Happen(s2, DoReturn(0));
    assert s3.callers == s.callers;
    ExecuteOne(s2, DoReturn(0), []);
    ExecuteOne(s1, DoUpdate(0), [DoReturn(0)] + []);
    ExecuteOne(s, DoCheck(0, now), [DoUpdate(0)] + ([DoReturn(0)] + []));
    assert OneCall(now) == [DoCheck(0, now)] + ([DoUpdate(0)] + ([DoReturn(0)] + []));
  }

  lemma {:induction false} RunCalls(s: System, n: nat, now: int)
    requires s.callers != [] && s.callers[0] == Idle && s.remaining >= n && s.expiresAt >= now
    ensures Possible(s, Calls(n, now))
    ensures Execute(s, Calls(n, now)) ==
      s.(remaining := s.remaining - n, matched := s.matched + n, granted := s.granted + n)
    decreases n
  {
    if n > 0 {
      RunOneCall(s, now);
      RunCalls(Execute(s, OneCall(now)), n - 1, now);
      ExecuteConcat(s, OneCall(now), Calls(n - 1, now));
    }
  }

  /** The first `i` callers in state `a`, the rest in state `b`. */
  function Front(k: nat, i: nat, a: Pc, b: Pc): seq<Pc> {
    seq(k, j requires 0 <= j < k => if j < i then a else b)
  }

  lemma FrontStep(k: nat, i: nat, a: Pc, b: Pc)
    requires i < k
    ensures Front(k, i, a, b)[i := a] == Front(k, i + 1, a, b)
  {
  }

  lemma {:induction false} RunChecks(s: System, from: nat, k: nat, now: int)
    requires from <= k && s.callers == Front(k, from, Checked, Idle) && s.remaining > 0 && s.expiresAt >= now
    ensures Possible(s, Checks(from, k, now))
    ensures Execute(s, Checks(from, k, now)) == s.(callers := Front(k, k, Checked, Idle))
    decreases k - from
  {
    if from < k {
      var s' := Happen(s, DoCheck(from, now));
      FrontStep(k, from, Checked, Idle);
      RunChecks(s', from + 1, k, now);
      ExecuteOne(s, DoCheck(from, now), Checks(from + 1, k, now));
    }
  }

  /** With no budget left, every further update misses. */
  lemma {:induction false} RunUpdates(s: System, from: nat, k: nat)
    requires from <= k && s.callers == Front(k, from, Updated, Checked) && s.remaining == 0
    ensures Possible(s, Updates(from, k))
    ensures Execute(s, Updates(from, k)) ==
      s.(callers := Front(k, k, Updated, Checked), missed := s.missed + (k - from))
    decreases k - from
  {
    if from < k {
      var s' := Happen(s, DoUpdate(from));
      FrontStep(k, from, Updated, Checked);
      RunUpdates(s', from + 1, k);
      ExecuteOne(s, DoUpdate(from), Updates(from + 1, k));
    }
  }

  lemma {:induction false} RunReturns(s: System, from: nat, k: nat)
    requires from <= k && s.callers == Front(k, from, Idle, Updated)
    ensures Possible(s, Returns(from, k))
    ensures Execute(s, Returns(from, k)) == s.(callers := Front(k, k, Idle, Updated), granted := s.granted + (k - from))
    decreases k - from
  {
    if from < k {
      var s' := Happen(s, DoReturn(from));
      FrontStep(k, from, Idle, Updated);
      RunReturns(s', from + 1, k);
      ExecuteOne(s, DoReturn(from), Returns(from + 1, k));
    }
  }

  /** The events that overspend as far as possible: all but one unit spent in turn, then everyone
      checks before anyone updates. */
  function Overspending(budget: nat, k: nat, now: int): seq<Event>
    requires budget > 0 && k > 0
  {
    Calls(budget - 1, now) + (Checks(0, k, now) + (Updates(0, k) + Returns(0, k)))
  }

  lemma Stampede(s: System, k: nat, now: int)
    requires k > 0 && s.callers == Front(k, 0, Checked, Idle) && s.remaining == 1 && s.expiresAt >= now
    ensures Possible(s, Checks(0, k, now) + (Updates(0, k) + Returns(0, k)))
    ensures Execute(s, Checks(0, k, now) + (Updates(0, k) + Returns(0, k))).granted == s.granted + k
  {
    RunChecks(s, 0, k, now);
    var s1 := Execute(s, Checks(0, k, now));
    assert s1.callers == Front(k, 0, Updated, Checked);
    var s2 := Happen(s1, DoUpdate(0));
    FrontStep(k, 0, Updated, Checked);
    RunUpdates(s2, 1, k);
    ExecuteOne(s1, DoUpdate(0), Updates(1, k));
    var s3 := Execute(s1, Updates(0, k));
    assert s3.callers == Front(k, 0, Idle, Updated);
    RunReturns(s3, 0, k);
    ExecuteConcat(s1, Updates(0, k), Returns(0, k));
    ExecuteConcat(s, Checks(0, k, now), Updates(0, k) + Returns(0, k));
  }

  /** The bound is exact: for every positive budget and number of callers some interleaving makes
      `budget + k - 1` calls succeed. With one unit and two callers, both succeed. */
  lemma BoundReached(budget: nat, expiresAt: int, k: nat)
    requires budget > 0 && k > 0
    ensures Possible(Start(budget, expiresAt, k), Overspending(budget, k, expiresAt))
    ensures Execute(Start(budget, expiresAt, k), Overspending(budget, k, expiresAt)).granted == budget + k - 1
  {
    var s := Start(budget, expiresAt, k);
    RunCalls(s, budget - 1, expiresAt);
    var s' := Execute(s, Calls(budget - 1, expiresAt));
    assert s'.callers == Front(k, 0, Checked, Idle);
    Stampede(s', k, expiresAt);
    ExecuteConcat(s, Calls(budget - 1, expiresAt), Checks(0, k, expiresAt) + (Updates(0, k) + Returns(0, k)));
  }

  /** Without budget nobody gets past the check. */
  lemma NothingGranted(expiresAt: int, k: nat, es: seq<Event>)
    requires Possible(Start(0, expiresAt, k), es)
    ensures Execute(Start(0, expiresAt, k), es).granted == 0
  {
    AlwaysNarrow(Start(0, expiresAt, k), es, k);
    CountNone(k, Checked);
    CountNone(k, Updated);
    RunAccounted(Start(0, expiresAt, k), es, k);
  }

  /** Concurrent burns cannot overspend exactly when there is nothing to spend or nobody to race. */
  lemma SafeExactly(budget: nat, expiresAt: int, k: nat)
    ensures (forall es | Possible(Start(budget, expiresAt, k), es) ::
               Execute(Start(budget, expiresAt, k), es).granted <= budget)
            <==> budget == 0 || k <= 1
  {
    var s := Start(budget, expiresAt, k);
    if budget == 0 {
      forall es | Possible(s, es) ensures Execute(s, es).granted <= budget {
        NothingGranted(expiresAt, k, es);
      }
    } else if k == 0 {
      forall es | Possible(s, es) ensures Execute(s, es).granted <= budget {
        assert es == [];
      }
    } else {
      forall es | Possible(s, es) ensures Execute(s, es).granted <= budget + k - 1 {
        CallersBound(budget, expiresAt, k, es);
      }
      BoundReached(budget, expiresAt, k);
    }
  }
}
