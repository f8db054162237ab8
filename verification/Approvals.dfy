/** Approval requests and their two ways of expiring: lazily in `approve`, and by sweeps
    (api/services/approval_service.py, api/tasks.py). */
module Approvals {
  import opened Options

  type RequestId = nat
  type AdminId = nat
  type Time = int

  datatype Status = Pending | Approved | Denied | Expired
  datatype Request = Request(
    status: Status, expiresAt: Time, approver: Option<AdminId>, note: Option<string>, resolvedAt: Option<Time>)

  datatype Outcome = Created(id: RequestId) | Done | NotFound | AlreadyResolved | PastExpiry | Swept(count: nat)

  /** `lifetime` is the configured approval expiry; `admins` are the ids with an admin row. */
  datatype Table = Table(requests: map<RequestId, Request>, nextId: nat, lifetime: int, admins: set<AdminId>)

  /** `SweepStamped` is `expire_pending`; `Sweep` is the scheduled task, which sets no resolution time. */
  datatype Call =
    | Create(now: Time)
    | Approve(id: RequestId, actor: Option<AdminId>, note: Option<string>, now: Time)
    | Deny(id: RequestId, actor: Option<AdminId>, note: Option<string>, now: Time)
    | Sweep(now: Time)
    | SweepStamped(now: Time)

  function Resolver(admins: set<AdminId>, actor: Option<AdminId>): Option<AdminId> {
    if actor.Some? && actor.value in admins then actor else None
  }

  function Overdue(requests: map<RequestId, Request>, now: Time): set<RequestId> {
    set id | id in requests && requests[id].status == Pending && requests[id].expiresAt < now
  }

  function Expire(requests: map<RequestId, Request>, now: Time, stamp: Option<Time>): map<RequestId, Request> {
    map id | id in requests ::
      if id in Overdue(requests, now)
      then requests[id].(status := Expired, resolvedAt := if stamp.Some? then stamp else requests[id].resolvedAt)
      else requests[id]
  }

  function Resolve(t: Table, r: Request, status: Status, actor: Option<AdminId>, note: Option<string>, now: Time)
    : Request
  {
    r.(status := status, approver := Resolver(t.admins, actor), note := note, resolvedAt := Some(now))
  }

  function Apply(t: Table, c: Call): (Table, Outcome) {
    match c
    case Create(now) =>
      var r := Request(Pending, now + t.lifetime, None, None, None);
      (t.(requests := t.requests[t.nextId := r], nextId := t.nextId + 1), Created(t.nextId))
    case Approve(id, actor, note, now) =>
      if id !in t.requests then (t, NotFound)
      else
        var r := t.requests[id];
        if r.status != Pending then (t, AlreadyResolved)
        else if r.expiresAt < now then (t.(requests := t.requests[id := r.(status := Expired)]), PastExpiry)
        else (t.(requests := t.requests[id := Resolve(t, r, Approved, actor, note, now)]), Done)
    case Deny(id, actor, note, now) =>
      if id !in t.requests then (t, NotFound)
      else
        var r := t.requests[id];
        if r.status != Pending then (t, AlreadyResolved)
        else (t.(requests := t.requests[id := Resolve(t, r, Denied, actor, note, now)]), Done)
    case Sweep(now) => (t.(requests := Expire(t.requests, now, None)), Swept(|Overdue(t.requests, now)|))
    case SweepStamped(now) => (t.(requests := Expire(t.requests, now, Some(now))), Swept(|Overdue(t.requests, now)|))
  }

  class ApprovalService {
    var requests: map<RequestId, Request>
    var nextId: nat
    const lifetime: int
    const admins: set<AdminId>

    constructor (lifetime: int, admins: set<AdminId>)
      ensures Snapshot() == Table(map[], 0, lifetime, admins)
    {
      this.requests, this.nextId, this.lifetime, this.admins := map[], 0, lifetime, admins;
    }

    function Snapshot(): Table
      reads this
    {
      Table(requests, nextId, lifetime, admins)
    }

    method CreateRequest(now: Time) returns (id: RequestId)
      modifies this
      ensures (Snapshot(), Created(id)) == Apply(old(Snapshot()), Create(now))
    {
      id := nextId;
      requests := requests[id := Request(Pending, now + lifetime, None, None, None)];
      nextId := nextId + 1;
    }

    method ApproveRequest(id: RequestId, actor: Option<AdminId>, note: Option<string>, now: Time)
      returns (outcome: Outcome)
      modifies this
      ensures (Snapshot(), outcome) == Apply(old(Snapshot()), Approve(id, actor, note, now))
    {
      if id !in requests {
        return NotFound;
      }
      var r := requests[id];
      if r.status != Pending {
        return AlreadyResolved;
      }
      if r.expiresAt < now {
        requests := requests[id := r.(status := Expired)];
        return PastExpiry;
      }
      r := r.(status := Approved);
      r := r.(approver := Resolver(admins, actor));
      r := r.(note := note, resolvedAt := Some(now));
      requests := requests[id := r];
      return Done;
    }

    method DenyRequest(id: RequestId, actor: Option<AdminId>, note: Option<string>, now: Time)
      returns (outcome: Outcome)
      modifies this
      ensures (Snapshot(), outcome) == Apply(old(Snapshot()), Deny(id, actor, note, now))
    {
      if id !in requests {
        return NotFound;
      }
      var r := requests[id];
      if r.status != Pending {
        return AlreadyResolved;
      }
      r := r.(status := Denied);
      r := r.(approver := Resolver(admins, actor));
      r := r.(note := note, resolvedAt := Some(now));
      requests := requests[id := r];
      return Done;
    }

    /** One bulk UPDATE. */
    method ExpirePending(now: Time) returns (count: nat)
      modifies this
      ensures (Snapshot(), Swept(count)) == Apply(old(Snapshot()), SweepStamped(now))
    {
      count := |Overdue(requests, now)|;
      requests := map id | id in requests ::
        if requests[id].status == Pending && requests[id].expiresAt < now
        then requests[id].(status := Expired, resolvedAt := Some(now)) else requests[id];
      assert requests == Expire(old(requests), now, Some(now));
    }
  }

  // ---------------------------------------------------------------- runs

  function Run(t: Table, calls: seq<Call>): Table
    decreases |calls|
  {
    if calls == [] then t else Run(Apply(t, calls[0]).0, calls[1..])
  }

  predicate IsSweep(c: Call) {
    c.Sweep? || c.SweepStamped?
  }

  /** The run with its sweeps taken out. */
  function Unswept(calls: seq<Call>): seq<Call> {
    if calls == [] then []
    else if IsSweep(calls[0]) then Unswept(calls[1..])
    else [calls[0]] + Unswept(calls[1..])
  }

  /** The clock does not go back, and starts no earlier than `clock`. */
  predicate Timed(calls: seq<Call>, clock: Time)
    decreases |calls|
  {
    calls == [] || (clock <= calls[0].now && Timed(calls[1..], calls[0].now))
  }

  /** The same request in the unswept and the swept run: equal, or expired by a sweep after its
      deadline while the unswept one is still pending or ended without approval. */
  predicate RowRelated(u: Request, w: Request, clock: Time) {
    || u == w
    || (&& w.status == Expired && u.expiresAt == w.expiresAt < clock
        && (u.status == Pending || u.status == Expired
            || (u.status == Denied && u.resolvedAt.Some? && u.resolvedAt.value > u.expiresAt)))
  }

  predicate Related(u: Table, w: Table, clock: Time) {
    && u.nextId == w.nextId && u.lifetime == w.lifetime && u.admins == w.admins
    && u.requests.Keys == w.requests.Keys
    && forall id | id in u.requests :: RowRelated(u.requests[id], w.requests[id], clock)
  }

  lemma SweepRelated(u: Table, w: Table, c: Call)
    requires Related(u, w, c.now) && IsSweep(c)
    ensures Related(u, Apply(w, c).0, c.now)
  {
  }

  /** A call has the same success in both runs, and leaves them related. */
  lemma CallRelated(u: Table, w: Table, c: Call)
    requires Related(u, w, c.now) && !IsSweep(c)
    ensures Related(Apply(u, c).0, Apply(w, c).0, c.now)
    ensures c.Approve? ==> (Apply(u, c).1 == Done <==> Apply(w, c).1 == Done)
  {
  }

  lemma LaterRelated(u: Table, w: Table, clock: Time, later: Time)
    requires Related(u, w, clock) && clock <= later
    ensures Related(u, w, later)
  {
  }

  lemma {:induction false} RunsRelated(u: Table, w: Table, calls: seq<Call>, clock: Time) returns (final: Time)
    requires Related(u, w, clock) && Timed(calls, clock)
    ensures Related(Run(u, Unswept(calls)), Run(w, calls), final)
    decreases |calls|
  {
    if calls == [] {
      final := clock;
    } else {
      var c := calls[0];
      LaterRelated(u, w, clock, c.now);
      if IsSweep(c) {
        SweepRelated(u, w, c);
        final := RunsRelated(u, Apply(w, c).0, calls[1..], c.now);
      } else {
        CallRelated(u, w, c);
        assert Unswept(calls)[1..] == Unswept(calls[1..]);
        final := RunsRelated(Apply(u, c).0, Apply(w, c).0, calls[1..], c.now);
      }
    }
  }

  /** Sweeps anywhere in a run change neither which requests end approved, nor by whom, nor when. */
  lemma SweepsDoNotDecide(t: Table, calls: seq<Call>, clock: Time, id: RequestId)
    requires Timed(calls, clock)
    ensures var u, w := Run(t, Unswept(calls)).requests, Run(t, calls).requests;
      && (id in u <==> id in w)
      && (id in u ==> (u[id].status == Approved <==> w[id].status == Approved))
      && (id in u && u[id].status == Approved ==> u[id] == w[id])
  {
    var final := RunsRelated(t, t, calls, clock);
  }

  /** A request that has left `pending` never changes again. */
  lemma {:induction false} Settled(t: Table, calls: seq<Call>, id: RequestId)
    requires id in t.requests && id < t.nextId && t.requests[id].status != Pending
    ensures id in Run(t, calls).requests && Run(t, calls).requests[id] == t.requests[id]
    decreases |calls|
  {
    if calls != [] {
      Settled(Apply(t, calls[0]).0, calls[1..], id);
    }
  }

  predicate RowInTime(r: Request, admins: set<AdminId>) {
    && (r.status == Approved ==> r.resolvedAt.Some? && r.resolvedAt.value <= r.expiresAt)
    && (r.approver.Some? ==> r.approver.value in admins)
    && (r.status == Pending ==> r.resolvedAt.None?)
  }

  /** Nothing is approved after its deadline, and an approver on record is an existing admin. */
  predicate InTime(t: Table) {
    forall id | id in t.requests :: RowInTime(t.requests[id], t.admins)
  }

  lemma StepInTime(t: Table, c: Call)
    requires InTime(t)
    ensures InTime(Apply(t, c).0)
  {
    var t' := Apply(t, c).0;
    assert t'.admins == t.admins;
    forall id | id in t'.requests ensures RowInTime(t'.requests[id], t.admins) {
      assert id in t.requests ==> RowInTime(t.requests[id], t.admins);
    }
  }

  lemma {:induction false} ApprovedInTime(t: Table, calls: seq<Call>)
    requires InTime(t)
    ensures InTime(Run(t, calls))
    decreases |calls|
  {
    if calls != [] {
      StepInTime(t, calls[0]);
      ApprovedInTime(Apply(t, calls[0]).0, calls[1..]);
    }
  }

  // ---------------------------------------------------------------- what each call stores

  /** The acting admin, if there is an admin row for the id. */
  function Known(admins: set<AdminId>, actor: Option<AdminId>): Option<AdminId> {
    match actor
    case Some(id) => if id in admins then Some(id) else None
    case None => None
  }

  lemma CreateStores(t: Table, now: Time)
    ensures Apply(t, Create(now)) ==
      (t.(requests := t.requests[t.nextId := Request(Pending, now + t.lifetime, None, None, None)],
          nextId := t.nextId + 1), Created(t.nextId))
  {
  }

  /** A pending request approved by its deadline is stored as approved, with actor, note and time; after
      the deadline it is stored as expired and nothing else; any other request stays as it is. */
  lemma ApproveStores(t: Table, id: RequestId, actor: Option<AdminId>, note: Option<string>, now: Time)
    ensures var (t', outcome) := Apply(t, Approve(id, actor, note, now));
      if id !in t.requests then t' == t && outcome == NotFound
      else
        var r := t.requests[id];
        if r.status != Pending then t' == t && outcome == AlreadyResolved
        else if now <= r.expiresAt then
          && outcome == Done
          && t' == t.(requests := t.requests[id :=
               Request(Approved, r.expiresAt, Known(t.admins, actor), note, Some(now))])
        else
          && outcome == PastExpiry
          && t' == t.(requests := t.requests[id :=
               Request(Expired, r.expiresAt, r.approver, r.note, r.resolvedAt)])
  {
  }

  /** A pending request is denied whatever its deadline. */
  lemma DenyStores(t: Table, id: RequestId, actor: Option<AdminId>, note: Option<string>, now: Time)
    ensures var (t', outcome) := Apply(t, Deny(id, actor, note, now));
      if id !in t.requests then t' == t && outcome == NotFound
      else
        var r := t.requests[id];
        if r.status != Pending then t' == t && outcome == AlreadyResolved
        else
          && outcome == Done
          && t' == t.(requests := t.requests[id :=
               Request(Denied, r.expiresAt, Known(t.admins, actor), note, Some(now))])
  {
  }

  /** Either sweep expires exactly the pending requests past their deadline and returns their number;
      only `expire_pending` sets a time. */
  lemma SweepStores(t: Table, now: Time, id: RequestId)
    requires id in t.requests
    ensures var r := t.requests[id];
      var swept, stamped := Apply(t, Sweep(now)).0.requests, Apply(t, SweepStamped(now)).0.requests;
      && swept.Keys == stamped.Keys == t.requests.Keys
      && Apply(t, Sweep(now)).1 == Apply(t, SweepStamped(now)).1
           == Swept(|set other | other in t.requests && t.requests[other].status == Pending
                                 && t.requests[other].expiresAt < now|)
      && (if r.status == Pending && r.expiresAt < now
          then swept[id] == r.(status := Expired) && stamped[id] == r.(status := Expired, resolvedAt := Some(now))
          else swept[id] == stamped[id] == r)
  {
    var late := set other | other in t.requests && t.requests[other].status == Pending
                            && t.requests[other].expiresAt < now;
    assert Overdue(t.requests, now) == late;
  }

  // ---------------------------------------------------------------- who ends approved

  /** Call `k` of the run approves the request while it is pending and not past its deadline. */
  predicate InTimeApproval(t: Table, calls: seq<Call>, k: nat, id: RequestId)
    requires k < |calls|
  {
    && calls[k].Approve? && calls[k].id == id
    && var before := Run(t, calls[..k]).requests;
       id in before && before[id].status == Pending && calls[k].now <= before[id].expiresAt
  }

  predicate Numbered(t: Table) {
    forall id | id in t.requests :: id < t.nextId
  }

  lemma ShiftApproval(t: Table, calls: seq<Call>, k: nat, id: RequestId)
    requires k + 1 < |calls|
    ensures InTimeApproval(t, calls, k + 1, id) <==> InTimeApproval(Apply(t, calls[0]).0, calls[1..], k, id)
  {
    assert calls[..k + 1][1..] == calls[1..][..k];
  }

  lemma FirstApproval(t: Table, calls: seq<Call>, id: RequestId)
    requires calls != [] && (id in t.requests ==> t.requests[id].status != Approved)
    ensures var after := Apply(t, calls[0]).0.requests;
      (id in after && after[id].status == Approved) <==> InTimeApproval(t, calls, 0, id)
  {
    assert calls[..0] == [];
  }

  lemma NumberedStep(t: Table, c: Call)
    requires Numbered(t)
    ensures Numbered(Apply(t, c).0)
  {
  }

  ghost predicate EverApproved(t: Table, calls: seq<Call>, id: RequestId) {
    exists k :: 0 <= k < |calls| && InTimeApproval(t, calls, k, id)
  }

  lemma EverShift(t: Table, calls: seq<Call>, id: RequestId)
    requires calls != []
    ensures EverApproved(t, calls, id) <==>
      InTimeApproval(t, calls, 0, id) || EverApproved(Apply(t, calls[0]).0, calls[1..], id)
  {
    var t' := Apply(t, calls[0]).0;
    if k :| 0 <= k < |calls| - 1 && InTimeApproval(t', calls[1..], k, id) {
      ShiftApproval(t, calls, k, id);
      assert InTimeApproval(t, calls, k + 1, id);
    }
    if k :| 0 < k < |calls| && InTimeApproval(t, calls, k, id) {
      ShiftApproval(t, calls, k - 1, id);
      assert InTimeApproval(t', calls[1..], k - 1, id);
    }
  }

  /** Over any run, a request ends approved exactly if some approval reached it in time while it was
      pending. */
  lemma {:induction false} ApprovedExactly(t: Table, calls: seq<Call>, id: RequestId)
    requires Numbered(t) && (id in t.requests ==> t.requests[id].status != Approved)
    ensures var after := Run(t, calls).requests;
      (id in after && after[id].status == Approved) <==> EverApproved(t, calls, id)
    decreases |calls|
  {
    if calls != [] {
      var t' := Apply(t, calls[0]).0;
      FirstApproval(t, calls, id);
      EverShift(t, calls, id);
      NumberedStep(t, calls[0]);
      if InTimeApproval(t, calls, 0, id) {
        Settled(t', calls[1..], id);
      } else {
        ApprovedExactly(t', calls[1..], id);
      }
    }
  }

  lemma {:induction false} RunSplit(t: Table, calls: seq<Call>, k: nat)
    requires k <= |calls|
    ensures Run(t, calls) == Run(Run(t, calls[..k]), calls[k..])
    decreases k
  {
    if k == 0 {
      assert calls[..0] == [] && calls[0..] == calls;
    } else {
      RunSplit(Apply(t, calls[0]).0, calls[1..], k - 1);
      assert calls[..k][1..] == calls[1..][..k - 1] && calls[k..] == calls[1..][k - 1..];
    }
  }

  lemma {:induction false} NumberedRun(t: Table, calls: seq<Call>)
    requires Numbered(t)
    ensures Numbered(Run(t, calls))
    decreases |calls|
  {
    if calls != [] {
      NumberedStep(t, calls[0]);
      NumberedRun(Apply(t, calls[0]).0, calls[1..]);
    }
  }

  /** And then it keeps, to the end of the run, the actor, note and time of that approval. */
  lemma ApprovalKept(t: Table, calls: seq<Call>, k: nat, id: RequestId)
    requires Numbered(t) && k < |calls| && InTimeApproval(t, calls, k, id)
    ensures var c, before, after := calls[k], Run(t, calls[..k]), Run(t, calls).requests;
      id in after && after[id] ==
        Request(Approved, before.requests[id].expiresAt, Known(before.admins, c.actor), c.note, Some(c.now))
  {
    var c, before := calls[k], Run(t, calls[..k]);
    RunSplit(t, calls, k);
    assert calls[k..][0] == c;
    NumberedRun(t, calls[..k]);
    NumberedStep(before, c);
    ApproveStores(before, id, c.actor, c.note, c.now);
    Settled(Apply(before, c).0, calls[k..][1..], id);
  }
}
