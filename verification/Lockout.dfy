/** Admin login with lockout after failures (api/services/auth_service.py). A bcrypt hash is taken as
    the password it was made from. */
module Lockout {
  import opened Options

  type Time = int

  const MAX_LOGIN_ATTEMPTS := 5
  /** Seconds: fifteen minutes. */
  const LOCKOUT := 900

  /** `failed` and `lockedUntil` are nullable columns. */
  datatype Account = Account(active: bool, password: string, failed: Option<nat>, lockedUntil: Option<Time>)

  datatype LoginOutcome = LoggedIn | NotActive | Locked | WrongPassword

  function Attempts(a: Account): nat {
    if a.failed.Some? then a.failed.value else 0
  }

  predicate IsLocked(a: Account, now: Time) {
    a.lockedUntil.Some? && a.lockedUntil.value > now
  }

  /** One login: the account afterwards and the outcome. The password is verified only in the last
      two outcomes. */
  function LoggedInto(a: Account, password: string, now: Time): (Account, LoginOutcome) {
    if !a.active then (a, NotActive)
    else if IsLocked(a, now) then (a, Locked)
    else if password == a.password then (a.(failed := Some(0), lockedUntil := None), LoggedIn)
    else
      var lock := if Attempts(a) + 1 >= MAX_LOGIN_ATTEMPTS then Some(now + LOCKOUT) else a.lockedUntil;
      (a.(failed := Some(Attempts(a) + 1), lockedUntil := lock), WrongPassword)
  }

  predicate Verified(outcome: LoginOutcome) {
    outcome == LoggedIn || outcome == WrongPassword
  }

  class AdminUser {
    var active: bool
    var password: string
    var failedAttempts: Option<nat>
    var lockedUntil: Option<Time>

    constructor (password: string)
      ensures Snapshot() == Account(true, password, Some(0), None)
    {
      this.active, this.password, this.failedAttempts, this.lockedUntil := true, password, Some(0), None;
    }

    function Snapshot(): Account
      reads this
    {
      Account(active, password, failedAttempts, lockedUntil)
    }

    method AdminLogin(attempt: string, now: Time) returns (outcome: LoginOutcome)
      modifies this
      ensures (Snapshot(), outcome) == LoggedInto(old(Snapshot()), attempt, now)
    {
      if !active {
        return NotActive;
      }
      if lockedUntil.Some? && lockedUntil.value > now {
        return Locked;
      }
      if attempt != password {
        var attempts := (if failedAttempts.Some? then failedAttempts.value else 0) + 1;
        failedAttempts := Some(attempts);
        if attempts >= MAX_LOGIN_ATTEMPTS {
          lockedUntil := Some(now + LOCKOUT);
        }
        return WrongPassword;
      }
      failedAttempts := Some(0);
      lockedUntil := None;
      return LoggedIn;
    }

    method DeactivateAdmin()
      modifies this
      ensures Snapshot() == old(Snapshot()).(active := false)
    {
      active := false;
    }

    method UnlockAdmin()
      modifies this
      ensures Snapshot() == old(Snapshot()).(active := true, failed := Some(0), lockedUntil := None)
    {
      failedAttempts := Some(0);
      lockedUntil := None;
      if !active {
        active := true;
      }
    }
  }

  // ---------------------------------------------------------------- runs of login attempts

  datatype Call = Login(password: string, now: Time) | Deactivate

  function After(a: Account, calls: seq<Call>): Account {
    if calls == [] then a
    else
      var before := After(a, calls[..|calls| - 1]);
      match calls[|calls| - 1]
      case Login(password, now) => LoggedInto(before, password, now).0
      case Deactivate => before.(active := false)
  }

  /** The outcome of the last call, a login. */
  function LastOutcome(a: Account, calls: seq<Call>): LoginOutcome
    requires calls != [] && calls[|calls| - 1].Login?
  {
    var last := calls[|calls| - 1];
    LoggedInto(After(a, calls[..|calls| - 1]), last.password, last.now).1
  }

  /** The times at which a password was verified. */
  function Verifications(a: Account, calls: seq<Call>): seq<Time> {
    if calls == [] then []
    else
      var earlier, last := Verifications(a, calls[..|calls| - 1]), calls[|calls| - 1];
      if last.Login? && Verified(LastOutcome(a, calls)) then earlier + [last.now] else earlier
  }

  /** The clock does not go back, and no login succeeds. */
  predicate Unsuccessful(a: Account, calls: seq<Call>) {
    && (forall i, j | 0 <= i < j < |calls| && calls[i].Login? && calls[j].Login? :: calls[i].now <= calls[j].now)
    && (forall n | 0 < n <= |calls| && calls[n - 1].Login? :: LastOutcome(a, calls[..n]) != LoggedIn)
  }

  predicate Fresh(a: Account) {
    Attempts(a) == 0 && a.lockedUntil.None?
  }

  /** Verifications come in time order, and from the fifth on at least a lockout apart. */
  predicate Spaced(v: seq<Time>) {
    && (forall i, j | 0 <= i < j < |v| :: v[i] <= v[j])
    && (forall i | MAX_LOGIN_ATTEMPTS - 1 <= i < |v| - 1 :: v[i + 1] - v[i] >= LOCKOUT)
  }

  lemma UnsuccessfulPrefix(a: Account, calls: seq<Call>)
    requires calls != [] && Unsuccessful(a, calls)
    ensures Unsuccessful(a, calls[..|calls| - 1])
    ensures calls[|calls| - 1].Login? ==> LastOutcome(a, calls) != LoggedIn
  {
    var front := calls[..|calls| - 1];
    assert calls[..|calls|] == calls;
    forall n | 0 < n <= |front| && front[n - 1].Login? ensures LastOutcome(a, front[..n]) != LoggedIn {
      assert front[..n] == calls[..n];
    }
  }

  /** The counter is the number of verifications, and from the fifth on the account is locked for
      fifteen minutes after the last of them. */
  predicate Counted(a: Account, v: seq<Time>) {
    && Attempts(a) == |v|
    && a.lockedUntil == if |v| >= MAX_LOGIN_ATTEMPTS then Some(v[|v| - 1] + LOCKOUT) else None
  }

  lemma LoginCounted(a: Account, v: seq<Time>, password: string, now: Time)
    requires Counted(a, v) && Spaced(v) && (v != [] ==> v[|v| - 1] <= now)
    requires LoggedInto(a, password, now).1 != LoggedIn
    ensures var (a', outcome) := LoggedInto(a, password, now);
      var v' := if Verified(outcome) then v + [now] else v;
      Counted(a', v') && Spaced(v')
  {
  }

  /** One more login after a spaced run. */
  lemma SpacedStep(a: Account, calls: seq<Call>)
    requires calls != [] && calls[|calls| - 1].Login? && LastOutcome(a, calls) != LoggedIn
    requires var front, now := calls[..|calls| - 1], calls[|calls| - 1].now;
      var v := Verifications(a, front);
      Counted(After(a, front), v) && Spaced(v) && (v != [] ==> v[|v| - 1] <= now)
    ensures var v := Verifications(a, calls);
      Spaced(v) && Counted(After(a, calls), v) && (v != [] ==> v[|v| - 1] <= calls[|calls| - 1].now)
  {
    var front, last := calls[..|calls| - 1], calls[|calls| - 1];
    LoginCounted(After(a, front), Verifications(a, front), last.password, last.now);
  }

  /** The counter is never reset by a lock running out. */
  lemma {:induction false} RunSpaced(a: Account, calls: seq<Call>, clock: Time)
    requires Fresh(a) && Unsuccessful(a, calls)
    requires forall i :: 0 <= i < |calls| && calls[i].Login? ==> calls[i].now <= clock
    ensures var v := Verifications(a, calls);
      Spaced(v) && Counted(After(a, calls), v) && (v != [] ==> v[|v| - 1] <= clock)
  {
    if calls != [] {
      UnsuccessfulPrefix(a, calls);
      var front, last := calls[..|calls| - 1], calls[|calls| - 1];
      RunSpaced(a, front, if last.Login? then last.now else clock);
      if last.Login? {
        SpacedStep(a, calls);
      }
    }
  }

  /** How many of the times lie in `[from, to]`. */
  function CountWithin(v: seq<Time>, from: Time, to: Time): nat {
    if v == [] then 0
    else CountWithin(v[..|v| - 1], from, to) + if from <= v[|v| - 1] <= to then 1 else 0
  }

  /** The times within an interval lie between two of them. */
  lemma {:induction false} WithinEnds(v: seq<Time>, from: Time, to: Time) returns (i: nat, j: nat)
    requires CountWithin(v, from, to) > 0
    ensures i <= j < |v| && from <= v[i] && v[j] <= to && CountWithin(v, from, to) <= j - i + 1
  {
    var front, last := v[..|v| - 1], |v| - 1;
    if CountWithin(front, from, to) == 0 {
      i, j := last, last;
    } else {
      i, j := WithinEnds(front, from, to);
      if from <= v[last] <= to {
        j := last;
      }
    }
  }

  lemma {:induction false} GapsAdd(v: seq<Time>, i: nat, j: nat)
    requires Spaced(v) && MAX_LOGIN_ATTEMPTS - 1 <= i <= j < |v|
    ensures v[j] - v[i] >= (j - i) * LOCKOUT
    decreases j
  {
    if i < j {
      GapsAdd(v, i, j - 1);
    }
  }

  /** A time no login comes after. */
  function Latest(calls: seq<Call>): (t: Time)
    ensures forall i :: 0 <= i < |calls| && calls[i].Login? ==> calls[i].now <= t
  {
    if calls == [] then 0
    else
      var rest, last := Latest(calls[..|calls| - 1]), calls[|calls| - 1];
      if last.Login? && last.now > rest then last.now else rest
  }

  /** Without a success or an unlock, any span of `length` seconds sees at most five verifications
      plus one for every full lockout period in it. */
  lemma LockoutBound(a: Account, calls: seq<Call>, from: Time, length: nat)
    requires Fresh(a) && Unsuccessful(a, calls)
    ensures CountWithin(Verifications(a, calls), from, from + length) <= 5 + length / 900
  {
    RunSpaced(a, calls, Latest(calls));
    var v := Verifications(a, calls);
    if CountWithin(v, from, from + length) > 0 {
      var i, j := WithinEnds(v, from, from + length);
      var i' := if i < MAX_LOGIN_ATTEMPTS - 1 then MAX_LOGIN_ATTEMPTS - 1 else i;
      if i' <= j {
        GapsAdd(v, i', j);
      }
    }
  }

  /** After any run without a success, the right password is let in exactly if there were fewer than
      five verifications or fifteen minutes have passed since the last one; so is a wrong one looked at.
      A success leaves the account as fresh as an unlock does. */
  lemma LockedOutExactly(a: Account, calls: seq<Call>, password: string, now: Time)
    requires Fresh(a) && Unsuccessful(a, calls) && After(a, calls).active
    ensures var before, v := After(a, calls), Verifications(a, calls);
      var (after, outcome) := LoggedInto(before, password, now);
      var open := |v| < 5 || now >= v[|v| - 1] + 900;
      && outcome == (if !open then Locked else if password == before.password then LoggedIn else WrongPassword)
      && (outcome == LoggedIn ==> Fresh(after) && after.active && after.password == before.password)
      && (outcome == WrongPassword ==> Attempts(after) == |v| + 1 && after.active && after.password == before.password)
      && (outcome == Locked ==> after == before)
  {
    RunSpaced(a, calls, Latest(calls));
  }

  /** An inactive account refuses every login and does not change. */
  lemma InactiveRefuses(a: Account, password: string, now: Time)
    requires !a.active
    ensures LoggedInto(a, password, now) == (a, NotActive)
  {
  }

  /** Wrong passwords: five at time zero, then one at the end of every lockout. */
  function Persistent(wrong: string, n: nat): seq<Call> {
    if n == 0 then seq(MAX_LOGIN_ATTEMPTS, _ => Login(wrong, 0))
    else Persistent(wrong, n - 1) + [Login(wrong, n * LOCKOUT)]
  }

  lemma UnsuccessfulAppend(a: Account, calls: seq<Call>, last: Call)
    requires Unsuccessful(a, calls) && last.Login?
    requires forall i :: 0 <= i < |calls| && calls[i].Login? ==> calls[i].now <= last.now
    requires LastOutcome(a, calls + [last]) != LoggedIn
    ensures Unsuccessful(a, calls + [last])
  {
    var all := calls + [last];
    forall n | 0 < n <= |all| && all[n - 1].Login? ensures LastOutcome(a, all[..n]) != LoggedIn {
      if n < |all| {
        assert all[..n] == calls[..n] && all[n - 1] == calls[n - 1];
      } else {
        assert all[..n] == all;
      }
    }
  }

  /** All `n` verifications of the calls lie in `[0, t]`, none of them a success. */
  predicate Barraged(a: Account, calls: seq<Call>, t: Time, n: nat) {
    var v := Verifications(a, calls);
    && After(a, calls).active && After(a, calls).password == a.password
    && Counted(After(a, calls), v) && |v| == n && CountWithin(v, 0, t) == n
    && Unsuccessful(a, calls) && (forall i | 0 <= i < |calls| && calls[i].Login? :: calls[i].now <= t)
  }

  lemma {:induction false} CountWiden(v: seq<Time>, to: Time, to': Time)
    requires to <= to'
    ensures CountWithin(v, 0, to) <= CountWithin(v, 0, to') <= |v|
  {
    if v != [] {
      CountWiden(v[..|v| - 1], to, to');
    }
  }

  /** A wrong password tried while the account is not locked. */
  lemma WrongAppend(a: Account, calls: seq<Call>, wrong: string, now: Time)
    requires var before := After(a, calls);
      before.active && before.password != wrong && !IsLocked(before, now) && Counted(before, Verifications(a, calls))
    ensures var all, before := calls + [Login(wrong, now)], After(a, calls);
      && LastOutcome(a, all) == WrongPassword
      && Verifications(a, all) == Verifications(a, calls) + [now]
      && After(a, all).active && After(a, all).password == before.password
      && Counted(After(a, all), Verifications(a, all))
  {
    assert (calls + [Login(wrong, now)])[..|calls|] == calls;
  }

  lemma Barrage(a: Account, calls: seq<Call>, t: Time, n: nat, wrong: string, t': Time)
    requires Barraged(a, calls, t, n) && 0 <= t' && t <= t' && wrong != a.password
    requires !IsLocked(After(a, calls), t')
    ensures Barraged(a, calls + [Login(wrong, t')], t', n + 1)
    ensures Verifications(a, calls + [Login(wrong, t')]) == Verifications(a, calls) + [t']
  {
    var all, v := calls + [Login(wrong, t')], Verifications(a, calls);
    WrongAppend(a, calls, wrong, t');
    CountWiden(v, t, t');
    assert CountWithin(v + [t'], 0, t') == CountWithin(v, 0, t') + 1 by {
      assert (v + [t'])[..|v|] == v;
    }
    UnsuccessfulAppend(a, calls, Login(wrong, t'));
  }

  lemma {:induction false} FirstFive(a: Account, wrong: string, k: nat)
    requires Fresh(a) && a.active && wrong != a.password && k <= MAX_LOGIN_ATTEMPTS
    ensures var calls := seq(k, _ => Login(wrong, 0));
      Barraged(a, calls, 0, k) && (k > 0 ==> Verifications(a, calls)[k - 1] == 0)
  {
    if k > 0 {
      FirstFive(a, wrong, k - 1);
      var front := seq(k - 1, _ => Login(wrong, 0));
      assert seq(k, _ => Login(wrong, 0)) == front + [Login(wrong, 0)];
      Barrage(a, front, 0, k - 1, wrong, 0);
    }
  }

  lemma {:induction false} PersistentBarrages(a: Account, wrong: string, n: nat)
    requires Fresh(a) && a.active && wrong != a.password
    ensures Barraged(a, Persistent(wrong, n), n * LOCKOUT, MAX_LOGIN_ATTEMPTS + n)
    ensures Verifications(a, Persistent(wrong, n))[MAX_LOGIN_ATTEMPTS + n - 1] == n * LOCKOUT
  {
    if n == 0 {
      FirstFive(a, wrong, MAX_LOGIN_ATTEMPTS);
    } else {
      PersistentBarrages(a, wrong, n - 1);
      Barrage(a, Persistent(wrong, n - 1), (n - 1) * LOCKOUT, MAX_LOGIN_ATTEMPTS + n - 1, wrong, n * LOCKOUT);
    }
  }

  /** The bound is reached, for spans of every number of lockouts. */
  lemma BoundReached(a: Account, wrong: string, n: nat)
    requires Fresh(a) && a.active && wrong != a.password
    ensures Unsuccessful(a, Persistent(wrong, n))
    ensures CountWithin(Verifications(a, Persistent(wrong, n)), 0, n * LOCKOUT) == MAX_LOGIN_ATTEMPTS + n
  {
    PersistentBarrages(a, wrong, n);
  }
}
