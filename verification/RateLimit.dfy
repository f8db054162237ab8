/** The in-memory sliding-window limiter behind both rate-limit middlewares
    (api/middleware/rate_limit.py, api/middleware/ip_rate_limit.py), and the limiter it stands for:
    one that never forgets an admission. */
module RateLimit {
  import opened Options

  type Key = string

  datatype Config = Config(maxRequests: int, window: real)
  datatype Request = Request(key: Key, now: real)
  datatype State = State(rates: map<Key, seq<real>>, lastCleanup: real)

  const INITIAL := State(map[], 0.0)
  const CLEANUP_INTERVAL := 300.0
  const UNAUTHENTICATED_LIMIT := 20

  /** The timestamps still inside the window. */
  function Live(ts: seq<real>, now: real, window: real): seq<real> {
    if ts == [] then []
    else (if now - ts[0] < window then [ts[0]] else []) + Live(ts[1..], now, window)
  }

  function Latest(ts: seq<real>): real
    requires ts != []
  {
    if |ts| == 1 then ts[0]
    else
      var rest := Latest(ts[1..]);
      if ts[0] > rest then ts[0] else rest
  }

  predicate Stale(ts: seq<real>, now: real, window: real) {
    ts == [] || now - Latest(ts) > window
  }

  function Stored(rates: map<Key, seq<real>>, key: Key): seq<real> {
    if key in rates then rates[key] else []
  }

  function Swept(rates: map<Key, seq<real>>, now: real, window: real): map<Key, seq<real>> {
    map k | k in rates && !Stale(rates[k], now, window) :: rates[k]
  }

  /** One request: the new state and whether it is admitted. */
  function Dispatched(c: Config, s: State, r: Request): (State, bool) {
    var cleanup := r.now - s.lastCleanup > CLEANUP_INTERVAL;
    var rates := if cleanup then Swept(s.rates, r.now, c.window) else s.rates;
    var last := if cleanup then r.now else s.lastCleanup;
    var live := Live(Stored(rates, r.key), r.now, c.window);
    if |live| >= c.maxRequests then (State(rates, last), false)
    else (State(rates[r.key := live + [r.now]], last), true)
  }

  class Limiter {
    const config: Config
    var rates: map<Key, seq<real>>
    var lastCleanup: real

    /** `max_requests or default`: zero counts as not given. */
    constructor ForAgents(maxRequests: Option<int>, defaultLimit: int, window: real)
      ensures Snapshot() == INITIAL && config.window == window
      ensures config.maxRequests ==
        if maxRequests.Some? && maxRequests.value != 0 then maxRequests.value else defaultLimit
    {
      config := Config(if maxRequests.Some? && maxRequests.value != 0 then maxRequests.value else defaultLimit, window);
      rates, lastCleanup := map[], 0.0;
    }

    constructor ForAddresses(maxRequests: Option<int>, defaultLimit: int, window: real)
      ensures Snapshot() == INITIAL && config.window == window
      ensures maxRequests.Some? && maxRequests.value != 0 ==> config.maxRequests == maxRequests.value
      ensures maxRequests.None? || maxRequests.value == 0 ==>
        config.maxRequests <= defaultLimit && config.maxRequests <= 20
        && (config.maxRequests == defaultLimit || config.maxRequests == 20)
    {
      var limit := if defaultLimit < UNAUTHENTICATED_LIMIT then defaultLimit else UNAUTHENTICATED_LIMIT;
      config := Config(if maxRequests.Some? && maxRequests.value != 0 then maxRequests.value else limit, window);
      rates, lastCleanup := map[], 0.0;
    }

    function Snapshot(): State
      reads this
    {
      State(rates, lastCleanup)
    }

    method Dispatch(key: Key, now: real) returns (admitted: bool)
      modifies this
      ensures (Snapshot(), admitted) == Dispatched(config, old(Snapshot()), Request(key, now))
    {
      if now - lastCleanup > CLEANUP_INTERVAL {
        var stale := set k | k in rates && Stale(rates[k], now, config.window);
        var todo := stale;
        while todo != {}
          invariant todo <= stale
          invariant rates == old(rates) - (stale - todo)
          invariant lastCleanup == old(lastCleanup)
          decreases |todo|
        {
          var k :| k in todo;
          rates := rates - {k};
          todo := todo - {k};
        }
        assert stale - todo == stale;
        assert rates == Swept(old(rates), now, config.window);
        lastCleanup := now;
      }
      var timestamps := Live(if key in rates then rates[key] else [], now, config.window);
      if |timestamps| >= config.maxRequests {
        return false;
      }
      timestamps := timestamps + [now];
      rates := rates[key := timestamps];
      return true;
    }
  }

  // ---------------------------------------------------------------- runs

  /** The limiter's state after some requests, its answer to the last of them, and the times at
      which it admitted a key. */
  function After(c: Config, rs: seq<Request>): State {
    if rs == [] then INITIAL else Dispatched(c, After(c, rs[..|rs| - 1]), rs[|rs| - 1]).0
  }

  predicate Admits(c: Config, rs: seq<Request>)
    requires rs != []
  {
    Dispatched(c, After(c, rs[..|rs| - 1]), rs[|rs| - 1]).1
  }

  function Admissions(c: Config, rs: seq<Request>, key: Key): seq<real> {
    if rs == [] then []
    else
      var earlier, last := Admissions(c, rs[..|rs| - 1], key), rs[|rs| - 1];
      if last.key == key && Admits(c, rs) then earlier + [last.now] else earlier
  }

  /** The limiter that keeps everything: a key is admitted while fewer than `maxRequests` of its own
      earlier admissions lie in the window. */
  function Remembered(c: Config, rs: seq<Request>, key: Key): seq<real> {
    if rs == [] then []
    else
      var earlier, last := Remembered(c, rs[..|rs| - 1], key), rs[|rs| - 1];
      if last.key == key && |Live(earlier, last.now, c.window)| < c.maxRequests then earlier + [last.now] else earlier
  }

  predicate Monotone(rs: seq<Request>) {
    forall i, j | 0 <= i < j < |rs| :: rs[i].now <= rs[j].now
  }

  lemma {:induction false} LiveConcat(a: seq<real>, b: seq<real>, now: real, window: real)
    ensures Live(a + b, now, window) == Live(a, now, window) + Live(b, now, window)
  {
    if a == [] {
      assert a + b == b;
    } else {
      assert (a + b)[1..] == a[1..] + b;
      LiveConcat(a[1..], b, now, window);
    }
  }

  /** What has left the window never comes back. */
  lemma {:induction false} LiveAgain(ts: seq<real>, now: real, later: real, window: real)
    requires now <= later
    ensures Live(Live(ts, now, window), later, window) == Live(ts, later, window)
  {
    if ts != [] {
      LiveAgain(ts[1..], now, later, window);
      LiveConcat(if now - ts[0] < window then [ts[0]] else [], Live(ts[1..], now, window), later, window);
    }
  }

  lemma {:induction false} StaleIsDead(ts: seq<real>, now: real, later: real, window: real)
    requires Stale(ts, now, window) && now <= later
    ensures Live(ts, later, window) == []
  {
    if ts != [] {
      if |ts| > 1 {
        StaleIsDead(ts[1..], now, later, window);
      }
    }
  }

  lemma SweepUnseen(rates: map<Key, seq<real>>, key: Key, now: real, later: real, window: real)
    requires now <= later
    ensures Live(Stored(Swept(rates, now, window), key), later, window) == Live(Stored(rates, key), later, window)
  {
    if key in rates && Stale(rates[key], now, window) {
      StaleIsDead(rates[key], now, later, window);
    }
  }

  /** From `clock` on, the stored lists and the full record have the same live part. */
  ghost predicate Agree(c: Config, rs: seq<Request>, clock: real) {
    forall key, t :: t >= clock ==>
      Live(Stored(After(c, rs).rates, key), t, c.window) == Live(Remembered(c, rs, key), t, c.window)
  }

  lemma StepAgrees(c: Config, rs: seq<Request>, key: Key, t: real)
    requires rs != [] && Agree(c, rs[..|rs| - 1], rs[|rs| - 1].now) && rs[|rs| - 1].now <= t
    ensures Live(Stored(After(c, rs).rates, key), t, c.window) == Live(Remembered(c, rs, key), t, c.window)
    ensures Admits(c, rs) <==>
      |Live(Remembered(c, rs[..|rs| - 1], rs[|rs| - 1].key), rs[|rs| - 1].now, c.window)| < c.maxRequests
  {
    var front, r := rs[..|rs| - 1], rs[|rs| - 1];
    var s := After(c, front);
    var rates := if r.now - s.lastCleanup > CLEANUP_INTERVAL then Swept(s.rates, r.now, c.window) else s.rates;
    SweepUnseen(s.rates, r.key, r.now, r.now, c.window);
    SweepUnseen(s.rates, key, r.now, t, c.window);
    var live := Live(Stored(rates, r.key), r.now, c.window);
    assert live == Live(Remembered(c, front, r.key), r.now, c.window);
    assert Live(Stored(s.rates, key), t, c.window) == Live(Remembered(c, front, key), t, c.window);
    if Admits(c, rs) && key == r.key {
      LiveConcat(live, [r.now], t, c.window);
      LiveConcat(Remembered(c, front, key), [r.now], t, c.window);
      LiveAgain(Remembered(c, front, key), r.now, t, c.window);
      assert Stored(After(c, rs).rates, key) == live + [r.now];
    } else {
      assert Stored(After(c, rs).rates, key) == Stored(rates, key);
    }
  }

  lemma {:induction false} RunAgrees(c: Config, rs: seq<Request>, clock: real)
    requires Monotone(rs) && (rs != [] ==> rs[|rs| - 1].now <= clock)
    ensures Agree(c, rs, clock)
  {
    if rs != [] {
      var front, r := rs[..|rs| - 1], rs[|rs| - 1];
      RunAgrees(c, front, r.now);
      forall key, t | t >= clock
        ensures Live(Stored(After(c, rs).rates, key), t, c.window) == Live(Remembered(c, rs, key), t, c.window)
      {
        StepAgrees(c, rs, key, t);
      }
    }
  }

  /** With a clock that does not go back, dropping old timestamps and stale keys is never observable:
      every answer is the one the limiter that keeps everything would give. */
  lemma ForgettingUnobservable(c: Config, rs: seq<Request>)
    requires rs != [] && Monotone(rs)
    ensures var r := rs[|rs| - 1];
      Admits(c, rs) <==> |Live(Remembered(c, rs[..|rs| - 1], r.key), r.now, c.window)| < c.maxRequests
  {
    RunAgrees(c, rs[..|rs| - 1], rs[|rs| - 1].now);
    StepAgrees(c, rs, "", rs[|rs| - 1].now);
  }

  lemma {:induction false} AdmissionsRemembered(c: Config, rs: seq<Request>, key: Key)
    requires Monotone(rs)
    ensures Admissions(c, rs, key) == Remembered(c, rs, key)
  {
    if rs != [] {
      AdmissionsRemembered(c, rs[..|rs| - 1], key);
      ForgettingUnobservable(c, rs);
    }
  }

  // ---------------------------------------------------------------- the window bound

  /** How many of the times lie in `[from, to)`. */
  function CountIn(ts: seq<real>, from: real, to: real): nat {
    if ts == [] then 0
    else CountIn(ts[..|ts| - 1], from, to) + if from <= ts[|ts| - 1] < to then 1 else 0
  }

  lemma {:induction false} InWindowIsLive(ts: seq<real>, from: real, now: real, window: real)
    requires from <= now < from + window
    ensures CountIn(ts, from, from + window) <= |Live(ts, now, window)|
  {
    if ts != [] {
      var front, last := ts[..|ts| - 1], ts[|ts| - 1];
      InWindowIsLive(front, from, now, window);
      assert ts == front + [last];
      LiveConcat(front, [last], now, window);
    }
  }

  function Quota(c: Config): nat {
    if c.maxRequests > 0 then c.maxRequests else 0
  }

  lemma {:induction false} RememberedBound(c: Config, rs: seq<Request>, key: Key, from: real)
    ensures CountIn(Remembered(c, rs, key), from, from + c.window) <= Quota(c)
  {
    if rs != [] {
      var front, r := rs[..|rs| - 1], rs[|rs| - 1];
      var earlier := Remembered(c, front, key);
      RememberedBound(c, front, key, from);
      if r.key == key && |Live(earlier, r.now, c.window)| < c.maxRequests {
        assert (earlier + [r.now])[..|earlier|] == earlier;
        if from <= r.now < from + c.window {
          InWindowIsLive(earlier, from, r.now, c.window);
        }
      }
    }
  }

  /** Any interval of one window's length holds at most the permitted number of admissions of a key. */
  lemma WindowBound(c: Config, rs: seq<Request>, key: Key, from: real)
    requires Monotone(rs)
    ensures CountIn(Admissions(c, rs, key), from, from + c.window) <= Quota(c)
  {
    AdmissionsRemembered(c, rs, key);
    RememberedBound(c, rs, key, from);
  }

  /** No stored list is longer than the quota. */
  lemma {:induction false} StoredBound(c: Config, rs: seq<Request>, key: Key)
    ensures |Stored(After(c, rs).rates, key)| <= Quota(c)
  {
    if rs != [] {
      StoredBound(c, rs[..|rs| - 1], key);
    }
  }

  lemma {:induction false} LiveShorter(ts: seq<real>, now: real, window: real)
    ensures |Live(ts, now, window)| <= |ts|
  {
    if ts != [] {
      LiveShorter(ts[1..], now, window);
    }
  }

  /** How many of the times are less than a window old. */
  function Younger(ts: seq<real>, now: real, window: real): nat {
    if ts == [] then 0
    else Younger(ts[..|ts| - 1], now, window) + if ts[|ts| - 1] > now - window then 1 else 0
  }

  lemma {:induction false} LiveAreYounger(ts: seq<real>, now: real, window: real)
    ensures |Live(ts, now, window)| == Younger(ts, now, window)
  {
    if ts != [] {
      var front, last := ts[..|ts| - 1], ts[|ts| - 1];
      LiveAreYounger(front, now, window);
      assert ts == front + [last];
      LiveConcat(front, [last], now, window);
      LiveOne(last, now, window);
    }
  }

  lemma LiveOne(ts: real, now: real, window: real)
    ensures Live([ts], now, window) == if now - ts < window then [ts] else []
  {
  }

  /** A request is refused exactly when the full quota of its key's admissions is less than a window
      old. */
  lemma RefusedOnlyWhenFull(c: Config, rs: seq<Request>)
    requires rs != [] && Monotone(rs)
    ensures var r := rs[|rs| - 1];
      !Admits(c, rs) <==> Younger(Admissions(c, rs[..|rs| - 1], r.key), r.now, c.window) == Quota(c)
  {
    var front, r := rs[..|rs| - 1], rs[|rs| - 1];
    ForgettingUnobservable(c, rs);
    AdmissionsRemembered(c, front, r.key);
    RunAgrees(c, front, r.now);
    StoredBound(c, front, r.key);
    LiveShorter(Stored(After(c, front).rates, r.key), r.now, c.window);
    LiveAreYounger(Admissions(c, front, r.key), r.now, c.window);
  }

  lemma {:induction false} LatestIs(ts: seq<real>)
    requires ts != []
    ensures Latest(ts) in ts && forall t :: t in ts ==> t <= Latest(ts)
  {
    if |ts| > 1 {
      LatestIs(ts[1..]);
      assert ts == [ts[0]] + ts[1..];
    }
  }

  /** More than 300 seconds after the last sweep a request first drops every key with no time within a
      window of now; otherwise nothing but its own key can change. */
  lemma SweepsEvery300(c: Config, s: State, r: Request, key: Key)
    requires key != r.key
    ensures var s' := Dispatched(c, s, r).0;
      if r.now - s.lastCleanup > 300.0
      then
        && s'.lastCleanup == r.now
        && (key in s'.rates <==> key in s.rates && exists t :: t in s.rates[key] && r.now - t <= c.window)
        && (key in s'.rates ==> s'.rates[key] == s.rates[key])
      else s'.lastCleanup == s.lastCleanup && Stored(s'.rates, key) == Stored(s.rates, key)
  {
    if key in s.rates && s.rates[key] != [] {
      LatestIs(s.rates[key]);
    }
  }

  // ---------------------------------------------------------------- one key at a time

  function Only(rs: seq<Request>, key: Key): seq<Request> {
    if rs == [] then []
    else if rs[|rs| - 1].key == key then Only(rs[..|rs| - 1], key) + [rs[|rs| - 1]]
    else Only(rs[..|rs| - 1], key)
  }

  lemma {:induction false} OnlyMonotone(rs: seq<Request>, key: Key)
    requires Monotone(rs)
    ensures Monotone(Only(rs, key))
    ensures forall i :: 0 <= i < |Only(rs, key)| ==> rs != [] && Only(rs, key)[i].now <= rs[|rs| - 1].now
  {
    if rs != [] {
      OnlyMonotone(rs[..|rs| - 1], key);
    }
  }

  lemma {:induction false} RememberedOnly(c: Config, rs: seq<Request>, key: Key)
    ensures Remembered(c, Only(rs, key), key) == Remembered(c, rs, key)
  {
    if rs != [] {
      var front, r := rs[..|rs| - 1], rs[|rs| - 1];
      RememberedOnly(c, front, key);
      if r.key == key {
        assert (Only(front, key) + [r])[..|Only(front, key)|] == Only(front, key);
      }
    }
  }

  /** Keys do not interfere: the answer to a request is the same with every other key's traffic
      removed. */
  lemma KeysIndependent(c: Config, rs: seq<Request>)
    requires rs != [] && Monotone(rs)
    ensures var only := Only(rs, rs[|rs| - 1].key);
      only != [] && (Admits(c, only) <==> Admits(c, rs))
  {
    var front, r := rs[..|rs| - 1], rs[|rs| - 1];
    var only := Only(rs, r.key);
    OnlyMonotone(rs, r.key);
    assert only[..|only| - 1] == Only(front, r.key) && only[|only| - 1] == r;
    ForgettingUnobservable(c, rs);
    ForgettingUnobservable(c, only);
    RememberedOnly(c, front, r.key);
  }

  // ---------------------------------------------------------------- when the clock steps back

  /** The limiter's answer to `r` after `rs` is the one the full record gives. */
  ghost predicate AnswersAsRecord(c: Config, rs: seq<Request>, r: Request) {
    Admits(c, rs + [r]) <==> |Live(Remembered(c, rs, r.key), r.now, c.window)| < c.maxRequests
  }

  /** Two requests of one key, a second apart. */
  function StepBack(later: real): seq<Request> {
    [Request("a", later - 1.0), Request("a", later)]
  }

  lemma AfterOne(c: Config, r: Request)
    requires c.maxRequests > 0
    ensures Stored(After(c, [r]).rates, r.key) == [r.now] == Remembered(c, [r], r.key)
  {
    assert [r][..0] == [];
    assert [] + [r.now] == [r.now];
    assert Remembered(c, [], r.key) == [];
  }

  /** In a window of one second the first has left it when the second comes: the limiter drops it, the
      record keeps both. */
  lemma AfterTwo(later: real)
    ensures var c := Config(2, 1.0);
      && Stored(After(c, StepBack(later)).rates, "a") == [later]
      && Remembered(c, StepBack(later), "a") == [later - 1.0, later]
  {
    var c, first, second := Config(2, 1.0), Request("a", later - 1.0), Request("a", later);
    assert StepBack(later)[..1] == [first];
    AfterOne(c, first);
    assert Live([later - 1.0], later, 1.0) == [];
    assert [] + [later] == [later];
    SweepUnseen(After(c, [first]).rates, "a", later, later, 1.0);
  }

  /** The limiter has forgotten an admission the record still counts: it admits a third request. */
  lemma StepBackShows(later: real, next: real)
    requires next < later
    ensures !AnswersAsRecord(Config(2, 1.0), StepBack(later), Request("a", next))
  {
    var c, rs, r := Config(2, 1.0), StepBack(later), Request("a", next);
    AfterTwo(later);
    assert (rs + [r])[..2] == rs;
    var stored := Stored(After(c, rs).rates, "a");
    LiveOne(later, next, 1.0);
    assert Live([later - 1.0, later], next, 1.0) == [later - 1.0] + Live([later], next, 1.0);
    assert !Stale(stored, next, 1.0);
  }

  /** Exactly when a reading may follow another: every configuration and every run with a
      non-decreasing clock up to `later` answers a request at `next` as the full record does if and
      only if the clock has not stepped back. */
  lemma UnobservableExactly(later: real, next: real)
    ensures (forall c, rs: seq<Request>, r: Request |
               rs != [] && Monotone(rs) && rs[|rs| - 1].now == later && r.now == next ::
               AnswersAsRecord(c, rs, r))
            <==> later <= next
  {
    if later <= next {
      forall c, rs: seq<Request>, r: Request | rs != [] && Monotone(rs) && rs[|rs| - 1].now == later && r.now == next
        ensures AnswersAsRecord(c, rs, r)
      {
        MonotoneAppend(rs, r);
        assert (rs + [r])[..|rs|] == rs;
        ForgettingUnobservable(c, rs + [r]);
      }
    } else {
      StepBackShows(later, next);
      var rs := StepBack(later);
      assert rs != [] && Monotone(rs) && rs[|rs| - 1].now == later && Request("a", next).now == next;
    }
  }

  lemma MonotoneAppend(rs: seq<Request>, r: Request)
    requires rs != [] && Monotone(rs) && rs[|rs| - 1].now <= r.now
    ensures Monotone(rs + [r])
  {
  }

  /** The periodic sweep alone shows too: a key swept at 1400 s is admitted again at 1010 s, ten
      seconds after an admission that used up its quota of one a minute. */
  lemma BackwardClockShows()
    ensures var c := Config(1, 60.0);
      var rs := [Request("a", 1000.0), Request("b", 1400.0), Request("a", 1010.0)];
      Admits(c, rs) && |Live(Remembered(c, rs[..2], "a"), 1010.0, 60.0)| >= c.maxRequests
  {
    var c := Config(1, 60.0);
    var a, b, a' := Request("a", 1000.0), Request("b", 1400.0), Request("a", 1010.0);
    var rs := [a, b, a'];
    assert rs[..2] == [a, b] && [a, b][..1] == [a] && [a][..0] == [];
    var none: map<Key, seq<real>> := map[];
    assert Swept(none, 1000.0, 60.0) == none;
    assert Live(Stored(none, "a"), 1000.0, 60.0) == [];
    assert [] + [1000.0] == [1000.0];
    assert Dispatched(c, INITIAL, a).0 == State(map["a" := [1000.0]], 1000.0);
    assert After(c, [a]) == State(map["a" := [1000.0]], 1000.0);
    assert Latest([1000.0]) == 1000.0;
    assert Swept(map["a" := [1000.0]], 1400.0, 60.0) == map[];
    assert Live(Stored(none, "b"), 1400.0, 60.0) == [];
    assert [] + [1400.0] == [1400.0];
    assert After(c, [a, b]) == State(map["b" := [1400.0]], 1400.0);
    assert Remembered(c, [], "a") == [];
    assert Remembered(c, [a], "a") == [1000.0];
    assert Remembered(c, [a, b], "a") == [1000.0];
    assert Live([1000.0], 1010.0, 60.0) == [1000.0];
  }
}
