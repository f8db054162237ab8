/** The staleness watchdog (api/services/watchdog_service.py) and the overdue list of the review
    queue (api/services/capability_service.py), which run the same query without sharing code. */
module Watchdog {
  import opened Options
  import opened Sorting
  import opened Tables
  import opened ReviewQueue

  const HOUR := 3600
  const SAMPLE := 5

  predicate Overdue(m: Mapping, cutoff: Time) {
    Limbo(m.status) && m.pendingSince.Some? && m.pendingSince.value <= cutoff
  }

  function OverdueIds(mappings: map<MappingId, Mapping>, cutoff: Time): set<MappingId> {
    set id | id in mappings && Overdue(mappings[id], cutoff)
  }

  predicate Distinct(rows: seq<MappingId>) {
    forall i, j | 0 <= i < j < |rows| :: rows[i] != rows[j]
  }

  /** Rows of mappings with a waiting clock. */
  predicate Known(mappings: map<MappingId, Mapping>, rows: seq<MappingId>) {
    forall i | 0 <= i < |rows| :: rows[i] in mappings && mappings[rows[i]].pendingSince.Some?
  }

  predicate OldestFirst(mappings: map<MappingId, Mapping>, rows: seq<MappingId>)
    requires Known(mappings, rows)
  {
    forall i, j | 0 <= i < j < |rows| :: mappings[rows[i]].pendingSince.value <= mappings[rows[j]].pendingSince.value
  }

  /** `rows` answers the query for overdue mappings ordered by `pending_since`; ties come in any order. */
  ghost predicate Answers(mappings: map<MappingId, Mapping>, cutoff: Time, rows: seq<MappingId>) {
    && Distinct(rows) && Known(mappings, rows) && OldestFirst(mappings, rows)
    && forall id :: id in rows <==> id in OverdueIds(mappings, cutoff)
  }

  /** The `failure_class` column, or what stands in for a null. */
  function Key(m: Mapping): string {
    match m.failureClass
    case None => "unknown"
    case Some(Drifted) => "drifted"
    case Some(SchemaMismatch) => "schema_mismatch"
    case Some(ServerUnreachable) => "unreachable"
    case Some(ServerTimeout) => "timeout"
  }

  predicate Critical(key: string) {
    key == "drifted" || key == "schema_mismatch"
  }

  function Rank(key: string): nat {
    if Critical(key) then 0 else if key == "unreachable" || key == "timeout" then 1 else 2
  }

  predicate KeyLe(a: string, b: string) {
    Rank(a) < Rank(b) || (Rank(a) == Rank(b) && LexLe(a, b))
  }

  lemma KeyLeTotalOrder()
    ensures TotalOrder(KeyLe)
  {
    LexLeTotalOrder();
  }

  datatype Alert = Alert(
    failureClass: string, itemCount: nat, oldest: Time, sample: seq<MappingId>, isCritical: bool, thresholdHours: int)

  lemma KeyRanks(m: Mapping)
    ensures Critical(Key(m)) <==> m.failureClass == Some(Drifted) || m.failureClass == Some(SchemaMismatch)
    ensures Rank(Key(m)) == 1 <==> m.failureClass == Some(ServerUnreachable) || m.failureClass == Some(ServerTimeout)
  {
    assert "timeout"[0] == 't' && "drifted"[0] == 'd';
  }

  // ---------------------------------------------------------------- grouping

  /** The rows of one class, in the order of `rows`. */
  function Group(mappings: map<MappingId, Mapping>, rows: seq<MappingId>, key: string): (items: seq<MappingId>)
    requires Known(mappings, rows)
  {
    if rows == [] then []
    else
      var earlier, last := Group(mappings, rows[..|rows| - 1], key), rows[|rows| - 1];
      if Key(mappings[last]) == key then earlier + [last] else earlier
  }

  function Keys(mappings: map<MappingId, Mapping>, rows: seq<MappingId>): set<string>
    requires Known(mappings, rows)
  {
    set i | 0 <= i < |rows| :: Key(mappings[rows[i]])
  }

  /** A group has the rows with its key. */
  lemma {:induction false} GroupMembers(mappings: map<MappingId, Mapping>, rows: seq<MappingId>, key: string)
    requires Known(mappings, rows)
    ensures forall id :: id in Group(mappings, rows, key) <==> id in rows && id in mappings && Key(mappings[id]) == key
    ensures Known(mappings, Group(mappings, rows, key))
  {
    if rows != [] {
      GroupMembers(mappings, rows[..|rows| - 1], key);
      assert rows == rows[..|rows| - 1] + [rows[|rows| - 1]];
      assert rows[|rows| - 1] in mappings;
    }
  }

  lemma {:induction false} GroupDistinct(mappings: map<MappingId, Mapping>, rows: seq<MappingId>, key: string)
    requires Known(mappings, rows) && Distinct(rows)
    ensures Distinct(Group(mappings, rows, key))
  {
    if rows != [] {
      GroupMembers(mappings, rows[..|rows| - 1], key);
      GroupDistinct(mappings, rows[..|rows| - 1], key);
      assert rows[|rows| - 1] !in rows[..|rows| - 1];
    }
  }

  /** A group keeps the order of the rows. */
  lemma {:induction false} GroupOrdered(mappings: map<MappingId, Mapping>, rows: seq<MappingId>, key: string)
    requires Known(mappings, rows) && OldestFirst(mappings, rows)
    ensures Known(mappings, Group(mappings, rows, key)) && OldestFirst(mappings, Group(mappings, rows, key))
  {
    GroupMembers(mappings, rows, key);
    if rows != [] {
      var front, last := rows[..|rows| - 1], rows[|rows| - 1];
      GroupMembers(mappings, front, key);
      GroupOrdered(mappings, front, key);
      var items := Group(mappings, front, key);
      forall i | 0 <= i < |items| ensures mappings[items[i]].pendingSince.value <= mappings[last].pendingSince.value {
        assert items[i] in front;
        var k :| 0 <= k < |front| && front[k] == items[i];
        assert rows[k] == items[i];
      }
    }
  }

  lemma GroupNonempty(mappings: map<MappingId, Mapping>, rows: seq<MappingId>, key: string)
    requires Known(mappings, rows)
    ensures Group(mappings, rows, key) != [] <==> key in Keys(mappings, rows)
  {
    GroupMembers(mappings, rows, key);
    if key in Keys(mappings, rows) {
      var i :| 0 <= i < |rows| && Key(mappings[rows[i]]) == key;
      assert rows[i] in Group(mappings, rows, key);
    }
    if Group(mappings, rows, key) != [] {
      var id := Group(mappings, rows, key)[0];
      var i :| 0 <= i < |rows| && rows[i] == id;
      assert Key(mappings[rows[i]]) == key;
    }
  }

  /** Python's `sorted` with the rank and name as its key. */
  function InOrder(keys: set<string>): (r: seq<string>)
    ensures Ascending(r, KeyLe) && Elements(r) == keys
  {
    KeyLeTotalOrder();
    Sorted(keys, KeyLe)
  }

  function OrderedKeys(mappings: map<MappingId, Mapping>, rows: seq<MappingId>): seq<string>
    requires Known(mappings, rows)
  {
    InOrder(Keys(mappings, rows))
  }

  function AlertOn(mappings: map<MappingId, Mapping>, key: string, items: seq<MappingId>, hours: int): Alert
    requires Known(mappings, items) && items != []
  {
    Alert(key, |items|, mappings[items[0]].pendingSince.value, if |items| > SAMPLE then items[..SAMPLE] else items,
          Critical(key), hours)
  }

  ghost predicate IsAlertOn(mappings: map<MappingId, Mapping>, rows: seq<MappingId>, key: string, hours: int,
                            alert: Alert)
    requires Known(mappings, rows)
  {
    var items := Group(mappings, rows, key);
    Known(mappings, items) && items != [] && alert == AlertOn(mappings, key, items, hours)
  }

  /** One alert for each of the first keys. */
  ghost predicate AlertsSoFar(mappings: map<MappingId, Mapping>, rows: seq<MappingId>, hours: int,
                              keys: seq<string>, alerts: seq<Alert>)
    requires Known(mappings, rows)
  {
    |alerts| <= |keys| && forall i :: 0 <= i < |alerts| ==> IsAlertOn(mappings, rows, keys[i], hours, alerts[i])
  }

  lemma OneAlertMore(mappings: map<MappingId, Mapping>, rows: seq<MappingId>, hours: int, keys: seq<string>,
                     alerts: seq<Alert>, alert: Alert)
    requires Known(mappings, rows) && AlertsSoFar(mappings, rows, hours, keys, alerts) && |alerts| < |keys|
    requires IsAlertOn(mappings, rows, keys[|alerts|], hours, alert)
    ensures AlertsSoFar(mappings, rows, hours, keys, alerts + [alert])
  {
    var more := alerts + [alert];
    forall i | 0 <= i < |more| ensures IsAlertOn(mappings, rows, keys[i], hours, more[i]) {
      if i < |alerts| {
        assert more[i] == alerts[i];
      }
    }
  }

  /** The alerts are those of the groups, in key order. */
  ghost predicate AlertsOf(mappings: map<MappingId, Mapping>, rows: seq<MappingId>, hours: int, alerts: seq<Alert>)
    requires Known(mappings, rows)
  {
    var keys := OrderedKeys(mappings, rows);
    |alerts| == |keys| && AlertsSoFar(mappings, rows, hours, keys, alerts)
  }

  /** The grouping dictionary after the first rows. */
  ghost predicate Grouped(mappings: map<MappingId, Mapping>, rows: seq<MappingId>, grouped: map<string, seq<MappingId>>)
    requires Known(mappings, rows)
  {
    && grouped.Keys == Keys(mappings, rows)
    && forall key :: key in grouped ==> grouped[key] == Group(mappings, rows, key)
  }

  lemma GroupedStep(mappings: map<MappingId, Mapping>, rows: seq<MappingId>, i: nat,
                    grouped: map<string, seq<MappingId>>)
    requires Known(mappings, rows) && i < |rows| && Grouped(mappings, rows[..i], grouped)
    ensures var key := Key(mappings[rows[i]]);
      Grouped(mappings, rows[..i + 1],
              grouped[key := (if key in grouped then grouped[key] else []) + [rows[i]]])
  {
    assert rows[..i + 1] == rows[..i] + [rows[i]];
    KeysStep(mappings, rows[..i], rows[i]);
    forall k ensures Group(mappings, rows[..i + 1], k) ==
      Group(mappings, rows[..i], k) + if Key(mappings[rows[i]]) == k then [rows[i]] else []
    {
      GroupStep(mappings, rows[..i], rows[i], k);
    }
    GroupNonempty(mappings, rows[..i], Key(mappings[rows[i]]));
  }

  lemma KeysStep(mappings: map<MappingId, Mapping>, front: seq<MappingId>, last: MappingId)
    requires Known(mappings, front) && Known(mappings, front + [last]) && last in mappings
    ensures Keys(mappings, front + [last]) == Keys(mappings, front) + {Key(mappings[last])}
  {
    var rows := front + [last];
    forall k ensures k in Keys(mappings, rows) <==> k in Keys(mappings, front) || k == Key(mappings[last]) {
      if k in Keys(mappings, front) {
        var j :| 0 <= j < |front| && Key(mappings[front[j]]) == k;
        assert rows[j] == front[j];
      }
      assert rows[|front|] == last;
    }
  }

  lemma GroupStep(mappings: map<MappingId, Mapping>, front: seq<MappingId>, last: MappingId, key: string)
    requires Known(mappings, front) && Known(mappings, front + [last]) && last in mappings
    ensures Group(mappings, front + [last], key) ==
      Group(mappings, front, key) + if Key(mappings[last]) == key then [last] else []
  {
    assert (front + [last])[..|front|] == front;
  }

  lemma GroupedEntry(mappings: map<MappingId, Mapping>, rows: seq<MappingId>, grouped: map<string, seq<MappingId>>,
                     key: string, hours: int)
    requires Known(mappings, rows) && Grouped(mappings, rows, grouped) && key in grouped
    ensures Known(mappings, grouped[key]) && grouped[key] != []
    ensures IsAlertOn(mappings, rows, key, hours, AlertOn(mappings, key, grouped[key], hours))
  {
    GroupMembers(mappings, rows, key);
    GroupNonempty(mappings, rows, key);
  }

  method ProbeOverdue(mappings: map<MappingId, Mapping>, now: Time, hours: int, rows: seq<MappingId>)
    returns (alerted: bool, alerts: seq<Alert>)
    requires Answers(mappings, now - HOUR * hours, rows)
    ensures alerted <==> OverdueIds(mappings, now - HOUR * hours) != {}
    ensures AlertsOf(mappings, rows, hours, alerts)
  {
    if rows == [] {
      return false, [];
    }
    assert rows[0] in rows;
    var grouped := GroupRows(mappings, rows);
    alerts := SendAlerts(mappings, rows, grouped, hours);
    return true, alerts;
  }

  method GroupRows(mappings: map<MappingId, Mapping>, rows: seq<MappingId>)
    returns (grouped: map<string, seq<MappingId>>)
    requires Known(mappings, rows)
    ensures Grouped(mappings, rows, grouped)
  {
    grouped := map[];
    var i := 0;
    while i < |rows|
      invariant 0 <= i <= |rows|
      invariant Grouped(mappings, rows[..i], grouped)
    {
      var key := Key(mappings[rows[i]]);
      GroupedStep(mappings, rows, i, grouped);
      grouped := grouped[key := (if key in grouped then grouped[key] else []) + [rows[i]]];
      i := i + 1;
    }
    assert rows[..|rows|] == rows;
  }

  method SendAlerts(mappings: map<MappingId, Mapping>, rows: seq<MappingId>, grouped: map<string, seq<MappingId>>,
                    hours: int)
    returns (alerts: seq<Alert>)
    requires Known(mappings, rows) && Grouped(mappings, rows, grouped)
    ensures AlertsOf(mappings, rows, hours, alerts)
  {
    var keys := InOrder(grouped.Keys);
    assert keys == OrderedKeys(mappings, rows);
    alerts := [];
    var k := 0;
    while k < |keys|
      invariant 0 <= k <= |keys| && |alerts| == k
      invariant AlertsSoFar(mappings, rows, hours, keys, alerts)
    {
      assert keys[k] in Elements(keys);
      GroupedEntry(mappings, rows, grouped, keys[k], hours);
      var alert := AlertOn(mappings, keys[k], grouped[keys[k]], hours);
      OneAlertMore(mappings, rows, hours, keys, alerts, alert);
      alerts := alerts + [alert];
      k := k + 1;
    }
  }

  // ---------------------------------------------------------------- what the alerts say

  function ItemCounts(alerts: seq<Alert>): nat {
    if alerts == [] then 0 else ItemCounts(alerts[..|alerts| - 1]) + alerts[|alerts| - 1].itemCount
  }

  function GroupSizes(mappings: map<MappingId, Mapping>, rows: seq<MappingId>, keys: seq<string>): nat
    requires Known(mappings, rows)
  {
    if keys == [] then 0
    else GroupSizes(mappings, rows, keys[..|keys| - 1]) + |Group(mappings, rows, keys[|keys| - 1])|
  }

  /** Distinct keys: the last row adds one to the one group that has its key, if there is one. */
  lemma {:induction false} OneRowMore(mappings: map<MappingId, Mapping>, rows: seq<MappingId>, keys: seq<string>)
    requires Known(mappings, rows) && rows != []
    requires forall i, j | 0 <= i < j < |keys| :: keys[i] != keys[j]
    ensures GroupSizes(mappings, rows, keys) == GroupSizes(mappings, rows[..|rows| - 1], keys)
                                                + if Key(mappings[rows[|rows| - 1]]) in keys then 1 else 0
  {
    if keys != [] {
      OneRowMore(mappings, rows, keys[..|keys| - 1]);
      assert keys == keys[..|keys| - 1] + [keys[|keys| - 1]];
    }
  }

  lemma {:induction false} NoRows(mappings: map<MappingId, Mapping>, keys: seq<string>)
    ensures GroupSizes(mappings, [], keys) == 0
  {
    if keys != [] {
      NoRows(mappings, keys[..|keys| - 1]);
    }
  }

  lemma {:induction false} SizesAddUp(mappings: map<MappingId, Mapping>, rows: seq<MappingId>, keys: seq<string>)
    requires Known(mappings, rows)
    requires forall i, j | 0 <= i < j < |keys| :: keys[i] != keys[j]
    requires forall i :: 0 <= i < |rows| ==> Key(mappings[rows[i]]) in keys
    ensures GroupSizes(mappings, rows, keys) == |rows|
  {
    if rows == [] {
      NoRows(mappings, keys);
    } else {
      SizesAddUp(mappings, rows[..|rows| - 1], keys);
      OneRowMore(mappings, rows, keys);
    }
  }

  lemma {:induction false} CountsAreSizes(mappings: map<MappingId, Mapping>, rows: seq<MappingId>, keys: seq<string>,
                                          alerts: seq<Alert>)
    requires Known(mappings, rows) && |keys| == |alerts|
    requires forall i :: 0 <= i < |keys| ==> alerts[i].itemCount == |Group(mappings, rows, keys[i])|
    ensures ItemCounts(alerts) == GroupSizes(mappings, rows, keys)
  {
    if keys != [] {
      CountsAreSizes(mappings, rows, keys[..|keys| - 1], alerts[..|alerts| - 1]);
    }
  }

  lemma {:induction false} DistinctSize(xs: seq<MappingId>)
    requires Distinct(xs)
    ensures |Elements(xs)| == |xs|
  {
    if xs != [] {
      var front, last := xs[..|xs| - 1], xs[|xs| - 1];
      DistinctSize(front);
      assert xs == front + [last];
      assert Elements(xs) == Elements(front) + {last};
    }
  }

  /** The item counts sum to the length of the overdue list, however that listing breaks its ties. */
  lemma CountsAddUp(mappings: map<MappingId, Mapping>, cutoff: Time, rows: seq<MappingId>, hours: int,
                    alerts: seq<Alert>, overdueList: seq<MappingId>)
    requires Answers(mappings, cutoff, rows) && Answers(mappings, cutoff, overdueList)
    requires AlertsOf(mappings, rows, hours, alerts)
    ensures ItemCounts(alerts) == |overdueList| == |OverdueIds(mappings, cutoff)|
  {
    var keys := OrderedKeys(mappings, rows);
    forall i | 0 <= i < |rows| ensures Key(mappings[rows[i]]) in keys {
      assert Key(mappings[rows[i]]) in Elements(keys);
    }
    forall i | 0 <= i < |keys| ensures alerts[i].itemCount == |Group(mappings, rows, keys[i])| {
      assert IsAlertOn(mappings, rows, keys[i], hours, alerts[i]);
    }
    SizesAddUp(mappings, rows, keys);
    CountsAreSizes(mappings, rows, keys, alerts);
    DistinctSize(rows);
    DistinctSize(overdueList);
    assert Elements(rows) == Elements(overdueList) == OverdueIds(mappings, cutoff);
  }

  /** The group of one alert. */
  lemma AlertGroup(mappings: map<MappingId, Mapping>, rows: seq<MappingId>, hours: int, alerts: seq<Alert>, i: nat,
                   id: MappingId)
    requires Known(mappings, rows) && AlertsOf(mappings, rows, hours, alerts) && i < |alerts|
    ensures alerts[i].failureClass == OrderedKeys(mappings, rows)[i]
    ensures id in Group(mappings, rows, alerts[i].failureClass) <==>
      id in rows && id in mappings && Key(mappings[id]) == alerts[i].failureClass
  {
    var key := OrderedKeys(mappings, rows)[i];
    assert IsAlertOn(mappings, rows, key, hours, alerts[i]);
    GroupMembers(mappings, rows, key);
  }

  /** The alert of a row's class. */
  lemma AlertFor(mappings: map<MappingId, Mapping>, rows: seq<MappingId>, hours: int, alerts: seq<Alert>,
                 id: MappingId) returns (i: nat)
    requires Known(mappings, rows) && AlertsOf(mappings, rows, hours, alerts) && id in rows
    ensures i < |alerts| && id in Group(mappings, rows, alerts[i].failureClass)
  {
    var keys := OrderedKeys(mappings, rows);
    var r :| 0 <= r < |rows| && rows[r] == id;
    assert Key(mappings[rows[r]]) in Elements(keys);
    i :| 0 <= i < |keys| && keys[i] == Key(mappings[id]);
    AlertGroup(mappings, rows, hours, alerts, i, id);
  }

  /** Every overdue mapping is in the group of exactly one alert, the alert of its class. */
  lemma InOneGroup(mappings: map<MappingId, Mapping>, cutoff: Time, rows: seq<MappingId>, hours: int,
                   alerts: seq<Alert>, id: MappingId)
    requires Answers(mappings, cutoff, rows) && AlertsOf(mappings, rows, hours, alerts)
    ensures id in OverdueIds(mappings, cutoff) <==>
      (exists i :: 0 <= i < |alerts| && id in Group(mappings, rows, alerts[i].failureClass))
    ensures forall i, j |
      && 0 <= i < |alerts| && 0 <= j < |alerts|
      && id in Group(mappings, rows, alerts[i].failureClass)
      && id in Group(mappings, rows, alerts[j].failureClass) :: i == j
  {
    if id in OverdueIds(mappings, cutoff) {
      assert id in rows;
      var i := AlertFor(mappings, rows, hours, alerts, id);
    }
    forall i | 0 <= i < |alerts| && id in Group(mappings, rows, alerts[i].failureClass)
      ensures id in OverdueIds(mappings, cutoff)
    {
      AlertGroup(mappings, rows, hours, alerts, i, id);
    }
    forall i, j |
      && 0 <= i < |alerts| && 0 <= j < |alerts|
      && id in Group(mappings, rows, alerts[i].failureClass)
      && id in Group(mappings, rows, alerts[j].failureClass)
      ensures i == j
    {
      AlertGroup(mappings, rows, hours, alerts, i, id);
      AlertGroup(mappings, rows, hours, alerts, j, id);
      KeysDiffer(mappings, rows, i, j);
    }
  }

  lemma KeysDiffer(mappings: map<MappingId, Mapping>, rows: seq<MappingId>, i: nat, j: nat)
    requires Known(mappings, rows)
    requires i < |OrderedKeys(mappings, rows)| && j < |OrderedKeys(mappings, rows)|
    requires OrderedKeys(mappings, rows)[i] == OrderedKeys(mappings, rows)[j]
    ensures i == j
  {
    var keys := OrderedKeys(mappings, rows);
    assert Ascending(keys, KeyLe);
    assert forall a, b :: 0 <= a < b < |keys| ==> keys[a] != keys[b];
  }

  lemma FirstIsOldest(mappings: map<MappingId, Mapping>, items: seq<MappingId>)
    requires Known(mappings, items) && OldestFirst(mappings, items) && items != []
    ensures items[0] in items && items[0] in mappings
    ensures forall id :: id in items ==>
      id in mappings && mappings[items[0]].pendingSince.value <= mappings[id].pendingSince.value
  {
  }

  /** The first few rows of an ordered list are its oldest. */
  lemma SampleOldest(mappings: map<MappingId, Mapping>, items: seq<MappingId>, n: nat, a: MappingId, b: MappingId)
    requires Known(mappings, items) && OldestFirst(mappings, items) && n <= |items|
    requires a in items[..n] && b in items && b !in items[..n]
    ensures a in mappings && b in mappings
    ensures mappings[a].pendingSince.value <= mappings[b].pendingSince.value
  {
    var i :| 0 <= i < n && items[..n][i] == a;
    var j :| 0 <= j < |items| && items[j] == b;
    assert forall k :: 0 <= k < n ==> items[..n][k] != b;
    assert forall k :: 0 <= k < n ==> items[k] == items[..n][k];
    assert i < n <= j;
  }

  /** The alert names the minimum of the items, and its sample is their oldest part. */
  ghost predicate NamesOldest(mappings: map<MappingId, Mapping>, items: seq<MappingId>, alert: Alert)
    requires Known(mappings, items)
  {
    && (exists id :: id in items && id in mappings && mappings[id].pendingSince == Some(alert.oldest))
    && (forall id :: id in items ==> id in mappings && alert.oldest <= mappings[id].pendingSince.value)
    && alert.sample <= items && |alert.sample| == (if |items| < 5 then |items| else 5)
    && (forall a, b :: a in alert.sample && b in items && b !in alert.sample ==>
         a in mappings && b in mappings && mappings[a].pendingSince.value <= mappings[b].pendingSince.value)
  }

  lemma AlertNamesOldest(mappings: map<MappingId, Mapping>, key: string, items: seq<MappingId>, hours: int)
    requires Known(mappings, items) && OldestFirst(mappings, items) && items != []
    ensures NamesOldest(mappings, items, AlertOn(mappings, key, items, hours))
  {
    var sample := AlertOn(mappings, key, items, hours).sample;
    FirstIsOldest(mappings, items);
    assert sample == items[..|sample|];
    forall a, b | a in sample && b in items && b !in sample
      ensures a in mappings && b in mappings && mappings[a].pendingSince.value <= mappings[b].pendingSince.value
    {
      assert a in items;
      SampleOldest(mappings, items, |sample|, a, b);
    }
  }

  /** The overdue mappings of one class name. */
  function OfClass(mappings: map<MappingId, Mapping>, cutoff: Time, name: string): set<MappingId> {
    set id | id in OverdueIds(mappings, cutoff) && ClassNamed(mappings[id].failureClass, name)
  }

  /** How a stored failure class is named; a missing one is unknown. */
  predicate ClassNamed(failureClass: Option<FailureClass>, name: string) {
    || (failureClass == Some(Drifted) && name == "drifted")
    || (failureClass == Some(SchemaMismatch) && name == "schema_mismatch")
    || (failureClass == Some(ServerUnreachable) && name == "unreachable")
    || (failureClass == Some(ServerTimeout) && name == "timeout")
    || (failureClass == None && name == "unknown")
  }

  lemma KeyNamed(m: Mapping, name: string)
    ensures Key(m) == name <==> ClassNamed(m.failureClass, name)
  {
    assert "timeout"[0] == 't' && "drifted"[0] == 'd' && |"unknown"| == 7 && "unknown"[0] == 'u';
  }

  /** An alert counts all overdue mappings of the class it names, and repeats the threshold. */
  lemma AlertCounts(mappings: map<MappingId, Mapping>, cutoff: Time, rows: seq<MappingId>, hours: int,
                    alerts: seq<Alert>, i: nat)
    requires Answers(mappings, cutoff, rows) && AlertsOf(mappings, rows, hours, alerts) && i < |alerts|
    ensures alerts[i].itemCount == |OfClass(mappings, cutoff, alerts[i].failureClass)|
    ensures alerts[i].thresholdHours == hours
  {
    var key := OrderedKeys(mappings, rows)[i];
    assert IsAlertOn(mappings, rows, key, hours, alerts[i]);
    GroupMembers(mappings, rows, key);
    GroupDistinct(mappings, rows, key);
    DistinctSize(Group(mappings, rows, key));
    forall id ensures id in Elements(Group(mappings, rows, key)) <==> id in OfClass(mappings, cutoff, key) {
      if id in mappings {
        KeyNamed(mappings[id], key);
      }
    }
    assert Elements(Group(mappings, rows, key)) == OfClass(mappings, cutoff, key);
  }

  /** Overdue: still in the queue, and waiting for at least the threshold, a threshold of hours being
      3600 seconds each. */
  lemma OverdueMeans(mappings: map<MappingId, Mapping>, now: Time, hours: int, id: MappingId)
    ensures id in OverdueIds(mappings, now - HOUR * hours) <==>
      && id in mappings
      && var m := mappings[id];
      && (m.status == Stale || m.status == PendingReview || m.status == StaleUnverified)
      && m.pendingSince.Some? && now - m.pendingSince.value >= 3600 * hours
  {
  }

  /** Each alert names its group's minimum, and its sample is the oldest part of the group. */
  lemma OldestIsMinimum(mappings: map<MappingId, Mapping>, cutoff: Time, rows: seq<MappingId>, hours: int,
                        alerts: seq<Alert>, i: nat)
    requires Answers(mappings, cutoff, rows) && AlertsOf(mappings, rows, hours, alerts) && i < |alerts|
    ensures Known(mappings, Group(mappings, rows, alerts[i].failureClass))
    ensures NamesOldest(mappings, Group(mappings, rows, alerts[i].failureClass), alerts[i])
  {
    var key := OrderedKeys(mappings, rows)[i];
    assert IsAlertOn(mappings, rows, key, hours, alerts[i]);
    GroupOrdered(mappings, rows, key);
    AlertNamesOldest(mappings, key, Group(mappings, rows, key), hours);
  }

  /** Critical groups come before unreachable ones, and those before unknown ones. */
  lemma CriticalFirst(mappings: map<MappingId, Mapping>, rows: seq<MappingId>, hours: int, alerts: seq<Alert>, i: nat,
                      j: nat)
    requires Known(mappings, rows) && AlertsOf(mappings, rows, hours, alerts) && i < j < |alerts|
    ensures alerts[j].isCritical ==> alerts[i].isCritical
    ensures var a, b := alerts[i].failureClass, alerts[j].failureClass;
      && (b == "drifted" || b == "schema_mismatch" ==> a == "drifted" || a == "schema_mismatch")
      && (b == "unreachable" || b == "timeout" ==>
           a == "drifted" || a == "schema_mismatch" || a == "unreachable" || a == "timeout")
      && (Rank(a) == Rank(b) ==> LexLe(a, b))
    ensures alerts[i].failureClass != alerts[j].failureClass
  {
    var keys := OrderedKeys(mappings, rows);
    assert IsAlertOn(mappings, rows, keys[i], hours, alerts[i]) && IsAlertOn(mappings, rows, keys[j], hours, alerts[j]);
    assert KeyLe(keys[i], keys[j]);
  }

  /** Which way the query breaks ties shows in the samples only. */
  lemma TiesShowInSamplesOnly(mappings: map<MappingId, Mapping>, cutoff: Time, hours: int,
                              rows: seq<MappingId>, alerts: seq<Alert>, rows': seq<MappingId>, alerts': seq<Alert>)
    requires Answers(mappings, cutoff, rows) && AlertsOf(mappings, rows, hours, alerts)
    requires Answers(mappings, cutoff, rows') && AlertsOf(mappings, rows', hours, alerts')
    ensures |alerts| == |alerts'|
    ensures forall i :: 0 <= i < |alerts| ==> alerts'[i] == alerts[i].(sample := alerts'[i].sample)
  {
    SameOrder(mappings, rows, rows');
    var keys := OrderedKeys(mappings, rows);
    forall i | 0 <= i < |alerts| ensures alerts'[i] == alerts[i].(sample := alerts'[i].sample) {
      SameAlert(mappings, cutoff, hours, rows, alerts[i], rows', alerts'[i], keys[i]);
    }
  }

  lemma SameAlert(mappings: map<MappingId, Mapping>, cutoff: Time, hours: int, rows: seq<MappingId>, alert: Alert,
                  rows': seq<MappingId>, alert': Alert, key: string)
    requires Answers(mappings, cutoff, rows) && Answers(mappings, cutoff, rows')
    requires IsAlertOn(mappings, rows, key, hours, alert) && IsAlertOn(mappings, rows', key, hours, alert')
    ensures alert' == alert.(sample := alert'.sample)
  {
    SameGroup(mappings, cutoff, rows, rows', key);
  }

  lemma SameMembers(xs: seq<MappingId>, ys: seq<MappingId>)
    requires Distinct(xs) && Distinct(ys) && forall id :: id in xs <==> id in ys
    ensures |xs| == |ys|
  {
    DistinctSize(xs);
    DistinctSize(ys);
    assert Elements(xs) == Elements(ys);
  }

  lemma SameOldest(mappings: map<MappingId, Mapping>, xs: seq<MappingId>, ys: seq<MappingId>)
    requires Known(mappings, xs) && Known(mappings, ys) && OldestFirst(mappings, xs) && OldestFirst(mappings, ys)
    requires xs != [] && ys != [] && forall id :: id in xs <==> id in ys
    ensures mappings[xs[0]].pendingSince == mappings[ys[0]].pendingSince
  {
    assert xs[0] in ys && ys[0] in xs;
  }

  lemma SameGroup(mappings: map<MappingId, Mapping>, cutoff: Time, rows: seq<MappingId>, rows': seq<MappingId>,
                  key: string)
    requires Answers(mappings, cutoff, rows) && Answers(mappings, cutoff, rows')
    ensures var items, items' := Group(mappings, rows, key), Group(mappings, rows', key);
      && Known(mappings, items) && Known(mappings, items') && |items| == |items'|
      && (items != [] ==> mappings[items[0]].pendingSince == mappings[items'[0]].pendingSince)
  {
    var items, items' := Group(mappings, rows, key), Group(mappings, rows', key);
    GroupMembers(mappings, rows, key);
    GroupMembers(mappings, rows', key);
    GroupDistinct(mappings, rows, key);
    GroupDistinct(mappings, rows', key);
    SameMembers(items, items');
    GroupOrdered(mappings, rows, key);
    GroupOrdered(mappings, rows', key);
    if items != [] {
      SameOldest(mappings, items, items');
    }
  }

  lemma SameOrder(mappings: map<MappingId, Mapping>, rows: seq<MappingId>, rows': seq<MappingId>)
    requires Known(mappings, rows) && Known(mappings, rows') && forall id :: id in rows <==> id in rows'
    ensures OrderedKeys(mappings, rows) == OrderedKeys(mappings, rows')
  {
    SameKeys(mappings, rows, rows');
    SameKeys(mappings, rows', rows);
    assert Keys(mappings, rows) == Keys(mappings, rows');
  }

  lemma SameKeys(mappings: map<MappingId, Mapping>, rows: seq<MappingId>, rows': seq<MappingId>)
    requires Known(mappings, rows) && Known(mappings, rows') && forall id :: id in rows ==> id in rows'
    ensures Keys(mappings, rows) <= Keys(mappings, rows')
  {
    forall key | key in Keys(mappings, rows) ensures key in Keys(mappings, rows') {
      var i :| 0 <= i < |rows| && Key(mappings[rows[i]]) == key;
      assert rows[i] in rows';
      var j :| 0 <= j < |rows'| && rows'[j] == rows[i];
    }
  }

  /** On the tables of any run no group is unknown, and an alert is critical exactly when its mappings
      wait on a changed tool or a collision rather than on an unreachable server. */
  lemma CriticalMeansChanged(t: Tables, cutoff: Time, rows: seq<MappingId>, hours: int,
                             alerts: seq<Alert>, i: nat, id: MappingId)
    requires Coherent(t) && Answers(t.mappings, cutoff, rows) && AlertsOf(t.mappings, rows, hours, alerts)
    requires i < |alerts| && id in Group(t.mappings, rows, alerts[i].failureClass)
    ensures id in t.mappings && Rank(alerts[i].failureClass) < 2
    ensures alerts[i].isCritical <==> t.mappings[id].status == Stale || t.mappings[id].status == PendingReview
    ensures !alerts[i].isCritical <==> t.mappings[id].status == StaleUnverified
  {
    assert IsAlertOn(t.mappings, rows, OrderedKeys(t.mappings, rows)[i], hours, alerts[i]);
    GroupMembers(t.mappings, rows, alerts[i].failureClass);
    KeyRanks(t.mappings[id]);
    assert CoherentRow(t.mappings[id]) && id in OverdueIds(t.mappings, cutoff);
  }
}
