/**
 * The polling engine of `WaterguardDataUpdateCoordinator`
 * (custom_components/waterguard_linkbox/coordinator.py): one update cycle takes what the hub
 * delivered, fills gaps from remembered wireless values, feeds the entity cache, drives the
 * state machine and the valve-disconnect debounce, and switches between the normal and the
 * fast polling interval on alarm edges. The hub call is a parameter that says what the call
 * delivered or which exception it raised; the clock is a parameter.
 */
module Coordinator {
  import opened Wrappers
  import opened Const
  import opened Status
  import opened Text
  import opened Cache
  import opened StateMachines
  import Client
  import Notifications

  // ---------------------------------------------------------------- alarm determination

  /** A disconnected valve system, a disconnected first valve, or a disconnected second valve when there are two. */
  predicate ValveProblem(valve: Section)
  {
    var n := Get(valve, "num_valves");
    var s1 := Get(valve, "valve_status1");
    var s2 := Get(valve, "valve_status2");
    n == Some(319.0)
    || (s1.Some? && IsDisconnectedCode(s1.value))
    || (n.Some? && n.value >= 2.0 && s2.Some? && IsDisconnectedCode(s2.value))
  }

  /** `_determine_alarm_state`. */
  predicate AlarmActive(s: Snapshot)
  {
    AtLeastOne(Get(s.water, "alarm")) || AtLeastOne(Get(s.water, "leak1"))
    || AtLeastOne(GetWireless(s.wireless, "leak1")) || AtLeastOne(GetWireless(s.wireless, "leak2"))
    || ValveProblem(s.valve) || LowBattery(s.wireless)
  }

  /** The hub never publishes the count 319: the code 319 itself is turned into 0. */
  lemma HubCountNever319(raw: int)
    ensures Client.InterpretValveCount(raw) != 319
  {
  }

  /**
   * With a count as the hub publishes it, the valve part of the alarm decision is a disconnected
   * status only: the 319 test never fires.
   */
  lemma ValveProblemWithHubCount(valve: Section, raw: int)
    requires Get(valve, "num_valves").Some? ==> Get(valve, "num_valves") == Some(Client.InterpretValveCount(raw) as real)
    ensures ValveProblem(valve) <==>
      (Get(valve, "valve_status1").Some? && IsDisconnectedCode(Get(valve, "valve_status1").value))
      || (Get(valve, "num_valves").Some? && Client.InterpretValveCount(raw) >= 2
          && Get(valve, "valve_status2").Some? && IsDisconnectedCode(Get(valve, "valve_status2").value))
  {
    HubCountNever319(raw);
  }

  // ---------------------------------------------------------------- valve debounce

  /** The valves counted as connected: present in the count and reporting a status that is not a disconnect code. */
  function ConnectedValves(valve: Section): (c: set<nat>)
    ensures c <= {1, 2}
  {
    var n := Get(valve, "num_valves");
    if n.None? then {}
    else
      (if n.value >= 1.0 && !DisconnectedOrMissing(Get(valve, "valve_status1")) then {1} else {})
      + (if n.value >= 2.0 && !DisconnectedOrMissing(Get(valve, "valve_status2")) then {2} else {})
  }

  /** The valves a cycle reports as newly disconnected, with the source's two tests. */
  function NewlyDisconnected(previous: set<nat>, notified: set<nat>, current: set<nat>): set<nat>
  {
    if previous == {} then {} else (previous - current) - notified
  }

  /** The notified set after a cycle: the new reports are added, reconnected valves removed. */
  function NotifiedAfter(previous: set<nat>, notified: set<nat>, current: set<nat>): set<nat>
  {
    (notified + NewlyDisconnected(previous, notified, current)) - current
  }

  /** A valve is reported only when it was connected in the previous cycle and is not connected now. */
  lemma ReportedOnlyOnLoss(previous: set<nat>, notified: set<nat>, current: set<nat>, idx: nat)
    ensures idx in NewlyDisconnected(previous, notified, current) ==> idx in previous && idx !in current
    ensures idx in current ==> idx !in NotifiedAfter(previous, notified, current)
    ensures idx in NewlyDisconnected(previous, notified, current) ==> idx in NotifiedAfter(previous, notified, current)
  {
  }

  /**
   * Since the previous set is replaced every cycle, the notified set never meets it, so the
   * "already notified" test never excludes anything: the report is the valves lost since the
   * previous cycle.
   */
  lemma NotifiedTestRedundant(previous: set<nat>, notified: set<nat>, current: set<nat>)
    requires previous !! notified
    ensures NewlyDisconnected(previous, notified, current) == previous - current
    ensures NotifiedAfter(previous, notified, current) !! current
  {
  }

  /** The reports of a run of cycles with the given connected sets. */
  function Reports(previous: set<nat>, notified: set<nat>, currents: seq<set<nat>>): (r: seq<set<nat>>)
    ensures |r| == |currents|
    decreases |currents|
  {
    if currents == [] then []
    else
      [NewlyDisconnected(previous, notified, currents[0])]
      + Reports(currents[0], NotifiedAfter(previous, notified, currents[0]), currents[1..])
  }

  /** Each cycle after the first reports only valves connected in the cycle before. */
  lemma {:induction false} ReportsFollowLoss(previous: set<nat>, notified: set<nat>, currents: seq<set<nat>>, j: nat)
    requires j < |currents|
    ensures Reports(previous, notified, currents)[j] <= (if j == 0 then previous else currents[j - 1]) - currents[j]
    decreases j
  {
    if j > 0 {
      ReportsFollowLoss(currents[0], NotifiedAfter(previous, notified, currents[0]), currents[1..], j - 1);
      if j - 1 > 0 {
        assert currents[1..][j - 2] == currents[j - 1];
      }
    }
  }

  /** Debounce: a valve reported in two cycles was connected again in some cycle between them. */
  lemma ReportedAgainOnlyAfterReconnect(previous: set<nat>, notified: set<nat>, currents: seq<set<nat>>, i: nat, j: nat, idx: nat)
    requires i < j < |currents|
    requires idx in Reports(previous, notified, currents)[i] && idx in Reports(previous, notified, currents)[j]
    ensures exists k :: i < k < j && idx in currents[k]
  {
    ReportsFollowLoss(previous, notified, currents, i);
    ReportsFollowLoss(previous, notified, currents, j);
    assert idx in currents[j - 1] && idx !in currents[i];
  }

  // ---------------------------------------------------------------- polling intervals

  /** `max(lo, min(hi, v))`. */
  function Clamp(v: int, lo: int, hi: int): (r: int)
    requires lo <= hi
    ensures lo <= r <= hi
    ensures lo <= v <= hi ==> r == v
    ensures v < lo ==> r == lo
    ensures v > hi ==> r == hi
  {
    if v < lo then lo else if v > hi then hi else v
  }

  /** The scan interval an option update installs: the stored option or the default, clamped into [1, 300]. */
  function ScanIntervalOption(option: Option<int>): int
  {
    Clamp(option.GetOr(DefaultScanInterval), 1, 300)
  }

  /** The fast interval an option update installs: clamped into [1, 10]. */
  function FastPollIntervalOption(option: Option<int>): int
  {
    Clamp(option.GetOr(DefaultFastPollInterval), 1, 10)
  }

  /** Without options both intervals are the defaults, which lie in range. */
  lemma DefaultOptions()
    ensures ScanIntervalOption(None) == 2 && FastPollIntervalOption(None) == 1
  {
  }

  // ---------------------------------------------------------------- cycle outcomes

  /** What the hub call gave: a status snapshot, an empty or non-dictionary result, or an exception with its message. */
  datatype HubOutcome = Delivered(snapshot: Snapshot) | NothingDelivered | Raised(message: string)

  /** What the cycle hands to the framework: new data, or `UpdateFailed` with its message. */
  datatype UpdateResult = Updated(data: Snapshot) | Failed(message: string)

  const ErrorPrefix: string := "Error communicating with Waterguard hub: "
  const NoDataMessage: string := "No valid data received from hub"

  /** The depth of the coordinator's entity cache. */
  const CacheDepth: nat := 10

  /** An exception whose text mentions a timeout or the connection, in any letter case. */
  predicate Transient(message: string)
  {
    Contains(Lower(message), "timeout") || Contains(Lower(message), "connection")
  }

  /** Whether the cycle forces a wireless read: during the first five cycles, or while an alarm is active. */
  predicate ForceWireless(updateCount: nat, alarmActive: bool)
  {
    updateCount < 5 || alarmActive
  }

  // ---------------------------------------------------------------- snapshot preparation

  /**
   * The snapshot before caching: an empty wireless section is replaced by the remembered wireless
   * values. The valve section is kept as the hub interpreted it.
   */
  function Prepared(s: Snapshot, lastWireless: Wireless): (r: Snapshot)
    ensures r.water == s.water && r.valve == s.valve && r.device == s.device
    ensures s.wireless != map[] ==> r.wireless == s.wireless
    ensures s.wireless == map[] ==> r.wireless == lastWireless
  {
    if s.wireless == map[] then s.(wireless := lastWireless) else s
  }

  /** Lines 257-265 as written: the hub's valve-count remap applied a second time. */
  function RemapAgain(valve: Section): Section
  {
    if valve != map[] && "num_valves" in valve && valve["num_valves"].Some? then
      var raw := valve["num_valves"].value;
      if raw == 2.0 then valve["num_valves" := Some(1.0)]
      else if raw == 3.0 then valve["num_valves" := Some(2.0)]
      else if raw == 319.0 then valve["num_valves" := Some(0.0)]
      else valve
    else valve
  }

  /** The cycle's preparation with the second remap, as the source has it. */
  function PreparedAsWritten(s: Snapshot, lastWireless: Wireless): Snapshot
  {
    Prepared(s, lastWireless).(valve := RemapAgain(s.valve))
  }

  /** The count entry `read_valve_status` publishes for a raw count code. */
  function HubCount(raw: int): Section
  {
    map["num_valves" := Some(Client.InterpretValveCount(raw) as real)]
  }

  /**
   * As written, the published count differs from the hub's exactly when the hub saw the code 3
   * for two valves, which ends up as one valve.
   */
  lemma RemapAgainLosesSecondValve(s: Snapshot, lastWireless: Wireless, raw: int)
    requires s.valve == HubCount(raw)
    ensures var published := PreparedAsWritten(s, lastWireless).valve["num_valves"];
      && (published == Some(Client.InterpretValveCount(raw) as real) <==> raw != 3)
      && (raw == 3 ==> Client.InterpretValveCount(raw) == 2 && published == Some(1.0))
  {
    HubCountNever319(raw);
  }

  /**
   * A worked example beside `RemapAgainLosesSecondValve`. The second remap also decides the alarm: with two valves, the second one disconnected (4) and
   * nothing else wrong, the corrected cycle raises the alarm, and so polls fast, while the cycle as
   * written counts one valve, ignores the second status and stays on the scan interval.
   */
  lemma AsWrittenMissesSecondValveAlarm(s: Snapshot, lastWireless: Wireless)
    requires s.valve == map["num_valves" := Some(2.0), "valve_status1" := Some(3.0), "valve_status2" := Some(4.0)]
    requires s.water == map[] && s.wireless == map[] && lastWireless == map[]
    ensures AlarmActive(Prepared(s, lastWireless))
    ensures !AlarmActive(PreparedAsWritten(s, lastWireless))
  {
  }

  /** Corrected: the published count is the hub's interpretation of the raw code, for every code. */
  lemma PreparedKeepsHubCount(s: Snapshot, lastWireless: Wireless, raw: int)
    requires "num_valves" in s.valve && s.valve["num_valves"] == HubCount(raw)["num_valves"]
    ensures Prepared(s, lastWireless).valve["num_valves"] == Some(Client.InterpretValveCount(raw) as real)
    ensures raw == 3 ==> Prepared(s, lastWireless).valve["num_valves"] == Some(2.0)
  {
  }

  // ---------------------------------------------------------------- feeding the entity cache

  /** The readings of a section that are not None. */
  function Present(section: Section): (m: map<string, real>)
    ensures forall k :: k in m <==> k in section && section[k].Some?
    ensures forall k :: k in m ==> section[k] == Some(m[k])
  {
    map k | k in section && section[k].Some? :: section[k].value
  }

  function Prefixed(prefix: string, keys: set<string>): set<string>
  {
    set k | k in keys :: prefix + k
  }

  lemma PrefixedMember(prefix: string, keys: set<string>, key: string)
    ensures key in Prefixed(prefix, keys) <==> StartsWith(key, prefix) && key[|prefix|..] in keys
  {
    if key in Prefixed(prefix, keys) {
      var k :| k in keys && key == prefix + k;
      assert key[..|prefix|] == prefix && key[|prefix|..] == k;
    }
    if StartsWith(key, prefix) && key[|prefix|..] in keys {
      PrefixSplit(prefix, key);
    }
  }

  lemma PrefixSplit(prefix: string, key: string)
    requires StartsWith(key, prefix)
    ensures key == prefix + key[|prefix|..]
  {
    assert key == key[..|prefix|] + key[|prefix|..];
  }

  /** The readings of `key` once each reading of `m` has been added under `prefix + name`. */
  function Entry(cache: map<string, seq<Reading>>, prefix: string, m: map<string, real>, ts: int, max: nat, key: string): seq<Reading>
  {
    if StartsWith(key, prefix) && key[|prefix|..] in m then Added(Stored(cache, key), ts, m[key[|prefix|..]], max)
    else Stored(cache, key)
  }

  /** The cache after `add_reading(prefix + name, value, ts)` for every entry of `m`. */
  function AddAll(cache: map<string, seq<Reading>>, prefix: string, m: map<string, real>, ts: int, max: nat): map<string, seq<Reading>>
  {
    map key | key in cache.Keys + Prefixed(prefix, m.Keys) :: Entry(cache, prefix, m, ts, max, key)
  }

  lemma StoredAddAll(cache: map<string, seq<Reading>>, prefix: string, m: map<string, real>, ts: int, max: nat, key: string)
    ensures Stored(AddAll(cache, prefix, m, ts, max), key) == Entry(cache, prefix, m, ts, max, key)
  {
    PrefixedMember(prefix, m.Keys, key);
  }

  /**
   * Adding a section stores each reading under its prefixed key and leaves every other key
   * alone: the result does not depend on the order the section is walked in.
   */
  lemma AddAllStores(cache: map<string, seq<Reading>>, prefix: string, m: map<string, real>, ts: int, max: nat, key: string)
    ensures forall k :: k in m && key == prefix + k ==> Stored(AddAll(cache, prefix, m, ts, max), key) == Added(Stored(cache, key), ts, m[k], max)
    ensures (forall k :: k in m ==> key != prefix + k) ==> Stored(AddAll(cache, prefix, m, ts, max), key) == Stored(cache, key)
  {
    StoredAddAll(cache, prefix, m, ts, max, key);
    forall k | k in m && key == prefix + k
      ensures key[|prefix|..] == k
    {
    }
    if StartsWith(key, prefix) && key[|prefix|..] in m {
      assert key == prefix + key[|prefix|..];
    }
  }

  lemma AddAllBounded(cache: map<string, seq<Reading>>, prefix: string, m: map<string, real>, ts: int, max: nat)
    requires Bounded(cache, max)
    ensures Bounded(AddAll(cache, prefix, m, ts, max), max)
  {
    var a := AddAll(cache, prefix, m, ts, max);
    forall key | key in a
      ensures |a[key]| <= max && DistinctTimestamps(a[key])
    {
      if StartsWith(key, prefix) && key[|prefix|..] in m {
        AddedValid(Stored(cache, key), ts, m[key[|prefix|..]], max);
      }
    }
  }

  lemma AddAllNothing(cache: map<string, seq<Reading>>, prefix: string, ts: int, max: nat)
    ensures AddAll(cache, prefix, map[], ts, max) == cache
  {
    assert Prefixed(prefix, {}) == {};
  }

  /** One more reading, for a name not yet added, is the cache's `add_reading` on the prefixed key. */
  lemma AddAllStep(cache: map<string, seq<Reading>>, prefix: string, done: map<string, real>, k: string, v: real, ts: int, max: nat)
    requires k !in done
    ensures var a := AddAll(cache, prefix, done, ts, max);
      a[prefix + k := Added(Stored(a, prefix + k), ts, v, max)] == AddAll(cache, prefix, done[k := v], ts, max)
  {
    var a := AddAll(cache, prefix, done, ts, max);
    var b := AddAll(cache, prefix, done[k := v], ts, max);
    var lhs := a[prefix + k := Added(Stored(a, prefix + k), ts, v, max)];
    assert (prefix + k)[|prefix|..] == k;
    assert (prefix + k)[..|prefix|] == prefix;
    StoredAddAll(cache, prefix, done, ts, max, prefix + k);
    PrefixedMember(prefix, done[k := v].Keys, prefix + k);
    forall key | key in lhs
      ensures key in b && lhs[key] == b[key]
    {
      PrefixedMember(prefix, done[k := v].Keys, key);
      PrefixedMember(prefix, done.Keys, key);
      if StartsWith(key, prefix) {
        PrefixSplit(prefix, key);
      }
    }
    forall key | key in b
      ensures key in lhs
    {
      PrefixedMember(prefix, done[k := v].Keys, key);
      PrefixedMember(prefix, done.Keys, key);
      if StartsWith(key, prefix) {
        PrefixSplit(prefix, key);
      }
    }
  }

  /** `_process_data_through_cache`'s effect on the cache: water, valve, then wireless when there is any. */
  function CacheAll(cache: map<string, seq<Reading>>, s: Snapshot, ts: int, max: nat): map<string, seq<Reading>>
  {
    var withValve := AddAll(AddAll(cache, "water_", Present(s.water), ts, max), "valve_", Present(s.valve), ts, max);
    if s.wireless != map[] then AddAll(withValve, "wireless_", s.wireless, ts, max) else withValve
  }

  /** The latest cached values of the wireless names that have any, the fallback for sleeping sensors. */
  function CachedWireless(cache: map<string, seq<Reading>>, names: seq<string>): Wireless
    decreases |names|
  {
    if names == [] then map[]
    else
      var w := CachedWireless(cache, names[..|names| - 1]);
      var n := names[|names| - 1];
      match Latest(Stored(cache, "wireless_" + n))
      case Some(r) => w[n := r.value]
      case None => w
  }

  /** The fallback holds exactly the names with cached readings, each with its newest reading. */
  lemma {:induction false} CachedWirelessAt(cache: map<string, seq<Reading>>, names: seq<string>, n: string)
    ensures n in CachedWireless(cache, names) <==> n in names && Stored(cache, "wireless_" + n) != []
    ensures n in CachedWireless(cache, names) ==> CachedWireless(cache, names)[n] == Latest(Stored(cache, "wireless_" + n)).value.value
    decreases |names|
  {
    if names != [] {
      var front := names[..|names| - 1];
      CachedWirelessAt(cache, front, n);
      assert names == front + [names[|names| - 1]];
      assert n in names <==> n in front || n == names[|names| - 1];
    }
  }

  /** The loop that adds one section's readings to the entity cache, in any order. */
  method CacheSection(ec: EntityCache, prefix: string, m: map<string, real>, ts: int)
    requires ec.Valid()
    modifies ec
    ensures ec.Valid()
    ensures ec.cache == AddAll(old(ec.cache), prefix, m, ts, ec.maxEntries)
  {
    ghost var start := ec.cache;
    var todo := m.Keys;
    ghost var done: map<string, real> := map[];
    AddAllNothing(start, prefix, ts, ec.maxEntries);
    while todo != {}
      invariant ec.Valid()
      invariant todo !! done.Keys && todo + done.Keys == m.Keys
      invariant forall k :: k in done ==> k in m && done[k] == m[k]
      invariant ec.cache == AddAll(start, prefix, done, ts, ec.maxEntries)
      decreases todo
    {
      var k :| k in todo;
      AddAllStep(start, prefix, done, k, m[k], ts, ec.maxEntries);
      ec.AddReading(prefix + k, m[k], ts);
      done := done[k := m[k]];
      todo := todo - {k};
    }
    assert done == m;
  }

  /** The fallback loop for sleeping sensors: the latest cached value of each wireless name that has one. */
  method LatestWireless(ec: EntityCache) returns (cached: Wireless)
    requires ec.Valid()
    modifies ec
    ensures ec.Valid() && ec.cache == old(ec.cache)
    ensures cached == CachedWireless(ec.cache, Client.WirelessNames)
  {
    cached := map[];
    var i := 0;
    while i < |Client.WirelessNames|
      invariant 0 <= i <= |Client.WirelessNames|
      invariant ec.Valid() && ec.cache == old(ec.cache)
      invariant cached == CachedWireless(ec.cache, Client.WirelessNames[..i])
    {
      var name := Client.WirelessNames[i];
      assert Client.WirelessNames[..i + 1][..i] == Client.WirelessNames[..i];
      var value, stamp := ec.GetLatestReading("wireless_" + name);
      if value.Some? {
        cached := cached[name := value.value];
      }
      i := i + 1;
    }
    assert Client.WirelessNames[..i] == Client.WirelessNames;
  }

  // ---------------------------------------------------------------- the valve state after a cycle

  /**
   * The valve state and its change time after `_update_state_machine`: first the reported first
   * valve, then, with no alarm and the state unknown or disconnected, the forced re-read if the hub
   * answered it.
   */
  function ValveAfter(alarm: AlarmState, valve: ValveState, stamp: Option<int>, status: Option<real>, resync: Option<Section>, ts: int): (ValveState, Option<int>)
  {
    var v1 := ValveStateOf(status);
    var t1 := if v1 != valve then Some(ts) else stamp;
    if alarm == Normal && (v1 == UnknownValve || v1 == Disconnected)
      && resync.Some? && resync.value != map[] && "valve_status1" in resync.value
    then
      var v2 := ValveStateOf(resync.value["valve_status1"]);
      (v2, if v2 != v1 then Some(ts) else t1)
    else (v1, t1)
  }

  /** A forced re-read changes the valve state only when there is no alarm and the reported state was uncertain. */
  lemma ForcedSyncOnlyWhenUncertain(alarm: AlarmState, valve: ValveState, stamp: Option<int>, status: Option<real>, resync: Option<Section>, ts: int)
    ensures var (v, _) := ValveAfter(alarm, valve, stamp, status, resync, ts);
      v != ValveStateOf(status) ==> alarm == Normal && (ValveStateOf(status) == UnknownValve || ValveStateOf(status) == Disconnected)
    ensures resync.None? ==> ValveAfter(alarm, valve, stamp, status, resync, ts).0 == ValveStateOf(status)
    ensures ValveAfter(alarm, valve, stamp, status, resync, ts).0 != valve ==> ValveAfter(alarm, valve, stamp, status, resync, ts).1 == Some(ts)
  {
  }

  // ---------------------------------------------------------------- the notifications of a cycle

  /** The record the debounce triggers for a valve lost since the previous cycle. */
  function DisconnectRecord(idx: nat, ts: int): Notifications.AlarmRecord
    requires idx < 10
  {
    var d := Notifications.Digit(idx);
    Notifications.AlarmRecord(Notifications.Message("Valve " + [d] + " disconnected"), ts, "valve_" + [d])
  }

  /** The `valve_alarm` triggers for the newly disconnected valves among 1..n, lowest first. */
  function DisconnectAlarms(b: Notifications.Book, newly: set<nat>, ts: int, n: nat): Notifications.Book
    requires n < 10
  {
    if n == 0 then b
    else
      var before := DisconnectAlarms(b, newly, ts, n - 1);
      if n in newly then Notifications.Trigger(before, "valve_alarm", DisconnectRecord(n, ts)) else before
  }

  /**
   * Lost valves leave one `valve_alarm` active, recorded for the highest of them, and send at most
   * one notification per cycle: only when no valve alarm was active, for the lowest of them.
   * Every other alarm type is untouched.
   */
  lemma DisconnectAlarmsEffect(b: Notifications.Book, newly: set<nat>, ts: int)
    requires newly <= {1, 2}
    ensures var r := DisconnectAlarms(b, newly, ts, 2);
      && (newly == {} ==> r == b)
      && (newly != {} ==> r.active == b.active["valve_alarm" := DisconnectRecord(if 2 in newly then 2 else 1, ts)])
      && r.outbox == b.outbox
        + (if newly != {} && "valve_alarm" !in b.active then [("valve_alarm", DisconnectRecord(if 1 in newly then 1 else 2, ts))] else [])
  {
    var r1 := DisconnectRecord(1, ts);
    var r2 := DisconnectRecord(2, ts);
    assert r1.value != r2.value by {
      assert r1.value.text[6] == '1' && r2.value.text[6] == '2';
    }
    var b1 := DisconnectAlarms(b, newly, ts, 1);
    assert DisconnectAlarms(b, newly, ts, 0) == b;
    assert b1 == if 1 in newly then Notifications.Trigger(b, "valve_alarm", r1) else b;
    assert 1 in newly ==> b1.active == b.active["valve_alarm" := r1];
  }

  /**
   * The coordinator's alarm decision, on a snapshot whose wireless section is the manager's
   * remembered values, is the disjunction of the notification conditions, except for its valve
   * part; a first valve at 4 is both, a second valve at 4 is both when there are two valves.
   */
  lemma AlarmAgreesWithNotifications(s: Snapshot, now: int)
    ensures AlarmActive(s) <==>
      Notifications.WaterAlarmRecord(s.water, now).Some? || Notifications.WaterLeakRecord(s.water, now).Some?
      || Notifications.WirelessLeakRecord(s.wireless, 1, now).Some? || Notifications.WirelessLeakRecord(s.wireless, 2, now).Some?
      || Notifications.LowBatteryRecord(s.wireless, now).Some? || ValveProblem(s.valve)
    ensures Get(s.valve, "valve_status1") == Some(4.0) ==> Notifications.ValveAlarmRecord(s.valve, now).Some? && ValveProblem(s.valve)
    ensures Get(s.valve, "valve_status2") == Some(4.0) && Get(s.valve, "num_valves").Some? && Get(s.valve, "num_valves").value >= 2.0
      ==> Notifications.ValveAlarmRecord(s.valve, now).Some? && ValveProblem(s.valve)
  {
    Notifications.LeakTypes();
  }

  /**
   * The valve conditions of the two decisions differ both ways: a first valve reporting 1087
   * makes the coordinator's alarm active but raises no valve notification, and a second valve
   * reporting 4 on a one-valve hub raises the notification but not the coordinator's alarm.
   */
  lemma ValveConditionsDiffer(now: int)
    ensures var valve := map["num_valves" := Some(1.0), "valve_status1" := Some(1087.0)];
      ValveProblem(valve) && Notifications.ValveAlarmRecord(valve, now).None?
    ensures var valve := map["num_valves" := Some(1.0), "valve_status1" := Some(3.0), "valve_status2" := Some(4.0)];
      !ValveProblem(valve) && Notifications.ValveAlarmRecord(valve, now).Some?
  {
    var valve := map["num_valves" := Some(1.0), "valve_status1" := Some(1087.0)];
    assert Get(valve, "valve_status1") == Some(1087.0);
    assert Get(valve, "valve_status2") == None;
    var other := map["num_valves" := Some(1.0), "valve_status1" := Some(3.0), "valve_status2" := Some(4.0)];
    assert Get(other, "num_valves") == Some(1.0);
    assert Get(other, "valve_status1") == Some(3.0);
    assert Get(other, "valve_status2") == Some(4.0);
  }

  // ---------------------------------------------------------------- the coordinator

  class UpdateCoordinator {
    const entityCache: EntityCache
    const machine: StateMachine
    var scanInterval: int
    var fastPollInterval: int
    var updateInterval: int
    var alarmActive: bool
    var updateCount: nat
    var lastWirelessData: Wireless
    var previousConnected: set<nat>
    var notifiedDisconnected: set<nat>
    /** The framework's `data` and `last_update_success`. */
    var data: Option<Snapshot>
    var lastUpdateSuccess: bool
    /** `_notification_manager`: null until notifications are set up, and when they are disabled. */
    var notificationManager: Notifications.NotificationManager?

    ghost predicate Valid()
      reads this, entityCache
    {
      entityCache.Valid() && entityCache.maxEntries == CacheDepth
      && updateInterval == (if alarmActive then fastPollInterval else scanInterval)
      && previousConnected <= {1, 2} && previousConnected !! notifiedDisconnected
    }

    /** The scan interval comes from the entry's options when set there. */
    constructor (scanOption: Option<int>, scanInterval: int, fastPollInterval: int)
      ensures Valid() && fresh(entityCache) && fresh(machine)
      ensures this.scanInterval == scanOption.GetOr(scanInterval) && this.fastPollInterval == fastPollInterval
      ensures updateInterval == this.scanInterval && !alarmActive && updateCount == 0
      ensures lastWirelessData == map[] && previousConnected == {} && notifiedDisconnected == {}
      ensures data.None? && lastUpdateSuccess && notificationManager == null
      ensures entityCache.cache == map[] && machine.alarmState == Normal && machine.valveState == UnknownValve
    {
      entityCache := new EntityCache(CacheDepth);
      machine := new StateMachine();
      this.scanInterval := scanOption.GetOr(scanInterval);
      this.fastPollInterval := fastPollInterval;
      updateInterval := scanOption.GetOr(scanInterval);
      alarmActive := false;
      updateCount := 0;
      lastWirelessData := map[];
      previousConnected := {};
      notifiedDisconnected := {};
      data := None;
      lastUpdateSuccess := true;
      notificationManager := null;
    }

    /**
     * `async_setup_notifications`: notifications are on unless the entry's options turn them off;
     * a new manager starts with empty tables, which its own setup clears once more.
     */
    method AsyncSetupNotifications(enableOption: Option<bool>)
      requires Valid()
      modifies this
      ensures Valid()
      ensures enableOption.GetOr(true) ==>
        && notificationManager != null && fresh(notificationManager)
        && notificationManager.Current() == Notifications.Book(map[], [])
        && notificationManager.lastStates == map[] && notificationManager.lastWirelessData == map[]
        && notificationManager.persistentNotifications && notificationManager.mobileNotifications
      ensures !enableOption.GetOr(true) ==> notificationManager == old(notificationManager)
      ensures scanInterval == old(scanInterval) && fastPollInterval == old(fastPollInterval) && updateInterval == old(updateInterval)
      ensures alarmActive == old(alarmActive) && updateCount == old(updateCount) && lastWirelessData == old(lastWirelessData)
      ensures previousConnected == old(previousConnected) && notifiedDisconnected == old(notifiedDisconnected)
      ensures data == old(data) && lastUpdateSuccess == old(lastUpdateSuccess)
    {
      if enableOption.GetOr(true) {
        var manager := new Notifications.NotificationManager();
        manager.ClearAllNotifications();
        notificationManager := manager;
      }
    }

    /** `_process_data_through_cache`. */
    method ProcessDataThroughCache(s: Snapshot, ts: int) returns (r: Snapshot)
      requires Valid()
      modifies this, entityCache
      ensures Valid()
      ensures entityCache.cache == CacheAll(old(entityCache.cache), s, ts, CacheDepth)
      ensures r == s.(wireless := if s.wireless != map[] then s.wireless else CachedWireless(entityCache.cache, Client.WirelessNames))
      ensures lastWirelessData == if s.wireless != map[] then old(lastWirelessData) + s.wireless else old(lastWirelessData)
      ensures scanInterval == old(scanInterval) && fastPollInterval == old(fastPollInterval) && updateInterval == old(updateInterval)
      ensures alarmActive == old(alarmActive) && updateCount == old(updateCount)
      ensures previousConnected == old(previousConnected) && notifiedDisconnected == old(notifiedDisconnected)
      ensures data == old(data) && lastUpdateSuccess == old(lastUpdateSuccess) && notificationManager == old(notificationManager)
    {
      CacheSection(entityCache, "water_", Present(s.water), ts);
      CacheSection(entityCache, "valve_", Present(s.valve), ts);
      r := s;
      if s.wireless != map[] {
        CacheSection(entityCache, "wireless_", s.wireless, ts);
        lastWirelessData := lastWirelessData + s.wireless;
      } else {
        var cached := LatestWireless(entityCache);
        if cached != map[] {
          r := r.(wireless := cached);
        }
      }
    }

    /** `_force_valve_sync`: the hub's fresh valve section, or None when reading it raised. */
    method ForceValveSync(resync: Option<Section>, ts: int)
      modifies machine
      ensures resync.Some? && resync.value != map[] && "valve_status1" in resync.value ==>
        machine.valveState == ValveStateOf(resync.value["valve_status1"])
        && machine.lastValveChangeTimestamp == if ValveStateOf(resync.value["valve_status1"]) != old(machine.valveState) then Some(ts) else old(machine.lastValveChangeTimestamp)
      ensures !(resync.Some? && resync.value != map[] && "valve_status1" in resync.value) ==>
        machine.valveState == old(machine.valveState) && machine.lastValveChangeTimestamp == old(machine.lastValveChangeTimestamp)
      ensures machine.alarmState == old(machine.alarmState) && machine.lastAlarmTimestamp == old(machine.lastAlarmTimestamp)
    {
      if resync.Some? && resync.value != map[] && "valve_status1" in resync.value {
        var changed := machine.UpdateValveState(resync.value["valve_status1"], ts);
      }
    }

    /**
     * The debounce part of `_update_state_machine`: report valves lost since the previous cycle,
     * once, and trigger a `valve_alarm` for each of them when there is a manager.
     */
    method TrackValves(current: set<nat>, ts: int) returns (newly: set<nat>)
      requires Valid() && current <= {1, 2}
      modifies this, notificationManager
      ensures Valid()
      ensures newly == NewlyDisconnected(old(previousConnected), old(notifiedDisconnected), current) && newly <= {1, 2}
      ensures notifiedDisconnected == NotifiedAfter(old(previousConnected), old(notifiedDisconnected), current)
      ensures previousConnected == current
      ensures notificationManager == old(notificationManager)
      ensures notificationManager != null ==>
        notificationManager.Current() == DisconnectAlarms(old(notificationManager.Current()), newly, ts, 2)
        && notificationManager.lastStates == old(notificationManager.lastStates)
        && notificationManager.lastWirelessData == old(notificationManager.lastWirelessData)
        && notificationManager.persistentNotifications == old(notificationManager.persistentNotifications)
        && notificationManager.mobileNotifications == old(notificationManager.mobileNotifications)
      ensures scanInterval == old(scanInterval) && fastPollInterval == old(fastPollInterval) && updateInterval == old(updateInterval)
      ensures alarmActive == old(alarmActive) && updateCount == old(updateCount) && lastWirelessData == old(lastWirelessData)
      ensures data == old(data) && lastUpdateSuccess == old(lastUpdateSuccess)
    {
      newly := {};
      if previousConnected != {} {
        newly := (previousConnected - current) - notifiedDisconnected;
        var manager := notificationManager;
        if manager != null {
          for idx := 1 to 3
            modifies manager
            invariant manager.Current() == DisconnectAlarms(old(manager.Current()), newly, ts, idx - 1)
            invariant manager.lastStates == old(manager.lastStates) && manager.lastWirelessData == old(manager.lastWirelessData)
            invariant manager.persistentNotifications == old(manager.persistentNotifications) && manager.mobileNotifications == old(manager.mobileNotifications)
          {
            if idx in newly {
              manager.TriggerAlarm("valve_alarm", DisconnectRecord(idx, ts));
            }
          }
        }
        notifiedDisconnected := notifiedDisconnected + newly;
      } else if notificationManager != null {
        DisconnectAlarmsEffect(notificationManager.Current(), newly, ts);
      }
      notifiedDisconnected := notifiedDisconnected - current;
      previousConnected := current;
    }

    /** `_update_state_machine`: the alarm state, the debounce sets, the valve state and the forced re-read. */
    method UpdateStateMachine(s: Snapshot, ts: int, resync: Option<Section>) returns (newly: set<nat>)
      requires Valid()
      modifies this, machine, notificationManager
      ensures Valid()
      ensures var current := ConnectedValves(s.valve);
        && newly == NewlyDisconnected(old(previousConnected), old(notifiedDisconnected), current)
        && notifiedDisconnected == NotifiedAfter(old(previousConnected), old(notifiedDisconnected), current)
        && previousConnected == current
      ensures notificationManager == old(notificationManager)
      ensures notificationManager != null ==>
        notificationManager.Current() == DisconnectAlarms(old(notificationManager.Current()), newly, ts, 2)
        && notificationManager.lastStates == old(notificationManager.lastStates)
        && notificationManager.lastWirelessData == old(notificationManager.lastWirelessData)
        && notificationManager.persistentNotifications == old(notificationManager.persistentNotifications)
        && notificationManager.mobileNotifications == old(notificationManager.mobileNotifications)
      ensures machine.alarmState == AlarmStateOf(AlarmActive(s))
      ensures machine.lastAlarmTimestamp == if AlarmStateOf(AlarmActive(s)) != old(machine.alarmState) then Some(ts) else old(machine.lastAlarmTimestamp)
      ensures (machine.valveState, machine.lastValveChangeTimestamp)
        == ValveAfter(machine.alarmState, old(machine.valveState), old(machine.lastValveChangeTimestamp), Get(s.valve, "valve_status1"), resync, ts)
      ensures scanInterval == old(scanInterval) && fastPollInterval == old(fastPollInterval) && updateInterval == old(updateInterval)
      ensures alarmActive == old(alarmActive) && updateCount == old(updateCount) && lastWirelessData == old(lastWirelessData)
      ensures data == old(data) && lastUpdateSuccess == old(lastUpdateSuccess)
    {
      var alarmChanged := machine.UpdateAlarmState(AlarmActive(s), ts);
      newly := TrackValves(ConnectedValves(s.valve), ts);
      var valveChanged := machine.UpdateValveState(Get(s.valve, "valve_status1"), ts);
      if machine.ShouldForceValveSync() {
        ForceValveSync(resync, ts);
      }
    }

    /** `_check_alarm_conditions`: the interval switches only on alarm edges. */
    method CheckAlarmConditions(s: Snapshot)
      requires Valid()
      modifies this
      ensures Valid()
      ensures alarmActive == AlarmActive(s)
      ensures updateInterval == if AlarmActive(s) == old(alarmActive) then old(updateInterval)
        else if AlarmActive(s) then fastPollInterval else scanInterval
      ensures scanInterval == old(scanInterval) && fastPollInterval == old(fastPollInterval)
      ensures updateCount == old(updateCount) && lastWirelessData == old(lastWirelessData)
      ensures previousConnected == old(previousConnected) && notifiedDisconnected == old(notifiedDisconnected)
      ensures data == old(data) && lastUpdateSuccess == old(lastUpdateSuccess) && notificationManager == old(notificationManager)
    {
      var active := AlarmActive(s);
      if active && !alarmActive {
        alarmActive := true;
        updateInterval := fastPollInterval;
      } else if !active && alarmActive {
        alarmActive := false;
        updateInterval := scanInterval;
      }
    }

    /** `async_update_options`, interval part: both intervals clamped; the one in use follows the alarm flag. */
    method UpdateOptions(scanOption: Option<int>, fastOption: Option<int>)
      requires Valid()
      modifies this
      ensures Valid()
      ensures scanInterval == ScanIntervalOption(scanOption) && fastPollInterval == FastPollIntervalOption(fastOption)
      ensures updateInterval == if alarmActive then fastPollInterval else scanInterval
      ensures alarmActive == old(alarmActive) && updateCount == old(updateCount) && lastWirelessData == old(lastWirelessData)
      ensures previousConnected == old(previousConnected) && notifiedDisconnected == old(notifiedDisconnected)
      ensures data == old(data) && lastUpdateSuccess == old(lastUpdateSuccess) && notificationManager == old(notificationManager)
    {
      var wasAlarmActive := alarmActive;
      scanInterval := ScanIntervalOption(scanOption);
      fastPollInterval := FastPollIntervalOption(fastOption);
      if wasAlarmActive {
        updateInterval := fastPollInterval;
      } else {
        updateInterval := scanInterval;
      }
    }

    /** The rest of a cycle once the hub delivered a snapshot: prepare, cache, state machine, intervals, notifications. */
    method ProcessDelivered(s: Snapshot, resync: Option<Section>, now: int) returns (published: Snapshot, newly: set<nat>)
      requires Valid()
      modifies this, entityCache, machine, notificationManager
      ensures Valid()
      ensures var p := Prepared(s, old(lastWirelessData));
        && entityCache.cache == CacheAll(old(entityCache.cache), p, now, CacheDepth)
        && published == p.(wireless := if p.wireless != map[] then p.wireless else CachedWireless(entityCache.cache, Client.WirelessNames))
        && lastWirelessData == (if p.wireless != map[] then old(lastWirelessData) + p.wireless else old(lastWirelessData))
      ensures alarmActive == AlarmActive(published) && machine.alarmState == AlarmStateOf(alarmActive)
      ensures machine.lastAlarmTimestamp == if machine.alarmState != old(machine.alarmState) then Some(now) else old(machine.lastAlarmTimestamp)
      ensures (machine.valveState, machine.lastValveChangeTimestamp)
        == ValveAfter(machine.alarmState, old(machine.valveState), old(machine.lastValveChangeTimestamp), Get(s.valve, "valve_status1"), resync, now)
      ensures newly == NewlyDisconnected(old(previousConnected), old(notifiedDisconnected), ConnectedValves(s.valve))
      ensures notifiedDisconnected == NotifiedAfter(old(previousConnected), old(notifiedDisconnected), ConnectedValves(s.valve))
      ensures previousConnected == ConnectedValves(s.valve)
      ensures updateInterval == if alarmActive == old(alarmActive) then old(updateInterval)
        else if alarmActive then fastPollInterval else scanInterval
      ensures notificationManager == old(notificationManager)
      ensures notificationManager != null ==>
        && notificationManager.Current()
          == Notifications.CheckAll(DisconnectAlarms(old(notificationManager.Current()), newly, now, 2), published, lastWirelessData, now)
        && notificationManager.lastWirelessData == lastWirelessData && notificationManager.lastStates == old(notificationManager.lastStates)
        && notificationManager.persistentNotifications == old(notificationManager.persistentNotifications)
        && notificationManager.mobileNotifications == old(notificationManager.mobileNotifications)
      ensures scanInterval == old(scanInterval) && fastPollInterval == old(fastPollInterval) && updateCount == old(updateCount)
      ensures data == old(data) && lastUpdateSuccess == old(lastUpdateSuccess)
    {
      var p := Prepared(s, lastWirelessData);
      published := ProcessDataThroughCache(p, now);
      newly := UpdateStateMachine(published, now, resync);
      CheckAlarmConditions(published);
      var manager := notificationManager;
      if manager != null {
        manager.AsyncCheckAlarms(published, lastWirelessData, now);
      }
    }

    /**
     * `_async_update_data`. The `UpdateFailed` raised for an empty result is itself caught by the
     * handler below it, so its message reaches the framework with the communication-error prefix.
     * The framework then records the result with `RecordResult`.
     */
    method AsyncUpdateData(poll: bool -> HubOutcome, resync: Option<Section>, now: int) returns (result: UpdateResult, newly: set<nat>)
      requires Valid()
      modifies this, entityCache, machine, notificationManager
      ensures Valid()
      ensures updateCount == old(updateCount) + 1
      ensures scanInterval == old(scanInterval) && fastPollInterval == old(fastPollInterval)
      ensures data == old(data) && lastUpdateSuccess == old(lastUpdateSuccess)
      ensures result.Failed? ==> StartsWith(result.message, ErrorPrefix)
      ensures var outcome := old(poll(ForceWireless(updateCount, alarmActive)));
        && (outcome.Raised? ==> result == if old(data).Some? && Transient(outcome.message) then Updated(old(data).value) else Failed(ErrorPrefix + outcome.message))
        && (outcome.NothingDelivered? ==> result == if old(data).Some? then Updated(old(data).value) else Failed(ErrorPrefix + NoDataMessage))
        && (outcome.Delivered? ==> result.Updated? && newly == NewlyDisconnected(old(previousConnected), old(notifiedDisconnected), ConnectedValves(outcome.snapshot.valve)))
      ensures var outcome := old(poll(ForceWireless(updateCount, alarmActive)));
        outcome.Delivered? ==>
          var p := Prepared(outcome.snapshot, old(lastWirelessData));
          && entityCache.cache == CacheAll(old(entityCache.cache), p, now, CacheDepth)
          && result.data == p.(wireless := if p.wireless != map[] then p.wireless else CachedWireless(entityCache.cache, Client.WirelessNames))
          && lastWirelessData == (if p.wireless != map[] then old(lastWirelessData) + p.wireless else old(lastWirelessData))
          && alarmActive == AlarmActive(result.data) && machine.alarmState == AlarmStateOf(alarmActive)
          && machine.lastAlarmTimestamp == (if machine.alarmState != old(machine.alarmState) then Some(now) else old(machine.lastAlarmTimestamp))
          && (machine.valveState, machine.lastValveChangeTimestamp)
            == ValveAfter(machine.alarmState, old(machine.valveState), old(machine.lastValveChangeTimestamp), Get(outcome.snapshot.valve, "valve_status1"), resync, now)
          && notifiedDisconnected == NotifiedAfter(old(previousConnected), old(notifiedDisconnected), ConnectedValves(outcome.snapshot.valve))
          && previousConnected == ConnectedValves(outcome.snapshot.valve)
          && updateInterval == (if alarmActive == old(alarmActive) then old(updateInterval) else if alarmActive then fastPollInterval else scanInterval)
      ensures notificationManager == old(notificationManager)
      ensures old(poll(ForceWireless(updateCount, alarmActive))).Delivered? && notificationManager != null ==>
        && notificationManager.Current()
          == Notifications.CheckAll(DisconnectAlarms(old(notificationManager.Current()), newly, now, 2), result.data, lastWirelessData, now)
        && notificationManager.lastWirelessData == lastWirelessData && notificationManager.lastStates == old(notificationManager.lastStates)
        && notificationManager.persistentNotifications == old(notificationManager.persistentNotifications)
        && notificationManager.mobileNotifications == old(notificationManager.mobileNotifications)
      ensures !old(poll(ForceWireless(updateCount, alarmActive))).Delivered? ==>
        && newly == {} && entityCache.cache == old(entityCache.cache)
        && machine.alarmState == old(machine.alarmState) && machine.valveState == old(machine.valveState)
        && machine.lastAlarmTimestamp == old(machine.lastAlarmTimestamp) && machine.lastValveChangeTimestamp == old(machine.lastValveChangeTimestamp)
        && alarmActive == old(alarmActive) && updateInterval == old(updateInterval) && lastWirelessData == old(lastWirelessData)
        && previousConnected == old(previousConnected) && notifiedDisconnected == old(notifiedDisconnected)
        && (notificationManager != null ==> unchanged(notificationManager))
    {
      // The source increments the count before calling the hub; nothing in between reads it.
      var force := ForceWireless(updateCount, alarmActive);
      newly := {};
      var outcome := poll(force);
      match outcome {
        case Raised(message) =>
          if data.Some? && Transient(message) {
            result := Updated(data.value);
          } else {
            result := Failed(ErrorPrefix + message);
            StartsWithConcat(ErrorPrefix, message);
          }
        case NothingDelivered =>
          if data.Some? {
            result := Updated(data.value);
          } else {
            result := Failed(ErrorPrefix + NoDataMessage);
            StartsWithConcat(ErrorPrefix, NoDataMessage);
          }
        case Delivered(s) =>
          var published;
          published, newly := ProcessDelivered(s, resync, now);
          result := Updated(published);
      }
      updateCount := updateCount + 1;
    }

    /** The framework's bookkeeping after an update: a success becomes the data, a failure keeps the previous data. */
    method RecordResult(result: UpdateResult)
      requires Valid()
      modifies this`data, this`lastUpdateSuccess
      ensures Valid()
      ensures data == (if result.Updated? then Some(result.data) else old(data)) && lastUpdateSuccess == result.Updated?
    {
      lastUpdateSuccess := result.Updated?;
      if result.Updated? {
        data := Some(result.data);
      }
    }
  }
}
