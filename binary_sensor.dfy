/**
 * `WaterguardBinarySensor` (custom_components/waterguard_linkbox/binary_sensor.py): the on/off
 * state of the water, valve, hub and wireless leak sensors, read from the coordinator's snapshot
 * with the entity cache as a fallback. Wireless sensors remember their last state so that it
 * survives the sensor's sleep. Every reading is a number here, so the parse failures the source
 * guards against cannot occur.
 */
module BinarySensors {
  import opened Wrappers
  import opened Status
  import opened Cache
  import Text
  import Coordinator

  datatype BinaryKey = WaterAlarm | WaterLeak1 | ValveDisconnected | HubConnected | WirelessLeak1 | WirelessLeak2

  function KeyName(key: BinaryKey): string
  {
    match key
    case WaterAlarm => "water_alarm"
    case WaterLeak1 => "water_leak1"
    case ValveDisconnected => "valve_disconnected"
    case HubConnected => "hub_connected"
    case WirelessLeak1 => "wireless_leak1"
    case WirelessLeak2 => "wireless_leak2"
  }

  predicate IsWireless(key: BinaryKey)
  {
    key.WirelessLeak1? || key.WirelessLeak2?
  }

  /** The wireless sensors are the keys named with the "wireless_" prefix. */
  lemma IsWirelessByName(key: BinaryKey)
    ensures IsWireless(key) <==> Text.StartsWith(KeyName(key), "wireless_")
  {
    if !IsWireless(key) {
      assert KeyName(key)[0] != 'w' || KeyName(key)[1] != 'i';
    }
  }

  /** The key's section of the snapshot and the cache prefix the coordinator stores it under. */
  function SectionPrefix(key: BinaryKey): string
  {
    match key
    case WaterAlarm => "water_"
    case WaterLeak1 => "water_"
    case ValveDisconnected => "valve_"
    case HubConnected => ""
    case WirelessLeak1 => "wireless_"
    case WirelessLeak2 => "wireless_"
  }

  function DataKey(key: BinaryKey): string
  {
    match key
    case WaterAlarm => "alarm"
    case WaterLeak1 => "leak1"
    case ValveDisconnected => "valve_status1"
    case HubConnected => ""
    case WirelessLeak1 => "leak1"
    case WirelessLeak2 => "leak2"
  }

  function CacheKey(key: BinaryKey): string
  {
    match key
    case WaterAlarm => "water_alarm"
    case WaterLeak1 => "water_leak1"
    case ValveDisconnected => "valve_valve_status1"
    case HubConnected => ""
    case WirelessLeak1 => "wireless_leak1"
    case WirelessLeak2 => "wireless_leak2"
  }

  /** The cache key of a sensor is the key the coordinator stores that reading under. */
  lemma CacheKeyIsStoredKey(key: BinaryKey)
    ensures CacheKey(key) == SectionPrefix(key) + DataKey(key)
  {
  }

  /** `data.get(section, {}).get(data_key)`. */
  function CurrentValue(s: Snapshot, key: BinaryKey): Option<real>
  {
    match key
    case WaterAlarm => Get(s.water, DataKey(key))
    case WaterLeak1 => Get(s.water, DataKey(key))
    case ValveDisconnected => Get(s.valve, DataKey(key))
    case HubConnected => None
    case WirelessLeak1 => GetWireless(s.wireless, DataKey(key))
    case WirelessLeak2 => GetWireless(s.wireless, DataKey(key))
  }

  /** A missing value is replaced by the newest cached reading when the cache holds one. */
  function WithCache(v: Option<real>, cache: map<string, seq<Reading>>, cacheKey: string): (r: Option<real>)
    ensures v.Some? ==> r == v
    ensures v.None? && Latest(Stored(cache, cacheKey)).Some? ==> r == Some(Latest(Stored(cache, cacheKey)).value.value)
    ensures v.None? && Stored(cache, cacheKey) == [] ==> r.None?
  {
    if v.None? && cacheKey in cache && |cache[cacheKey]| > 0 then Some(cache[cacheKey][|cache[cacheKey]| - 1].value) else v
  }

  /** Water sensors: no value is unknown, a value outside [0, 10] is off, any positive value is on. */
  function WaterStateOf(v: Option<real>): (r: Option<bool>)
    ensures r.None? <==> v.None?
    ensures r == Some(true) <==> v.Some? && 0.0 < v.value <= 10.0
  {
    match v
    case None => None
    case Some(x) =>
      if !(0.0 <= x <= 10.0) then Some(false)
      else if x >= 1.0 then Some(true)
      else if x > 0.0 then Some(true)
      else Some(false)
  }

  /** Wireless leak sensors: a value outside [0, 2] is dry, otherwise wet from 1.0 on. */
  function LeakStateOf(x: real): (r: bool)
    ensures r <==> 1.0 <= x <= 2.0
  {
    if !(0.0 <= x <= 2.0) then false else x >= 1.0
  }

  /** `valve_disconnected`: the whole valve system at 319, valve 1 at 4 or 1087, or valve 2 at those with two valves. */
  predicate ValveDisconnectedOf(valve: Section)
  {
    var n := Get(valve, "num_valves");
    var s1 := Get(valve, "valve_status1");
    var s2 := Get(valve, "valve_status2");
    if n == Some(319.0) then true
    else if s1 == Some(4.0) || s1 == Some(1087.0) then true
    else n.Some? && n.value != 0.0 && n.value >= 2.0 && (s2 == Some(4.0) || s2 == Some(1087.0))
  }

  /** The state answered and the last known state kept afterwards. */
  datatype Outcome = Outcome(state: Option<bool>, lastKnown: Option<bool>)

  /** `is_on` for one sensor, given the snapshot, the update flag, the cache and the stored last known state. */
  function IsOnOf(key: BinaryKey, data: Option<Snapshot>, success: bool, cache: map<string, seq<Reading>>, last: Option<bool>): Outcome
  {
    match data
    case None => Outcome(if IsWireless(key) then last else None, last)
    case Some(s) =>
      if key.HubConnected? then Outcome(Some(success), last)
      else
        var v := WithCache(CurrentValue(s, key), cache, CacheKey(key));
        if key.WaterAlarm? || key.WaterLeak1? then Outcome(WaterStateOf(v), last)
        else if key.ValveDisconnected? then Outcome(Some(ValveDisconnectedOf(s.valve)), last)
        else if v.None? then Outcome(last, last)
        else Outcome(Some(LeakStateOf(v.value)), Some(LeakStateOf(v.value)))
  }

  /** `valve_disconnected` is the coordinator's valve part of the alarm decision, and ignores the cache. */
  lemma ValveDisconnectedIsValveProblem(valve: Section)
    ensures ValveDisconnectedOf(valve) <==> Coordinator.ValveProblem(valve)
  {
  }

  /** Only a wireless sensor changes its remembered state, and only to the state it answers from a value. */
  lemma IsOnKeepsLastUnlessWirelessValue(key: BinaryKey, data: Option<Snapshot>, success: bool, cache: map<string, seq<Reading>>, last: Option<bool>)
    ensures var o := IsOnOf(key, data, success, cache, last);
      && (o.lastKnown != last ==> IsWireless(key) && data.Some? && o.state.Some? && o.lastKnown == o.state)
      && (IsWireless(key) && data.Some? ==> o.lastKnown == o.state || o.state == last)
  {
  }

  /**
   * A sleeping wireless sensor, whose value is missing from both snapshot and cache, shows the
   * state of its last reading; so does a sensor when the coordinator has no snapshot at all.
   */
  lemma WirelessSleepKeepsState(key: BinaryKey, s: Snapshot, asleep: Option<Snapshot>, success: bool, cache: map<string, seq<Reading>>, last: Option<bool>)
    requires IsWireless(key) && CurrentValue(s, key).Some?
    requires asleep.Some? ==> CurrentValue(asleep.value, key).None? && Stored(cache, CacheKey(key)) == []
    ensures var first := IsOnOf(key, Some(s), success, cache, last);
      var second := IsOnOf(key, asleep, success, cache, first.lastKnown);
      && first.state == Some(LeakStateOf(CurrentValue(s, key).value))
      && second.state == first.state && second.lastKnown == first.lastKnown
  {
  }

  /** Water sensors answer from the current value, falling back to the cache, and never remember anything. */
  lemma WaterSensorState(key: BinaryKey, s: Snapshot, success: bool, cache: map<string, seq<Reading>>, last: Option<bool>)
    requires key.WaterAlarm? || key.WaterLeak1?
    ensures var o := IsOnOf(key, Some(s), success, cache, last);
      var v := WithCache(CurrentValue(s, key), cache, CacheKey(key));
      && o.lastKnown == last
      && (o.state.None? <==> v.None?)
      && (o.state == Some(true) <==> v.Some? && 0.0 < v.value <= 10.0)
  {
  }

  /**
   * A water alarm reading of 0.5 shows the water alarm sensor on although the coordinator's
   * alarm decision, which needs 1.0, stays off.
   */
  lemma IntermediateWaterValueOnWithoutAlarm(success: bool, cache: map<string, seq<Reading>>)
    ensures var s := Snapshot(map["alarm" := Some(0.5)], map[], map[], map[]);
      IsOnOf(WaterAlarm, Some(s), success, cache, None).state == Some(true) && !Coordinator.AlarmActive(s)
  {
    var s := Snapshot(map["alarm" := Some(0.5)], map[], map[], map[]);
    assert CurrentValue(s, WaterAlarm) == Some(0.5);
    assert Get(s.water, "leak1") == None;
    assert Get(s.valve, "num_valves") == None && Get(s.valve, "valve_status1") == None;
  }

  /** `available`, given the snapshot, the update flag and the stored last known state. */
  predicate AvailableOf(key: BinaryKey, data: Option<Snapshot>, success: bool, last: Option<bool>)
  {
    match data
    case None => false
    case Some(s) =>
      if !success then true
      else if key.WaterAlarm? || key.WaterLeak1? then Get(s.water, DataKey(key)).Some?
      else if key.ValveDisconnected? then "num_valves" in s.valve
      else if IsWireless(key) then GetWireless(s.wireless, DataKey(key)).Some? || last.Some?
      else true
  }

  /**
   * Without a snapshot nothing is available; after a failed update with a snapshot everything is;
   * otherwise water sensors need their value and wireless sensors a value or a remembered state.
   */
  lemma AvailabilityCases(key: BinaryKey, data: Option<Snapshot>, success: bool, last: Option<bool>)
    ensures data.None? ==> !AvailableOf(key, data, success, last)
    ensures data.Some? && !success ==> AvailableOf(key, data, success, last)
    ensures data.Some? && success && (key.WaterAlarm? || key.WaterLeak1?) ==>
      (AvailableOf(key, data, success, last) <==> CurrentValue(data.value, key).Some?)
    ensures data.Some? && success && IsWireless(key) ==>
      (AvailableOf(key, data, success, last) <==> CurrentValue(data.value, key).Some? || last.Some?)
  {
  }

  class WaterguardBinarySensor {
    const key: BinaryKey
    var lastKnownState: Option<bool>

    constructor (key: BinaryKey)
      ensures this.key == key && lastKnownState.None?
    {
      this.key := key;
      lastKnownState := None;
    }

    /** `is_on`: the cache lookup takes the newest reading off and puts it back, leaving the cache as it was. */
    method IsOn(c: Coordinator.UpdateCoordinator) returns (state: Option<bool>)
      requires c.Valid()
      modifies this, c.entityCache
      ensures c.entityCache.cache == old(c.entityCache.cache) && c.entityCache.Valid()
      ensures var o := IsOnOf(key, c.data, c.lastUpdateSuccess, old(c.entityCache.cache), old(lastKnownState));
        state == o.state && lastKnownState == o.lastKnown
    {
      if c.data.None? {
        if IsWireless(key) {
          return lastKnownState;
        }
        return None;
      }
      if key.HubConnected? {
        return Some(c.lastUpdateSuccess);
      }
      var s := c.data.value;
      var value := CurrentValue(s, key);
      if value.None? && c.entityCache.HasEntityData(CacheKey(key)) {
        var stamp;
        value, stamp := c.entityCache.GetLatestReading(CacheKey(key));
      }
      if key.WaterAlarm? || key.WaterLeak1? {
        return WaterStateOf(value);
      } else if key.ValveDisconnected? {
        return Some(ValveDisconnectedOf(s.valve));
      } else {
        if value.None? {
          return lastKnownState;
        }
        var current := LeakStateOf(value.value);
        lastKnownState := Some(current);
        return Some(current);
      }
    }

    predicate Available(c: Coordinator.UpdateCoordinator)
      reads this, c
    {
      AvailableOf(key, c.data, c.lastUpdateSuccess, lastKnownState)
    }
  }
}
