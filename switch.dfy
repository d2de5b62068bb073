/**
 * `WaterguardSwitch` (custom_components/waterguard_linkbox/switch.py): the valve control switch,
 * on while the first valve is open, available while the valve system is connected.
 */
module Switches {
  import opened Wrappers
  import opened Status
  import opened Cache
  import Const
  import StateMachines
  import BinarySensors

  const ValveCacheKey := "valve_valve_status1"

  /** The first valve's status, falling back to its newest cached reading. */
  function ValveStatus(s: Snapshot, cache: map<string, seq<Reading>>): (r: Option<real>)
    ensures Get(s.valve, "valve_status1").Some? ==> r == Get(s.valve, "valve_status1")
    ensures Get(s.valve, "valve_status1").None? ==> r == (if Latest(Stored(cache, ValveCacheKey)).Some? then Some(Latest(Stored(cache, ValveCacheKey)).value.value) else None)
  {
    var v := Get(s.valve, "valve_status1");
    if v.None? && ValveCacheKey in cache && |cache[ValveCacheKey]| > 0
    then Some(cache[ValveCacheKey][|cache[ValveCacheKey]| - 1].value)
    else v
  }

  /** `is_on`: off without a snapshot; otherwise on exactly for the open code 3. */
  predicate IsOn(data: Option<Snapshot>, cache: map<string, seq<Reading>>)
  {
    match data
    case None => false
    case Some(s) =>
      var v := ValveStatus(s, cache);
      if v.None? then false
      else if v.value == 3.0 then true
      else if v.value == 2.0 then false
      else if v.value == 4.0 || v.value == 1087.0 then false
      else false
  }

  /** The switch is on exactly when the state machine reads the same status as an open valve. */
  lemma IsOnIsOpen(data: Option<Snapshot>, cache: map<string, seq<Reading>>)
    ensures IsOn(data, cache) <==> data.Some? && StateMachines.ValveStateOf(ValveStatus(data.value, cache)) == StateMachines.Open
    ensures data.None? ==> !IsOn(data, cache)
  {
  }

  /** `available`: a snapshot, and after a successful update a connected valve system with at least one valve. */
  predicate Available(data: Option<Snapshot>, success: bool)
  {
    match data
    case None => false
    case Some(s) =>
      if !success then true
      else
        var n := Get(s.valve, "num_valves");
        var s1 := Get(s.valve, "valve_status1");
        if n == Some(319.0) then false
        else if s1 == Some(4.0) || s1 == Some(1087.0) then false
        else n.Some? && n.value >= 1.0
  }

  /**
   * After a successful update the switch is available exactly when the valve system and the first
   * valve are connected and a valve is counted; when it is available the valve-disconnected binary
   * sensor can only be on for the second valve.
   */
  lemma AvailableMeansConnected(s: Snapshot, success: bool)
    ensures !Available(None, success)
    ensures !success ==> Available(Some(s), success)
    ensures success ==> (Available(Some(s), success) <==>
      Get(s.valve, "num_valves") != Some(319.0)
      && !(Get(s.valve, "valve_status1").Some? && Const.IsDisconnectedCode(Get(s.valve, "valve_status1").value))
      && Get(s.valve, "num_valves").Some? && Get(s.valve, "num_valves").value >= 1.0)
    ensures success && Available(Some(s), success) && BinarySensors.ValveDisconnectedOf(s.valve) ==>
      Get(s.valve, "valve_status2").Some? && Const.IsDisconnectedCode(Get(s.valve, "valve_status2").value)
  {
  }
}
