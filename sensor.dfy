/**
 * `WaterguardSensor` (custom_components/waterguard_linkbox/sensor.py): the valve count, the
 * valve status sensors and the wireless measurements. A valve status sensor remembers the last
 * stable state (open or closed) to tell opening from closing while the hub reports motion
 * (319); a wireless sensor remembers its last value to show it while the sensor sleeps.
 */
module Sensors {
  import opened Wrappers
  import opened Status
  import opened Const
  import Text
  import StateMachines
  import Coordinator

  datatype SensorKey = NumValves | ValveStatus1 | ValveStatus2 | WirelessTemperature | WirelessHumidity | WirelessBattery

  function KeyName(key: SensorKey): string
  {
    match key
    case NumValves => "num_valves"
    case ValveStatus1 => "valve_status1"
    case ValveStatus2 => "valve_status2"
    case WirelessTemperature => "wireless_temperature"
    case WirelessHumidity => "wireless_humidity"
    case WirelessBattery => "wireless_battery"
  }

  predicate IsWireless(key: SensorKey)
  {
    key.WirelessTemperature? || key.WirelessHumidity? || key.WirelessBattery?
  }

  lemma IsWirelessByName(key: SensorKey)
    ensures IsWireless(key) <==> Text.StartsWith(KeyName(key), "wireless_")
  {
    if !IsWireless(key) {
      assert KeyName(key)[0] != 'w';
    }
  }

  /** The key a sensor reads in its section: the valve section for the first three, the wireless section otherwise. */
  function DataKey(key: SensorKey): string
  {
    match key
    case NumValves => "num_valves"
    case ValveStatus1 => "valve_status1"
    case ValveStatus2 => "valve_status2"
    case WirelessTemperature => "temperature"
    case WirelessHumidity => "humidity"
    case WirelessBattery => "battery"
  }

  function CurrentValue(s: Snapshot, key: SensorKey): Option<real>
  {
    if IsWireless(key) then GetWireless(s.wireless, DataKey(key)) else Get(s.valve, DataKey(key))
  }

  /** A value shown: a word, a number rendered as text, or a number passed through. */
  datatype Shown = Label(text: string) | Rendered(number: real) | Numeric(number: real)

  /** While the valve moves: opening from closed, closing from open, otherwise just moving. */
  function Motion(lastStable: Option<string>): string
  {
    if lastStable == Some("closed") then "opening" else if lastStable == Some("open") then "closing" else "moving"
  }

  /** A valve status and the last stable state it leaves. */
  function ValveDisplay(v: real, lastStable: Option<string>): (Shown, Option<string>)
  {
    if v == 319.0 then (Label(Motion(lastStable)), lastStable)
    else
      match ValveStatusLabel(v)
      case Some(word) => (Label(word), if word == "open" || word == "closed" then Some(word) else lastStable)
      case None => (Rendered(v), lastStable)
  }

  /**
   * The valve display agrees with the state machine's reading of the code: the shown label is
   * "open" or "closed" exactly when the state machine says so, and only those update the last
   * stable state.
   */
  lemma ValveDisplayAgreesWithStateMachine(v: real, lastStable: Option<string>)
    ensures var (shown, stable) := ValveDisplay(v, lastStable);
      && (shown == Label("open") <==> StateMachines.ValveStateOf(Some(v)) == StateMachines.Open)
      && (shown == Label("closed") <==> StateMachines.ValveStateOf(Some(v)) == StateMachines.Closed)
      && (stable != lastStable ==> stable.Some? && shown == Label(stable.value))
      && (stable == Some("open") || stable == Some("closed") || stable == lastStable)
  {
    StateMachines.ValveStateAgreesWithLabels(v);
    if v == 319.0 {
      assert ValveStatusLabel(319.0).None?;
    }
  }

  /** What a run of valve status codes leaves as the last stable state. */
  function LastStable(init: Option<string>, codes: seq<real>): Option<string>
  {
    if codes == [] then init else ValveDisplay(codes[|codes| - 1], LastStable(init, codes[..|codes| - 1])).1
  }

  /** What a valve status sensor shows for each code of a run. */
  function ShownRun(init: Option<string>, codes: seq<real>): (r: seq<Shown>)
    ensures |r| == |codes|
  {
    if codes == [] then []
    else ShownRun(init, codes[..|codes| - 1]) + [ValveDisplay(codes[|codes| - 1], LastStable(init, codes[..|codes| - 1])).0]
  }

  /** Within a run, a motion code shows the direction away from the last open or closed code before it. */
  lemma {:induction false} MotionFollowsLastStable(init: Option<string>, codes: seq<real>, j: nat)
    requires j < |codes| && codes[j] == 319.0
    ensures ShownRun(init, codes)[j] == Label(Motion(LastStable(init, codes[..j])))
  {
    var n := |codes| - 1;
    if j < n {
      assert codes[..n][j] == codes[j];
      MotionFollowsLastStable(init, codes[..n], j);
      assert codes[..n][..j] == codes[..j];
    } else {
      assert codes[..j] == codes[..n];
    }
  }

  /** Between a run's open or closed code and the next one, the last stable state is the label of that code. */
  lemma {:induction false} LastStableAfterMotion(init: Option<string>, codes: seq<real>, k: nat)
    requires k <= |codes| && forall i :: k <= i < |codes| ==> codes[i] == 319.0
    ensures LastStable(init, codes) == LastStable(init, codes[..k])
  {
    if k < |codes| {
      var n := |codes| - 1;
      LastStableAfterMotion(init, codes[..n], k);
      assert codes[..n][..k] == codes[..k];
    } else {
      assert codes[..k] == codes;
    }
  }

  /** The value shown, the remembered wireless value and the last stable valve state afterwards. */
  datatype Outcome = Outcome(value: Option<Shown>, lastKnown: Option<Shown>, lastStable: Option<string>)

  /** `native_value` for one sensor. */
  function NativeValueOf(key: SensorKey, data: Option<Snapshot>, lastKnown: Option<Shown>, lastStable: Option<string>): Outcome
  {
    var empty := Outcome(if IsWireless(key) then lastKnown else None, lastKnown, lastStable);
    match data
    case None => empty
    case Some(s) =>
      match CurrentValue(s, key)
      case None => empty
      case Some(v) =>
        if key.NumValves? then Outcome(Some(Rendered(v)), lastKnown, lastStable)
        else if key.ValveStatus1? || key.ValveStatus2? then
          var (shown, stable) := ValveDisplay(v, lastStable);
          Outcome(Some(shown), lastKnown, stable)
        else if key.WirelessBattery? then Outcome(Some(Numeric(v)), Some(Numeric(v)), lastStable)
        else Outcome(Some(Rendered(v)), Some(Rendered(v)), lastStable)
  }

  /**
   * A present value is always shown; a wireless sensor remembers it and shows it again while its
   * value is missing or there is no snapshot, and a non-wireless sensor then shows nothing.
   */
  lemma NativeValueRemembers(key: SensorKey, data: Option<Snapshot>, lastKnown: Option<Shown>, lastStable: Option<string>)
    ensures var o := NativeValueOf(key, data, lastKnown, lastStable);
      && (data.Some? && CurrentValue(data.value, key).Some? ==> o.value.Some?)
      && (IsWireless(key) && o.value.Some? ==> o.lastKnown == o.value)
      && (!IsWireless(key) ==> o.lastKnown == lastKnown)
      && (IsWireless(key) ==> o.lastStable == lastStable)
      && (data.None? || CurrentValue(data.value, key).None? ==>
            o.lastKnown == lastKnown && o.lastStable == lastStable && o.value == (if IsWireless(key) then lastKnown else None))
  {
  }

  /** The battery sensor passes the number through; the other readings are shown as text. */
  lemma NativeValueForms(key: SensorKey, s: Snapshot, lastKnown: Option<Shown>, lastStable: Option<string>)
    requires CurrentValue(s, key).Some?
    ensures var v := CurrentValue(s, key).value; var o := NativeValueOf(key, Some(s), lastKnown, lastStable);
      && (key.WirelessBattery? ==> o.value == Some(Numeric(v)))
      && (key.NumValves? || key.WirelessTemperature? || key.WirelessHumidity? ==> o.value == Some(Rendered(v)))
  {
  }

  /** `available`, given the snapshot, the update flag and the remembered wireless value. */
  predicate AvailableOf(key: SensorKey, data: Option<Snapshot>, success: bool, lastKnown: Option<Shown>)
  {
    match data
    case None => false
    case Some(s) =>
      if !success then true
      else if key.ValveStatus2? then
        var n := Get(s.valve, "num_valves");
        n.Some? && n.value >= 2.0
      else if IsWireless(key) then CurrentValue(s, key).Some? || lastKnown.Some?
      else DataKey(key) in s.valve || |s.valve| > 0
  }

  /** After a successful update, the second valve's status is available exactly when there are at least two valves. */
  lemma SecondValveAvailability(s: Snapshot, lastKnown: Option<Shown>)
    ensures AvailableOf(ValveStatus2, Some(s), true, lastKnown) <==>
      Get(s.valve, "num_valves").Some? && Get(s.valve, "num_valves").value >= 2.0
    ensures !AvailableOf(ValveStatus2, None, true, lastKnown)
    ensures AvailableOf(ValveStatus2, Some(s), false, lastKnown)
  {
  }

  /**
   * On a hub reporting the two-valve code, the second remap as written leaves the second valve's
   * status sensor unavailable; the corrected preparation makes it available.
   */
  lemma SecondValveShownOnlyWhenCountKept(s: Snapshot, lastWireless: Wireless, lastKnown: Option<Shown>)
    requires s.valve == Coordinator.HubCount(3)
    ensures !AvailableOf(ValveStatus2, Some(Coordinator.PreparedAsWritten(s, lastWireless)), true, lastKnown)
    ensures AvailableOf(ValveStatus2, Some(Coordinator.Prepared(s, lastWireless)), true, lastKnown)
  {
    Coordinator.RemapAgainLosesSecondValve(s, lastWireless, 3);
    Coordinator.PreparedKeepsHubCount(s, lastWireless, 3);
  }

  class WaterguardSensor {
    const key: SensorKey
    var lastKnownValue: Option<Shown>
    var lastStableValveState: Option<string>

    constructor (key: SensorKey)
      ensures this.key == key && lastKnownValue.None? && lastStableValveState.None?
    {
      this.key := key;
      lastKnownValue := None;
      lastStableValveState := None;
    }

    /** `native_value`. */
    method NativeValue(c: Coordinator.UpdateCoordinator) returns (r: Option<Shown>)
      modifies this
      ensures var o := NativeValueOf(key, c.data, old(lastKnownValue), old(lastStableValveState));
        r == o.value && lastKnownValue == o.lastKnown && lastStableValveState == o.lastStable
    {
      if c.data.None? {
        return if IsWireless(key) then lastKnownValue else None;
      }
      var value := CurrentValue(c.data.value, key);
      if value.None? {
        return if IsWireless(key) then lastKnownValue else None;
      }
      var v := value.value;
      if key.NumValves? {
        return Some(Rendered(v));
      }
      var processed: Shown;
      if key.ValveStatus1? || key.ValveStatus2? {
        if v == 319.0 {
          processed := Label(Motion(lastStableValveState));
        } else {
          match ValveStatusLabel(v)
          case Some(word) =>
            processed := Label(word);
            if word == "open" || word == "closed" {
              lastStableValveState := Some(word);
            }
          case None =>
            processed := Rendered(v);
        }
      } else if key.WirelessBattery? {
        processed := Numeric(v);
      } else {
        processed := Rendered(v);
      }
      if IsWireless(key) {
        lastKnownValue := Some(processed);
      }
      return Some(processed);
    }

    predicate Available(c: Coordinator.UpdateCoordinator)
      reads this, c
    {
      AvailableOf(key, c.data, c.lastUpdateSuccess, lastKnownValue)
    }
  }
}
