/**
 * Alarm de-duplication of `NotificationManager`
 * (custom_components/waterguard_linkbox/notifications.py): `_active_alarms` maps an alarm type
 * to the record of its last trigger, and a notification goes out only when a type becomes
 * active. Sending itself (persistent notifications, mobile pushes, their texts) is represented
 * by appending the type and record to an outbox. Time is a parameter, in seconds.
 */
module Notifications {
  import opened Wrappers
  import opened Status
  import Client

  /** The `value` of an alarm record: a reading, a message, or a battery voltage as written with two decimals. */
  datatype AlarmValue = Reading(reading: real) | Message(text: string) | Volts(hundredths: int)

  datatype AlarmRecord = AlarmRecord(value: AlarmValue, timestamp: int, sensor: string)

  /** The active alarms and the notifications sent so far. */
  datatype Book = Book(active: map<string, AlarmRecord>, outbox: seq<(string, AlarmRecord)>)

  // ---------------------------------------------------------------- trigger and clear

  /** `_trigger_alarm`. */
  function Trigger(b: Book, alarmType: string, rec: AlarmRecord): Book
  {
    if alarmType !in b.active then Book(b.active[alarmType := rec], b.outbox + [(alarmType, rec)])
    else
      var existing := b.active[alarmType];
      if existing.value != rec.value || existing.sensor != rec.sensor then Book(b.active[alarmType := rec], b.outbox)
      else Book(b.active[alarmType := existing.(timestamp := rec.timestamp)], b.outbox)
  }

  /** `_clear_alarm`: deleting an absent type is a no-op. */
  function Clear(b: Book, alarmType: string): Book
  {
    Book(b.active - {alarmType}, b.outbox)
  }

  /** What a check does for one alarm type: trigger with the record when the condition holds, clear otherwise. */
  function Decide(b: Book, alarmType: string, rec: Option<AlarmRecord>): Book
  {
    match rec
    case Some(r) => Trigger(b, alarmType, r)
    case None => Clear(b, alarmType)
  }

  /**
   * A trigger sends exactly when the type was not active; a repeat with another value or sensor
   * replaces the record, a repeat with the same value and sensor updates only the timestamp.
   */
  lemma TriggerSendsOnlyWhenNew(b: Book, alarmType: string, rec: AlarmRecord)
    ensures var r := Trigger(b, alarmType, rec);
      && (alarmType !in b.active ==> r.outbox == b.outbox + [(alarmType, rec)] && r.active == b.active[alarmType := rec])
      && (alarmType in b.active ==> r.outbox == b.outbox)
      && (alarmType in b.active && (b.active[alarmType].value != rec.value || b.active[alarmType].sensor != rec.sensor) ==>
            r.active == b.active[alarmType := rec])
      && (alarmType in b.active && b.active[alarmType].value == rec.value && b.active[alarmType].sensor == rec.sensor ==>
            r.active == b.active[alarmType := b.active[alarmType].(timestamp := rec.timestamp)])
      && alarmType in r.active && r.active[alarmType].timestamp == rec.timestamp
  {
  }

  /** After a clear the type is inactive, so its next trigger sends again; clearing an inactive type changes nothing. */
  lemma ClearThenTriggerSends(b: Book, alarmType: string, rec: AlarmRecord)
    ensures Trigger(Clear(b, alarmType), alarmType, rec).outbox == b.outbox + [(alarmType, rec)]
    ensures alarmType !in b.active ==> Clear(b, alarmType) == b
  {
    assert (b.active - {alarmType}).Keys == b.active.Keys - {alarmType};
    if alarmType !in b.active {
      assert b.active - {alarmType} == b.active;
    }
  }

  /** Deciding the same type twice with the same record is deciding it once: the repeat sends nothing. */
  lemma DecideIdempotent(b: Book, alarmType: string, rec: Option<AlarmRecord>)
    ensures Decide(Decide(b, alarmType, rec), alarmType, rec) == Decide(b, alarmType, rec)
  {
    if rec.None? {
      assert b.active - {alarmType} - {alarmType} == b.active - {alarmType};
    } else {
      var r := rec.value;
      var once := Trigger(b, alarmType, r);
      assert once.active[alarmType].value == r.value && once.active[alarmType].sensor == r.sensor;
      assert once.active[alarmType := once.active[alarmType].(timestamp := r.timestamp)] == once.active;
    }
  }

  /** A decision touches only its own type and only appends to the outbox. */
  lemma DecideOthers(b: Book, alarmType: string, rec: Option<AlarmRecord>, other: string)
    requires other != alarmType
    ensures (other in Decide(b, alarmType, rec).active) == (other in b.active)
    ensures other in b.active ==> Decide(b, alarmType, rec).active[other] == b.active[other]
    ensures (alarmType in Decide(b, alarmType, rec).active) == rec.Some?
    ensures Decide(b, alarmType, rec).outbox == b.outbox
      || (rec.Some? && alarmType !in b.active && Decide(b, alarmType, rec).outbox == b.outbox + [(alarmType, rec.value)])
  {
  }

  // ---------------------------------------------------------------- the checks

  function Digit(i: nat): char
    requires i < 10
  {
    ('0' as int + i) as char
  }

  function LeakKey(i: nat): string requires i < 10 { "leak" + [Digit(i)] }
  function LeakType(i: nat): string requires i < 10 { "wireless_leak_" + [Digit(i)] }
  function LeakSensor(i: nat): string requires i < 10 { "wireless_leak_sensor_" + [Digit(i)] }

  /** The record a reading of at least 1.0 triggers; None (clear) for a missing or lower reading. */
  function ReadingRecord(v: Option<real>, now: int, sensor: string): (r: Option<AlarmRecord>)
    ensures r.Some? <==> v.Some? && v.value >= 1.0
  {
    if v.Some? && v.value >= 1.0 then Some(AlarmRecord(Reading(v.value), now, sensor)) else None
  }

  function WaterAlarmRecord(water: Section, now: int): Option<AlarmRecord>
  {
    ReadingRecord(Get(water, "alarm"), now, "system_alarm")
  }

  function WaterLeakRecord(water: Section, now: int): Option<AlarmRecord>
  {
    ReadingRecord(Get(water, "leak1"), now, "sensor_tape")
  }

  function WirelessLeakRecord(w: Wireless, i: nat, now: int): Option<AlarmRecord>
    requires i < 10
  {
    ReadingRecord(GetWireless(w, LeakKey(i)), now, LeakSensor(i))
  }

  /** The valve alarm's message lists the valves whose status is 4. */
  function ValveMessage(first: bool, second: bool): string
  {
    "Valve(s) disconnected: " + (if first && second then "valve 1, valve 2" else if first then "valve 1" else "valve 2")
  }

  /** Only the status code 4 raises the valve alarm. */
  function ValveAlarmRecord(valve: Section, now: int): (r: Option<AlarmRecord>)
    ensures r.Some? <==> Get(valve, "valve_status1") == Some(4.0) || Get(valve, "valve_status2") == Some(4.0)
  {
    var first := Get(valve, "valve_status1") == Some(4.0);
    var second := Get(valve, "valve_status2") == Some(4.0);
    if first || second then Some(AlarmRecord(Message(ValveMessage(first, second)), now, "valve_system")) else None
  }

  /** The battery voltage rendered with two decimals: rounded to hundredths, ties to even. */
  function VoltsOf(v: real): AlarmValue
  {
    Volts(Client.RoundHalfEven(v * 100.0))
  }

  function LowBatteryRecord(w: Wireless, now: int): (r: Option<AlarmRecord>)
    ensures r.Some? <==> "battery_voltage" in w && w["battery_voltage"] < 2.5
  {
    if "battery_voltage" in w && w["battery_voltage"] < 2.5
    then Some(AlarmRecord(VoltsOf(w["battery_voltage"]), now, "wireless_sensor_battery"))
    else None
  }

  /** Every section of the snapshot is empty. */
  predicate NoData(s: Snapshot)
  {
    s.water == map[] && s.valve == map[] && s.device == map[] && s.wireless == map[]
  }

  function ConnectionLostRecord(s: Snapshot, now: int): (r: Option<AlarmRecord>)
    ensures r.Some? <==> NoData(s)
  {
    if NoData(s) then Some(AlarmRecord(Message("No data received"), now, "hub_connection")) else None
  }

  /** The wireless leak checks for indices 1 to n. */
  function LeakChecks(b: Book, w: Wireless, now: int, n: nat): Book
    requires n <= 2
  {
    if n == 0 then b else Decide(LeakChecks(b, w, now, n - 1), LeakType(n), WirelessLeakRecord(w, n, now))
  }

  /** `_check_water_alarms`, whose wireless part reads the manager's remembered wireless values. */
  function WaterCheck(b: Book, water: Section, w: Wireless, now: int): Book
  {
    var b1 := Decide(b, "water_alarm", WaterAlarmRecord(water, now));
    var b2 := Decide(b1, "water_leak", WaterLeakRecord(water, now));
    LeakChecks(b2, w, now, 2)
  }

  /** `_check_wireless_alarms`. */
  function WirelessCheck(b: Book, w: Wireless, now: int): Book
  {
    LeakChecks(Decide(b, "low_battery", LowBatteryRecord(w, now)), w, now, 2)
  }

  /** `async_check_alarms`: water, valve, wireless, connection. */
  function CheckAll(b: Book, s: Snapshot, w: Wireless, now: int): Book
  {
    var b1 := WaterCheck(b, s.water, w, now);
    var b2 := Decide(b1, "valve_alarm", ValveAlarmRecord(s.valve, now));
    var b3 := WirelessCheck(b2, w, now);
    Decide(b3, "connection_lost", ConnectionLostRecord(s, now))
  }

  lemma LeakTypes()
    ensures LeakType(1) == "wireless_leak_1" && LeakType(2) == "wireless_leak_2"
    ensures LeakKey(1) == "leak1" && LeakKey(2) == "leak2"
  {
  }

  /** The leak checks decide only the two leak types. */
  lemma {:induction false} LeakChecksOthers(b: Book, w: Wireless, now: int, n: nat, other: string)
    requires n <= 2 && other != LeakType(1) && other != LeakType(2)
    ensures (other in LeakChecks(b, w, now, n).active) == (other in b.active)
    ensures other in b.active ==> LeakChecks(b, w, now, n).active[other] == b.active[other]
  {
    if n > 0 {
      LeakChecksOthers(b, w, now, n - 1, other);
      DecideOthers(LeakChecks(b, w, now, n - 1), LeakType(n), WirelessLeakRecord(w, n, now), other);
    }
  }

  /** After the leak checks, leak type i is active exactly when leak i reads at least 1.0. */
  lemma LeakChecksActive(b: Book, w: Wireless, now: int)
    ensures (LeakType(1) in LeakChecks(b, w, now, 2).active) == WirelessLeakRecord(w, 1, now).Some?
    ensures (LeakType(2) in LeakChecks(b, w, now, 2).active) == WirelessLeakRecord(w, 2, now).Some?
    ensures WirelessLeakRecord(w, 1, now).Some? ==>
      LeakChecks(b, w, now, 2).active[LeakType(1)].value == WirelessLeakRecord(w, 1, now).value.value
      && LeakChecks(b, w, now, 2).active[LeakType(1)].sensor == LeakSensor(1)
    ensures WirelessLeakRecord(w, 2, now).Some? ==>
      LeakChecks(b, w, now, 2).active[LeakType(2)].value == WirelessLeakRecord(w, 2, now).value.value
      && LeakChecks(b, w, now, 2).active[LeakType(2)].sensor == LeakSensor(2)
  {
    LeakTypes();
    var b1 := LeakChecks(b, w, now, 1);
    DecideOthers(b1, LeakType(2), WirelessLeakRecord(w, 2, now), LeakType(1));
  }

  /**
   * The second pass of the leak checks, against the values the first pass saw and with those
   * alarms still recorded, sends nothing.
   */
  lemma SecondLeakPassSendsNothing(b: Book, w: Wireless, now: int)
    requires forall i :: 1 <= i <= 2 && WirelessLeakRecord(w, i, now).Some? ==>
      LeakType(i) in b.active && b.active[LeakType(i)].value == WirelessLeakRecord(w, i, now).value.value
      && b.active[LeakType(i)].sensor == LeakSensor(i)
    ensures LeakChecks(b, w, now, 2).outbox == b.outbox
  {
    LeakTypes();
    var r1 := WirelessLeakRecord(w, 1, now);
    var r2 := WirelessLeakRecord(w, 2, now);
    assert LeakChecks(b, w, now, 0) == b;
    var b1 := Decide(b, LeakType(1), r1);
    assert r1.Some? ==> LeakType(1) in b.active;
    assert b1.outbox == b.outbox;
    DecideOthers(b, LeakType(1), r1, LeakType(2));
    assert r2.Some? ==> LeakType(2) in b1.active;
    assert LeakChecks(b, w, now, 2) == Decide(b1, LeakType(2), r2);
  }

  /** Which alarm types a full check leaves active, for each type. */
  lemma CheckAllActive(b: Book, s: Snapshot, w: Wireless, now: int)
    ensures var r := CheckAll(b, s, w, now).active;
      && ("water_alarm" in r <==> AtLeastOne(Get(s.water, "alarm")))
      && ("water_leak" in r <==> AtLeastOne(Get(s.water, "leak1")))
      && ("valve_alarm" in r <==> Get(s.valve, "valve_status1") == Some(4.0) || Get(s.valve, "valve_status2") == Some(4.0))
      && ("low_battery" in r <==> LowBattery(w))
      && ("wireless_leak_1" in r <==> AtLeastOne(GetWireless(w, "leak1")))
      && ("wireless_leak_2" in r <==> AtLeastOne(GetWireless(w, "leak2")))
      && ("connection_lost" in r <==> NoData(s))
  {
    LeakTypes();
    var b0 := Decide(b, "water_alarm", WaterAlarmRecord(s.water, now));
    var b1 := Decide(b0, "water_leak", WaterLeakRecord(s.water, now));
    var b2 := LeakChecks(b1, w, now, 2);
    var b3 := Decide(b2, "valve_alarm", ValveAlarmRecord(s.valve, now));
    var b4 := Decide(b3, "low_battery", LowBatteryRecord(w, now));
    var b5 := LeakChecks(b4, w, now, 2);
    var b6 := Decide(b5, "connection_lost", ConnectionLostRecord(s, now));
    DecideOthers(b0, "water_leak", WaterLeakRecord(s.water, now), "water_alarm");
    LeakChecksOthers(b1, w, now, 2, "water_alarm");
    LeakChecksOthers(b1, w, now, 2, "water_leak");
    DecideOthers(b2, "valve_alarm", ValveAlarmRecord(s.valve, now), "water_alarm");
    DecideOthers(b2, "valve_alarm", ValveAlarmRecord(s.valve, now), "water_leak");
    DecideOthers(b3, "low_battery", LowBatteryRecord(w, now), "water_alarm");
    DecideOthers(b3, "low_battery", LowBatteryRecord(w, now), "water_leak");
    DecideOthers(b3, "low_battery", LowBatteryRecord(w, now), "valve_alarm");
    LeakChecksOthers(b4, w, now, 2, "water_alarm");
    LeakChecksOthers(b4, w, now, 2, "water_leak");
    LeakChecksOthers(b4, w, now, 2, "valve_alarm");
    LeakChecksOthers(b4, w, now, 2, "low_battery");
    LeakChecksActive(b4, w, now);
    DecideOthers(b5, "connection_lost", ConnectionLostRecord(s, now), "water_alarm");
    DecideOthers(b5, "connection_lost", ConnectionLostRecord(s, now), "water_leak");
    DecideOthers(b5, "connection_lost", ConnectionLostRecord(s, now), "valve_alarm");
    DecideOthers(b5, "connection_lost", ConnectionLostRecord(s, now), "low_battery");
    DecideOthers(b5, "connection_lost", ConnectionLostRecord(s, now), LeakType(1));
    DecideOthers(b5, "connection_lost", ConnectionLostRecord(s, now), LeakType(2));
  }

  /** The wireless leak alarms are checked twice per cycle against the same values; the second check sends nothing. */
  lemma WirelessRecheckSendsNothing(b: Book, s: Snapshot, w: Wireless, now: int)
    ensures var b3 := Decide(WaterCheck(b, s.water, w, now), "valve_alarm", ValveAlarmRecord(s.valve, now));
      var b4 := Decide(b3, "low_battery", LowBatteryRecord(w, now));
      LeakChecks(b4, w, now, 2).outbox == b4.outbox
  {
    LeakTypes();
    var b1 := Decide(Decide(b, "water_alarm", WaterAlarmRecord(s.water, now)), "water_leak", WaterLeakRecord(s.water, now));
    var b2 := LeakChecks(b1, w, now, 2);
    var b3 := Decide(b2, "valve_alarm", ValveAlarmRecord(s.valve, now));
    var b4 := Decide(b3, "low_battery", LowBatteryRecord(w, now));
    LeakChecksActive(b1, w, now);
    forall i | 1 <= i <= 2 && WirelessLeakRecord(w, i, now).Some?
      ensures LeakType(i) in b4.active && b4.active[LeakType(i)].value == WirelessLeakRecord(w, i, now).value.value
        && b4.active[LeakType(i)].sensor == LeakSensor(i)
    {
      DecideOthers(b2, "valve_alarm", ValveAlarmRecord(s.valve, now), LeakType(i));
      DecideOthers(b3, "low_battery", LowBatteryRecord(w, now), LeakType(i));
    }
    SecondLeakPassSendsNothing(b4, w, now);
  }

  // ---------------------------------------------------------------- the manager

  class NotificationManager {
    var activeAlarms: map<string, AlarmRecord>
    var lastStates: map<string, AlarmValue>
    var lastWirelessData: Wireless
    var persistentNotifications: bool
    var mobileNotifications: bool
    /** The notifications sent, oldest first. */
    var outbox: seq<(string, AlarmRecord)>

    function Current(): Book
      reads this
    {
      Book(activeAlarms, outbox)
    }

    constructor ()
      ensures activeAlarms == map[] && lastStates == map[] && lastWirelessData == map[] && outbox == []
      ensures persistentNotifications && mobileNotifications
    {
      activeAlarms := map[];
      lastStates := map[];
      lastWirelessData := map[];
      persistentNotifications := true;
      mobileNotifications := true;
      outbox := [];
    }

    method TriggerAlarm(alarmType: string, rec: AlarmRecord)
      modifies this
      ensures Current() == Trigger(old(Current()), alarmType, rec)
      ensures lastStates == old(lastStates) && lastWirelessData == old(lastWirelessData)
      ensures persistentNotifications == old(persistentNotifications) && mobileNotifications == old(mobileNotifications)
    {
      if alarmType !in activeAlarms {
        activeAlarms := activeAlarms[alarmType := rec];
        outbox := outbox + [(alarmType, rec)];
      } else {
        var existing := activeAlarms[alarmType];
        if existing.value != rec.value || existing.sensor != rec.sensor {
          activeAlarms := activeAlarms[alarmType := rec];
        } else {
          activeAlarms := activeAlarms[alarmType := existing.(timestamp := rec.timestamp)];
        }
      }
    }

    method ClearAlarm(alarmType: string)
      modifies this
      ensures Current() == Clear(old(Current()), alarmType)
      ensures lastStates == old(lastStates) && lastWirelessData == old(lastWirelessData)
      ensures persistentNotifications == old(persistentNotifications) && mobileNotifications == old(mobileNotifications)
    {
      if alarmType in activeAlarms {
        activeAlarms := activeAlarms - {alarmType};
      }
    }

    /** The trigger-or-clear step every check performs for one alarm type. */
    method Apply(alarmType: string, rec: Option<AlarmRecord>)
      modifies this
      ensures Current() == Decide(old(Current()), alarmType, rec)
      ensures lastStates == old(lastStates) && lastWirelessData == old(lastWirelessData)
      ensures persistentNotifications == old(persistentNotifications) && mobileNotifications == old(mobileNotifications)
    {
      if rec.Some? {
        TriggerAlarm(alarmType, rec.value);
      } else {
        ClearAlarm(alarmType);
      }
    }

    /** The loop over leak indices 1 and 2. */
    method CheckLeaks(w: Wireless, now: int)
      modifies this
      ensures Current() == LeakChecks(old(Current()), w, now, 2)
      ensures lastStates == old(lastStates) && lastWirelessData == old(lastWirelessData)
      ensures persistentNotifications == old(persistentNotifications) && mobileNotifications == old(mobileNotifications)
    {
      for i := 1 to 3
        invariant Current() == LeakChecks(old(Current()), w, now, i - 1)
        invariant lastStates == old(lastStates) && lastWirelessData == old(lastWirelessData)
        invariant persistentNotifications == old(persistentNotifications) && mobileNotifications == old(mobileNotifications)
      {
        Apply(LeakType(i), WirelessLeakRecord(w, i, now));
      }
    }

    /** `_check_water_alarms`. */
    method CheckWaterAlarms(water: Section, now: int)
      modifies this
      ensures Current() == WaterCheck(old(Current()), water, lastWirelessData, now)
      ensures lastStates == old(lastStates) && lastWirelessData == old(lastWirelessData)
      ensures persistentNotifications == old(persistentNotifications) && mobileNotifications == old(mobileNotifications)
    {
      Apply("water_alarm", WaterAlarmRecord(water, now));
      Apply("water_leak", WaterLeakRecord(water, now));
      CheckLeaks(lastWirelessData, now);
    }

    /** `_check_valve_alarms`. */
    method CheckValveAlarms(valve: Section, now: int)
      modifies this
      ensures Current() == Decide(old(Current()), "valve_alarm", ValveAlarmRecord(valve, now))
      ensures lastStates == old(lastStates) && lastWirelessData == old(lastWirelessData)
      ensures persistentNotifications == old(persistentNotifications) && mobileNotifications == old(mobileNotifications)
    {
      Apply("valve_alarm", ValveAlarmRecord(valve, now));
    }

    /** `_check_wireless_alarms`. */
    method CheckWirelessAlarms(w: Wireless, now: int)
      modifies this
      ensures Current() == WirelessCheck(old(Current()), w, now)
      ensures lastStates == old(lastStates) && lastWirelessData == old(lastWirelessData)
      ensures persistentNotifications == old(persistentNotifications) && mobileNotifications == old(mobileNotifications)
    {
      Apply("low_battery", LowBatteryRecord(w, now));
      CheckLeaks(w, now);
    }

    /** `_check_connection_status`. */
    method CheckConnectionStatus(s: Snapshot, now: int)
      modifies this
      ensures Current() == Decide(old(Current()), "connection_lost", ConnectionLostRecord(s, now))
      ensures lastStates == old(lastStates) && lastWirelessData == old(lastWirelessData)
      ensures persistentNotifications == old(persistentNotifications) && mobileNotifications == old(mobileNotifications)
    {
      Apply("connection_lost", ConnectionLostRecord(s, now));
    }

    /** `async_check_alarms`: the wireless checks use the coordinator's remembered wireless values. */
    method AsyncCheckAlarms(s: Snapshot, lastWireless: Wireless, now: int)
      modifies this
      ensures lastWirelessData == lastWireless
      ensures Current() == CheckAll(old(Current()), s, lastWireless, now)
      ensures lastStates == old(lastStates)
      ensures persistentNotifications == old(persistentNotifications) && mobileNotifications == old(mobileNotifications)
    {
      lastWirelessData := lastWireless;
      CheckWaterAlarms(s.water, now);
      CheckValveAlarms(s.valve, now);
      CheckWirelessAlarms(lastWirelessData, now);
      CheckConnectionStatus(s, now);
    }

    /** `clear_all_notifications`: the dismissals are not modelled; both tables end empty. */
    method ClearAllNotifications()
      modifies this
      ensures activeAlarms == map[] && lastStates == map[]
      ensures outbox == old(outbox) && lastWirelessData == old(lastWirelessData)
      ensures persistentNotifications == old(persistentNotifications) && mobileNotifications == old(mobileNotifications)
    {
      activeAlarms := map[];
      lastStates := map[];
    }

    /** `update_notification_settings` for the two channels. */
    method UpdateNotificationSettings(persistent: bool, mobile: bool)
      modifies this
      ensures persistentNotifications == persistent && mobileNotifications == mobile
      ensures Current() == old(Current()) && lastStates == old(lastStates) && lastWirelessData == old(lastWirelessData)
    {
      persistentNotifications := persistent;
      mobileNotifications := mobile;
    }

    /**
     * `is_notification_due` as written: a record made by the manager's checks carries a time-zone-aware
     * UTC instant while the clock it is compared with is naive local time, so with a channel enabled
     * and the type active the subtraction raises (None here) instead of answering. The coordinator's
     * naive `valve_alarm` records would not raise, but the same cycle's check replaces or clears them,
     * so between cycles every record is the manager's; the model's records carry no clock kind.
     */
    function DueAsWritten(alarmType: string): Option<bool>
      reads this
    {
      if !persistentNotifications && !mobileNotifications then Some(false)
      else if alarmType in activeAlarms then None
      else Some(false)
    }

    /** `is_notification_due` with both instants on the same clock: some channel is enabled and the type's record is more than a minute old. */
    predicate IsNotificationDue(alarmType: string, now: int)
      reads this
    {
      (persistentNotifications || mobileNotifications)
      && alarmType in activeAlarms && now - activeAlarms[alarmType].timestamp > 60
    }
  }

  /** As written, asking about any alarm recorded by the manager's checks (the state between cycles), with a channel enabled, raises instead of answering. */
  lemma DueAsWrittenRaises(m: NotificationManager, alarmType: string, rec: AlarmRecord)
    requires m.persistentNotifications || m.mobileNotifications
    ensures alarmType in Trigger(m.Current(), alarmType, rec).active
    ensures alarmType in m.activeAlarms ==> m.DueAsWritten(alarmType).None?
    ensures m.DueAsWritten(alarmType).Some? ==> m.DueAsWritten(alarmType) == Some(false)
  {
  }

  /** Nothing is due with both channels off, nor for an inactive type; a record refreshed now is not due. */
  lemma NotificationDueCases(m: NotificationManager, alarmType: string, now: int)
    ensures !m.persistentNotifications && !m.mobileNotifications ==> !m.IsNotificationDue(alarmType, now)
    ensures alarmType !in m.activeAlarms ==> !m.IsNotificationDue(alarmType, now)
    ensures alarmType in m.activeAlarms && m.activeAlarms[alarmType].timestamp == now ==> !m.IsNotificationDue(alarmType, now)
    ensures (m.persistentNotifications || m.mobileNotifications) && alarmType in m.activeAlarms
      ==> (m.IsNotificationDue(alarmType, now) <==> now > m.activeAlarms[alarmType].timestamp + 60)
  {
  }
}
