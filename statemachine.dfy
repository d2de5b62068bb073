/**
 * `StateMachine` (custom_components/waterguard_linkbox/coordinator.py): the alarm and valve
 * states the coordinator keeps, each overwritten only when the normalised state changes.
 */
module StateMachines {
  import opened Wrappers
  import opened Const

  /** "resetting" is named as a possible alarm state but nothing ever sets it. */
  datatype AlarmState = Normal | Active

  datatype ValveState = UnknownValve | Open | Closed | Disconnected

  function AlarmStateOf(alarmActive: bool): AlarmState
  {
    if alarmActive then Active else Normal
  }

  /** The valve state a status code stands for; a missing status is unknown. */
  function ValveStateOf(status: Option<real>): ValveState
  {
    match status
    case None => UnknownValve
    case Some(v) =>
      if v == 3.0 then Open else if v == 2.0 then Closed else if IsDisconnectedCode(v) then Disconnected else UnknownValve
  }

  /** The state machine reads each code as the valve-status table labels it; other codes are unknown. */
  lemma ValveStateAgreesWithLabels(v: real)
    ensures ValveStateOf(Some(v)) == Open <==> ValveStatusLabel(v) == Some("open")
    ensures ValveStateOf(Some(v)) == Closed <==> ValveStatusLabel(v) == Some("closed")
    ensures ValveStateOf(Some(v)) == Disconnected <==> ValveStatusLabel(v) == Some("disconnected")
    ensures ValveStateOf(Some(v)) == UnknownValve <==> ValveStatusLabel(v).None? || ValveStatusLabel(v) == Some("unknown")
  {
    if v.Floor as real == v && v.Floor in ValveStatusLabels {
      var n := v.Floor;
      assert n == 1 || n == 2 || n == 3 || n == 4 || n == 1087;
    }
  }

  class StateMachine {
    var alarmState: AlarmState
    var valveState: ValveState
    var lastAlarmTimestamp: Option<int>
    var lastValveChangeTimestamp: Option<int>

    constructor ()
      ensures alarmState == Normal && valveState == UnknownValve
      ensures lastAlarmTimestamp.None? && lastValveChangeTimestamp.None?
    {
      alarmState := Normal;
      valveState := UnknownValve;
      lastAlarmTimestamp := None;
      lastValveChangeTimestamp := None;
    }

    /** `update_alarm_state`: true exactly when the state changes, and only then are state and timestamp written. */
    method UpdateAlarmState(alarmActive: bool, timestamp: int) returns (changed: bool)
      modifies this
      ensures changed <==> AlarmStateOf(alarmActive) != old(alarmState)
      ensures alarmState == AlarmStateOf(alarmActive)
      ensures lastAlarmTimestamp == if changed then Some(timestamp) else old(lastAlarmTimestamp)
      ensures valveState == old(valveState) && lastValveChangeTimestamp == old(lastValveChangeTimestamp)
    {
      var newState := AlarmStateOf(alarmActive);
      if newState != alarmState {
        alarmState := newState;
        lastAlarmTimestamp := Some(timestamp);
        return true;
      }
      return false;
    }

    /** `update_valve_state`: true exactly when the mapped valve state changes, and only then are state and timestamp written. */
    method UpdateValveState(status: Option<real>, timestamp: int) returns (changed: bool)
      modifies this
      ensures changed <==> ValveStateOf(status) != old(valveState)
      ensures valveState == ValveStateOf(status)
      ensures lastValveChangeTimestamp == if changed then Some(timestamp) else old(lastValveChangeTimestamp)
      ensures alarmState == old(alarmState) && lastAlarmTimestamp == old(lastAlarmTimestamp)
    {
      var newState := ValveStateOf(status);
      if newState != valveState {
        valveState := newState;
        lastValveChangeTimestamp := Some(timestamp);
        return true;
      }
      return false;
    }

    /** `should_force_valve_sync`: no alarm, and the valve state is unknown or disconnected. */
    predicate ShouldForceValveSync()
      reads this
    {
      alarmState == Normal && (valveState == UnknownValve || valveState == Disconnected)
    }
  }
}
