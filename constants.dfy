/** Fixed tables of the integration: object identifiers, defaults and state labels. */
module Const {
  import opened Wrappers

  /** A BACnet object: its type number and its instance number on the hub. */
  datatype ObjectRef = ObjectRef(objectType: nat, instance: nat)

  const AnalogInput: nat := 0
  const DeviceObject: nat := 8
  const MultiStateInput: nat := 13
  const MultiStateOutput: nat := 14
  const NotificationClass: nat := 20

  const DefaultPort: nat := 47808
  const DefaultScanInterval: int := 2
  const DefaultFastPollInterval: int := 1

  /** The present-value property, read unless another one is named. */
  const PresentValue: nat := 85
  const ObjectNameProperty: nat := 77
  const FirmwareRevisionProperty: nat := 139
  const ApplicationVersionProperty: nat := 12

  /** The wired water objects, in the order the hub reads them. */
  const WaterObjects: seq<(string, ObjectRef)> :=
    [("alarm", ObjectRef(0, 7)), ("leak1", ObjectRef(0, 9)), ("reset_leak", ObjectRef(14, 10))]

  const NumValvesObject := ObjectRef(13, 3)
  const ValveStatus1Object := ObjectRef(13, 5)
  const ValveStatus2Object := ObjectRef(13, 6)
  const ValveControlObject := ObjectRef(14, 1)
  const ResetLeakObject := ObjectRef(14, 10)

  /** The wireless sensor objects, in the order the hub reads them. */
  const WirelessSensorObjects: seq<(string, ObjectRef)> :=
    [("leak1", ObjectRef(0, 11)), ("leak2", ObjectRef(0, 12)), ("temperature", ObjectRef(0, 13)),
     ("humidity", ObjectRef(0, 14)), ("battery_voltage", ObjectRef(0, 15))]

  const ResetValues: map<string, int> := map["water_leak" := 2, "water_alarm" := 2]

  /** Labels of valve status codes. */
  const ValveStatusLabels: map<int, string> :=
    map[1 := "unknown", 2 := "closed", 3 := "open", 4 := "disconnected", 1087 := "disconnected"]

  /** Labels of the codes written to the valve control object. */
  const ValveControlLabels: map<int, string> := map[1 := "n/a", 2 := "close", 3 := "open"]

  const ResetLeakLabels: map<int, string> := map[1 := "n/a", 2 := "reset"]

  /** The status codes that mean a valve is not connected. */
  predicate IsDisconnectedCode(v: real)
  {
    v == 4.0 || v == 1087.0
  }

  /** The table lookup using a float key, as Python's dict lookup does for `3.0`. */
  function ValveStatusLabel(v: real): (r: Option<string>)
    ensures r == Some("disconnected") <==> IsDisconnectedCode(v)
    ensures r.Some? ==> v.Floor as real == v && v.Floor in ValveStatusLabels && r.value == ValveStatusLabels[v.Floor]
    ensures r.None? ==> v.Floor as real != v || v.Floor !in ValveStatusLabels
  {
    if v.Floor as real == v && v.Floor in ValveStatusLabels then Some(ValveStatusLabels[v.Floor]) else None
  }
}
