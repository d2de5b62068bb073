/**
 * The hub client (custom_components/waterguard_linkbox/hub.py): reading the wired water and
 * valve objects, writing valve and reset commands, discovering and polling the wireless sensors.
 * The hub is a Device: what it answers to each decoded request on each attempt. The client's
 * frames reach it through Wire, and read operations also return the objects they read, in order.
 */
module Client {
  import opened Wrappers
  import opened Bytes
  import opened Const
  import opened Codec
  import opened Transport
  import opened Status
  import opened Text

  // ---------------------------------------------------------------- the device and the wire

  /** The hub's answer, if any, to a request on a given attempt. */
  type Device = Link<Request>

  /** The byte-level link: a frame reaches the device as the request it decodes to; others go unanswered. */
  function Wire(dev: Device): Link<seq<byte>>
  {
    (frame: seq<byte>, k: nat) => match DecodeRequest(frame) case Some(q) => dev(q, k) case None => None
  }

  /** Sending a frame gets the device's reply to the request the frame carries. */
  lemma WireReply(dev: Device, frame: seq<byte>, q: Request, retries: nat)
    requires DecodeRequest(frame) == Some(q)
    ensures Reply(Wire(dev), frame, retries) == Reply(dev, q, retries)
  {
    ReplyFromAgrees(Wire(dev), frame, dev, q, 0, retries);
  }

  /** `_send_request` on a frame that encodes `q`. */
  method Exchange(dev: Device, frame: seq<byte>, ghost q: Request, retries: nat) returns (reply: Option<seq<byte>>)
    requires DecodeRequest(frame) == Some(q)
    ensures reply == Reply(dev, q, retries)
  {
    WireReply(dev, frame, q, retries);
    reply := SendRequest(Wire(dev), frame, retries);
  }

  /** Builds the ReadProperty frame for (`objectType`, `instance`, `property`) and sends it. */
  method Fetch(dev: Device, objectType: nat, instance: nat, property: nat, retries: nat) returns (reply: Option<seq<byte>>)
    requires ValidObject(objectType, instance) && property < 0x100_0000
    ensures reply == Reply(dev, ReadRequest(objectType, instance, property), retries)
  {
    var frame := ReadPropertyRequest(objectType, instance, property);
    ReadRequestRoundTrip(objectType, instance, property);
    reply := Exchange(dev, frame, ReadRequest(objectType, instance, property), retries);
  }

  // ---------------------------------------------------------------- single reads

  /** The request for the present value of `obj`. */
  function ReadOf(obj: ObjectRef): Request
  {
    ReadRequest(obj.objectType, obj.instance, PresentValue)
  }

  /** A non-empty reply parsed for `obj`; no reply or an empty one gives None. */
  function ObjectReading(dev: Device, obj: ObjectRef, expected: Option<Range>, key: string, retries: nat): Option<real>
  {
    match Reply(dev, ReadOf(obj), retries)
    case None => None
    case Some(r) => if |r| > 0 then ParseValue(r, obj.objectType, expected, key) else None
  }

  method ReadObject(dev: Device, obj: ObjectRef, expected: Option<Range>, key: string, retries: nat)
    returns (v: Option<real>)
    requires ValidObject(obj.objectType, obj.instance)
    ensures v == ObjectReading(dev, obj, expected, key, retries)
  {
    var reply := Fetch(dev, obj.objectType, obj.instance, PresentValue, retries);
    v := if reply.Some? && |reply.value| > 0 then ParseValue(reply.value, obj.objectType, expected, key) else None;
  }

  /** Range passed when reading a wired water object. */
  function WaterRange(key: string): Option<Range>
  {
    if key == "alarm" || key == "leak1" then Some(Range(0.0, 1.0)) else None
  }

  /** `_get_expected_range`. */
  function ExpectedRange(key: string): Option<Range>
  {
    if key == "leak1" || key == "leak2" then Some(Range(0.0, 1.0))
    else if key == "temperature" then Some(Range(-50.0, 100.0))
    else if key == "humidity" then Some(Range(0.0, 150.0))
    else if key == "battery_voltage" then Some(Range(0.0, 5.0))
    else None
  }

  predicate ValidObjects(objs: seq<(string, ObjectRef)>)
  {
    forall j :: 0 <= j < |objs| ==> ValidObject(objs[j].1.objectType, objs[j].1.instance)
  }

  /** The water section after reading `objs` in order; notification-class objects are skipped. */
  function WaterSection(dev: Device, objs: seq<(string, ObjectRef)>): Section
  {
    if objs == [] then map[]
    else
      var (key, obj) := objs[|objs| - 1];
      var acc := WaterSection(dev, objs[..|objs| - 1]);
      if obj.objectType == NotificationClass then acc else acc[key := ObjectReading(dev, obj, WaterRange(key), key, 2)]
  }

  /** The objects `read_water_status` reads from `objs`, in order. */
  function WaterObjectsRead(objs: seq<(string, ObjectRef)>): seq<ObjectRef>
  {
    if objs == [] then []
    else
      var obj := objs[|objs| - 1].1;
      WaterObjectsRead(objs[..|objs| - 1]) + (if obj.objectType == NotificationClass then [] else [obj])
  }

  lemma WaterSectionSnoc(dev: Device, objs: seq<(string, ObjectRef)>, j: nat)
    requires j < |objs|
    ensures var (key, obj) := objs[j];
      && WaterSection(dev, objs[..j + 1])
         == (if obj.objectType == NotificationClass then WaterSection(dev, objs[..j])
             else WaterSection(dev, objs[..j])[key := ObjectReading(dev, obj, WaterRange(key), key, 2)])
      && WaterObjectsRead(objs[..j + 1]) == WaterObjectsRead(objs[..j]) + (if obj.objectType == NotificationClass then [] else [obj])
  {
    assert objs[..j + 1][..j] == objs[..j];
  }

  /** The water section has the three water keys; alarm and leak readings are checked against 0..1. */
  lemma WaterStatusContents(dev: Device)
    ensures var w := WaterSection(dev, WaterObjects);
      && w.Keys == {"alarm", "leak1", "reset_leak"}
      && w["alarm"] == ObjectReading(dev, ObjectRef(0, 7), Some(Range(0.0, 1.0)), "alarm", 2)
      && w["leak1"] == ObjectReading(dev, ObjectRef(0, 9), Some(Range(0.0, 1.0)), "leak1", 2)
      && w["reset_leak"] == ObjectReading(dev, ObjectRef(14, 10), None, "reset_leak", 2)
  {
    var a := WaterObjects[..2][..1];
    assert a == [("alarm", ObjectRef(0, 7))] && a[..0] == [];
    assert WaterSection(dev, a).Keys == {"alarm"};
    assert WaterObjects[..2] == [("alarm", ObjectRef(0, 7)), ("leak1", ObjectRef(0, 9))];
    assert WaterSection(dev, WaterObjects[..2]).Keys == {"alarm", "leak1"};
  }

  /** All three water objects are read, in table order. */
  lemma WaterObjectsAllRead()
    ensures WaterObjectsRead(WaterObjects) == [ObjectRef(0, 7), ObjectRef(0, 9), ObjectRef(14, 10)]
  {
    var a := WaterObjects[..2][..1];
    assert a == [("alarm", ObjectRef(0, 7))] && a[..0] == [];
    assert WaterObjectsRead(a) == [ObjectRef(0, 7)];
    assert WaterObjects[..2] == [("alarm", ObjectRef(0, 7)), ("leak1", ObjectRef(0, 9))];
    assert WaterObjectsRead(WaterObjects[..2]) == [ObjectRef(0, 7), ObjectRef(0, 9)];
  }

  // ---------------------------------------------------------------- valve count

  /** Python's `int(x)`: truncation toward zero. */
  function TruncToInt(x: real): (n: int)
    ensures x >= 0.0 ==> 0 <= n && n as real <= x < n as real + 1.0
    ensures x < 0.0 ==> n <= 0 && n as real - 1.0 < x <= n as real
  {
    if x >= 0.0 then x.Floor else -((-x).Floor)
  }

  /** The raw count code read from the hub, turned into a number of valves. */
  function InterpretValveCount(raw: int): int
  {
    if raw == 319 then 0 else if raw == 2 then 1 else if raw == 3 then 2 else raw
  }

  lemma ValveCountCodes()
    ensures InterpretValveCount(2) == 1 && InterpretValveCount(3) == 2 && InterpretValveCount(319) == 0
    ensures forall raw :: raw != 2 && raw != 3 && raw != 319 ==> InterpretValveCount(raw) == raw
  {
  }

  /** The interpreted valve count, when the count object gave a value. */
  function ValveCount(dev: Device): Option<int>
  {
    match ObjectReading(dev, NumValvesObject, None, "num_valves", 2)
    case None => None
    case Some(v) => Some(InterpretValveCount(TruncToInt(v)))
  }

  // ---------------------------------------------------------------- wireless values

  /** Everything the scan records about one wireless sensor. */
  datatype DataType = Analog | StatusOnly

  datatype SensorInfo = SensorInfo(value: real, objectType: nat, instance: nat, dataType: DataType)

  predicate SensorsValid(d: map<string, SensorInfo>)
  {
    forall k :: k in d ==> ValidObject(d[k].objectType, d[k].instance)
  }

  /** Python's `round`: to the nearest integer, ties to the even one. */
  function RoundHalfEven(x: real): (n: int)
    ensures x - 0.5 <= n as real <= x + 0.5
  {
    var f := x.Floor;
    var frac := x - f as real;
    if frac < 0.5 then f else if frac > 0.5 then f + 1 else if f % 2 == 0 then f else f + 1
  }

  lemma RoundHalfEvenMonotone(x: real, y: real)
    requires x <= y
    ensures RoundHalfEven(x) <= RoundHalfEven(y)
  {
    if x.Floor == y.Floor {
    } else {
      assert x.Floor < y.Floor;
    }
  }

  /** `calculate_battery_percentage`: 15% at 2.2 V and below, 100% from 3.3 V, linear between. */
  function BatteryPercentage(voltage: real): (p: int)
    ensures 15 <= p <= 100
    ensures voltage >= 3.3 ==> p == 100
    ensures voltage <= 2.2 ==> p == 15
  {
    if voltage >= 3.3 then 100
    else if voltage <= 2.2 then 15
    else
      var t := (voltage - 2.2) / 1.1;
      assert 0.0 < t < 1.0;
      RoundHalfEven(15.0 + t * 85.0)
  }

  /** A higher voltage never shows a lower battery percentage. */
  lemma BatteryPercentageMonotone(v: real, w: real)
    requires v <= w
    ensures BatteryPercentage(v) <= BatteryPercentage(w)
  {
    if 2.2 < v < 3.3 && 2.2 < w < 3.3 {
      var tv, tw := (v - 2.2) / 1.1, (w - 2.2) / 1.1;
      assert tv <= tw;
      RoundHalfEvenMonotone(15.0 + tv * 85.0, 15.0 + tw * 85.0);
    }
  }

  /** Adds the `battery` percentage when a battery voltage is present. */
  function WithBattery(w: Wireless): (r: Wireless)
    ensures r.Keys == w.Keys + (if "battery_voltage" in w then {"battery"} else {})
    ensures forall k :: k in w && k != "battery" ==> r[k] == w[k]
    ensures "battery_voltage" in w ==> r["battery"] == BatteryPercentage(w["battery_voltage"]) as real
  {
    if "battery_voltage" in w then w["battery" := BatteryPercentage(w["battery_voltage"]) as real] else w
  }

  /** One discovered sensor read again: the wireless parser first for analog inputs, then the general one. */
  function SensorReading(dev: Device, key: string, info: SensorInfo): Option<real>
  {
    match Reply(dev, ReadOf(ObjectRef(info.objectType, info.instance)), 3)
    case None => None
    case Some(r) =>
      if |r| == 0 then None
      else
        var v := if info.objectType == 0 then ParseWireless(r, key) else None;
        if v.Some? then v else ParseValue(r, info.objectType, ExpectedRange(key), key)
  }

  /** What `get_wireless_sensor_values` returns for the sensors `d`. */
  function SensorValues(dev: Device, d: map<string, SensorInfo>): Wireless
  {
    WithBattery(map k | k in d && SensorReading(dev, k, d[k]).Some? :: SensorReading(dev, k, d[k]).value)
  }

  /** Reads keyed objects in order, keeping the readings that parsed. */
  function ReadKeys(dev: Device, objs: seq<(string, ObjectRef)>): Wireless
  {
    if objs == [] then map[]
    else
      var (key, obj) := objs[|objs| - 1];
      Record(ReadKeys(dev, objs[..|objs| - 1]), key, ObjectReading(dev, obj, ExpectedRange(key), key, 2))
  }

  /** `w` with `key` set when a value was read. */
  function Record(w: Wireless, key: string, v: Option<real>): Wireless
  {
    if v.Some? then w[key := v.value] else w
  }

  lemma ReadKeysSnoc(dev: Device, objs: seq<(string, ObjectRef)>, j: nat)
    requires j < |objs|
    ensures ReadKeys(dev, objs[..j + 1])
      == Record(ReadKeys(dev, objs[..j]), objs[j].0, ObjectReading(dev, objs[j].1, ExpectedRange(objs[j].0), objs[j].0, 2))
  {
    assert objs[..j + 1][..j] == objs[..j];
  }

  // ---------------------------------------------------------------- discovery scan

  /** The key and plausible range the scan gives each wireless instance. */
  function SensorTypeMapping(instance: nat): (string, Range)
    requires 11 <= instance <= 15
  {
    if instance == 11 then ("leak1", Range(0.0, 1.5))
    else if instance == 12 then ("leak2", Range(0.0, 1.5))
    else if instance == 13 then ("temperature", Range(-50.0, 100.0))
    else if instance == 14 then ("humidity", Range(0.0, 150.0))
    else ("battery_voltage", Range(0.0, 5.0))
  }

  lemma SensorKeysDistinct(i: nat, j: nat)
    requires 11 <= i <= 15 && 11 <= j <= 15 && i != j
    ensures SensorTypeMapping(i).0 != SensorTypeMapping(j).0
  {
  }

  /** The wider range used when the wireless parser found nothing in an analog reply. */
  function ExpandedRange(key: string, original: Range): Range
  {
    if key == "leak1" || key == "leak2" then Range(0.0, 2.0) else original
  }

  /**
   * What one scan step records from the reply it got: analog inputs try the wireless parser, then
   * the general parser with the widened range, and must fall in the range that was used; multi-state
   * inputs must fall in the original range and read 1 only for leak sensors.
   */
  function ProbeReply(reply: Option<seq<byte>>, objectType: nat, instance: nat): (r: Option<SensorInfo>)
    requires 11 <= instance <= 15
    ensures r.Some? ==> objectType == 0 || objectType == 13
    ensures r.Some? ==> r.value.objectType == objectType && r.value.instance == instance
    ensures r.Some? ==> r.value.dataType == (if objectType == 0 then Analog else StatusOnly)
    ensures reply.None? || (reply.Some? && |reply.value| == 0) ==> r.None?
  {
    var (key, range) := SensorTypeMapping(instance);
    match reply
    case None => None
    case Some(bytes) =>
      if |bytes| == 0 then None
      else
        var special := if objectType == 0 then ParseWireless(bytes, key) else None;
        var used := if special.None? && objectType == 0 then ExpandedRange(key, range) else range;
        var v := if special.Some? then special else ParseValue(bytes, objectType, Some(used), key);
        match v
        case None => None
        case Some(x) =>
          if objectType == 0 then
            if used.lo <= x <= used.hi then Some(SensorInfo(x, objectType, instance, Analog)) else None
          else if objectType == 13 then
            if range.lo <= x <= range.hi && (x != 1.0 || StartsWith(key, "leak"))
            then Some(SensorInfo(x, objectType, instance, StatusOnly)) else None
          else None
  }

  /** The probe of one wireless object, with two retries. */
  function Probe(dev: Device, objectType: nat, instance: nat): Option<SensorInfo>
    requires 11 <= instance <= 15
  {
    ProbeReply(Reply(dev, ReadOf(ObjectRef(objectType, instance)), 2), objectType, instance)
  }

  /** The outcome of probing each (object type, instance); the scan lemmas hold for any of them. */
  type Prober = (nat, nat) -> Option<SensorInfo>

  function DeviceProber(dev: Device): Prober
  {
    (t: nat, i: nat) => if 11 <= i <= 15 then Probe(dev, t, i) else None
  }

  /** The sensors found so far and the objects read so far, in order. */
  datatype ScanState = ScanState(found: map<string, SensorInfo>, probed: seq<ObjectRef>)

  /** One instance of a pass: a key found earlier is skipped unread, otherwise the object is probed. */
  function Step(st: ScanState, probe: Prober, objectType: nat, instance: nat): ScanState
    requires 11 <= instance <= 15
  {
    var key := SensorTypeMapping(instance).0;
    if key in st.found then st
    else
      var probed := st.probed + [ObjectRef(objectType, instance)];
      match probe(objectType, instance)
      case None => ScanState(st.found, probed)
      case Some(info) => ScanState(st.found[key := info], probed)
  }

  predicate ScanInstances(instances: seq<nat>)
  {
    forall j :: 0 <= j < |instances| ==> 11 <= instances[j] <= 15
  }

  predicate DistinctInstances(instances: seq<nat>)
  {
    forall a, b :: 0 <= a < b < |instances| ==> instances[a] != instances[b]
  }

  /** One pass of the scan over `instances` of `objectType`, in order. */
  function ScanPass(st: ScanState, probe: Prober, objectType: nat, instances: seq<nat>): ScanState
    requires ScanInstances(instances)
    decreases |instances|
  {
    if instances == [] then st else ScanPass(Step(st, probe, objectType, instances[0]), probe, objectType, instances[1..])
  }

  const WirelessInstances: seq<nat> := [11, 12, 13, 14, 15]

  /** The scan order: analog inputs first, then multi-state inputs. */
  const ScanObjectTypes: seq<nat> := [0, 13]

  /** The passes over `objectTypes`, in order, each over all wireless instances. */
  function ScanPasses(st: ScanState, probe: Prober, objectTypes: seq<nat>): ScanState
  {
    if objectTypes == [] then st
    else ScanPass(ScanPasses(st, probe, objectTypes[..|objectTypes| - 1]), probe, objectTypes[|objectTypes| - 1], WirelessInstances)
  }

  /** What `discover_wireless_sensors` finds and reads. */
  function Discovery(dev: Device): ScanState
  {
    ScanPasses(ScanState(map[], []), DeviceProber(dev), ScanObjectTypes)
  }

  function Lookup(m: map<string, SensorInfo>, k: string): Option<SensorInfo>
  {
    if k in m then Some(m[k]) else None
  }

  /** The objects a pass reads starting from `found`: one per instance whose key is not yet found. */
  function PassProbed(found: map<string, SensorInfo>, objectType: nat, instances: seq<nat>): seq<ObjectRef>
    requires ScanInstances(instances)
  {
    if instances == [] then []
    else
      (if SensorTypeMapping(instances[0]).0 in found then [] else [ObjectRef(objectType, instances[0])])
      + PassProbed(found, objectType, instances[1..])
  }

  /** A pass leaves alone every key none of its instances maps to. */
  lemma {:induction false} PassUntouched(st: ScanState, probe: Prober, objectType: nat, instances: seq<nat>, k: string)
    requires ScanInstances(instances)
    requires forall j :: 0 <= j < |instances| ==> SensorTypeMapping(instances[j]).0 != k
    decreases |instances|
    ensures Lookup(ScanPass(st, probe, objectType, instances).found, k) == Lookup(st.found, k)
  {
    if instances != [] {
      var rest := instances[1..];
      assert forall j :: 0 <= j < |rest| ==> rest[j] == instances[j + 1];
      PassUntouched(Step(st, probe, objectType, instances[0]), probe, objectType, rest, k);
    }
  }

  /** A pass over distinct instances sets the key of each one that was not found before to its probe. */
  lemma {:induction false} PassFound(st: ScanState, probe: Prober, objectType: nat, instances: seq<nat>, j: nat)
    requires ScanInstances(instances) && DistinctInstances(instances)
    requires j < |instances|
    decreases |instances|
    ensures var k := SensorTypeMapping(instances[j]).0;
      Lookup(ScanPass(st, probe, objectType, instances).found, k)
      == if k in st.found then Some(st.found[k]) else probe(objectType, instances[j])
  {
    var next := Step(st, probe, objectType, instances[0]);
    var rest := instances[1..];
    assert forall m :: 0 <= m < |rest| ==> rest[m] == instances[m + 1];
    if j == 0 {
      forall m | 0 <= m < |rest| ensures SensorTypeMapping(rest[m]).0 != SensorTypeMapping(instances[0]).0 {
        SensorKeysDistinct(rest[m], instances[0]);
      }
      PassUntouched(next, probe, objectType, rest, SensorTypeMapping(instances[0]).0);
    } else {
      SensorKeysDistinct(instances[j], instances[0]);
      PassFound(next, probe, objectType, rest, j - 1);
    }
  }

  /** The objects a pass over distinct instances reads. */
  lemma {:induction false} PassProbedIs(st: ScanState, probe: Prober, objectType: nat, instances: seq<nat>)
    requires ScanInstances(instances) && DistinctInstances(instances)
    decreases |instances|
    ensures ScanPass(st, probe, objectType, instances).probed == st.probed + PassProbed(st.found, objectType, instances)
  {
    if instances != [] {
      var next := Step(st, probe, objectType, instances[0]);
      var rest := instances[1..];
      RestOfPass(st, probe, objectType, instances);
      PassProbedIs(next, probe, objectType, rest);
      var head := if SensorTypeMapping(instances[0]).0 in st.found then [] else [ObjectRef(objectType, instances[0])];
      assert next.probed == st.probed + head;
      assert (st.probed + head) + PassProbed(next.found, objectType, rest) == st.probed + (head + PassProbed(next.found, objectType, rest));
    }
  }

  /** After the first step of a pass the rest of the pass reads the same objects as before it. */
  lemma RestOfPass(st: ScanState, probe: Prober, objectType: nat, instances: seq<nat>)
    requires ScanInstances(instances) && DistinctInstances(instances) && instances != []
    ensures ScanInstances(instances[1..]) && DistinctInstances(instances[1..])
    ensures PassProbed(Step(st, probe, objectType, instances[0]).found, objectType, instances[1..]) == PassProbed(st.found, objectType, instances[1..])
  {
    var rest := instances[1..];
    assert forall m :: 0 <= m < |rest| ==> rest[m] == instances[m + 1];
    forall m | 0 <= m < |rest| ensures SensorTypeMapping(rest[m]).0 != SensorTypeMapping(instances[0]).0 {
      SensorKeysDistinct(rest[m], instances[0]);
    }
    PassProbedSameForOtherKeys(st.found, Step(st, probe, objectType, instances[0]).found, objectType, rest);
  }

  lemma {:induction false} PassProbedSameForOtherKeys(f: map<string, SensorInfo>, g: map<string, SensorInfo>, objectType: nat, instances: seq<nat>)
    requires ScanInstances(instances)
    requires forall j :: 0 <= j < |instances| ==> (SensorTypeMapping(instances[j]).0 in f <==> SensorTypeMapping(instances[j]).0 in g)
    ensures PassProbed(f, objectType, instances) == PassProbed(g, objectType, instances)
  {
    if instances != [] {
      var rest := instances[1..];
      assert forall m :: 0 <= m < |rest| ==> rest[m] == instances[m + 1];
      PassProbedSameForOtherKeys(f, g, objectType, rest);
    }
  }

  /** A pass reads the object of instance `insts[n]` exactly when its key is still unfound, and only objects of its own type. */
  lemma {:induction false} PassProbedNames(found: map<string, SensorInfo>, objectType: nat, insts: seq<nat>, n: nat, other: nat)
    requires ScanInstances(insts) && DistinctInstances(insts)
    requires n < |insts| && other != objectType
    ensures ObjectRef(objectType, insts[n]) in PassProbed(found, objectType, insts) <==> SensorTypeMapping(insts[n]).0 !in found
    ensures ObjectRef(other, insts[n]) !in PassProbed(found, objectType, insts)
  {
    var rest := insts[1..];
    assert forall m :: 0 <= m < |rest| ==> rest[m] == insts[m + 1];
    if n == 0 {
      PassProbedExcludes(found, objectType, rest, insts[0], other);
    } else {
      PassProbedNames(found, objectType, rest, n - 1, other);
    }
  }

  lemma {:induction false} PassProbedExcludes(found: map<string, SensorInfo>, objectType: nat, insts: seq<nat>, i: nat, other: nat)
    requires ScanInstances(insts) && forall j :: 0 <= j < |insts| ==> insts[j] != i
    requires other != objectType
    ensures ObjectRef(objectType, i) !in PassProbed(found, objectType, insts)
    ensures ObjectRef(other, i) !in PassProbed(found, objectType, insts)
  {
    if insts != [] {
      var rest := insts[1..];
      assert forall m :: 0 <= m < |rest| ==> rest[m] == insts[m + 1];
      PassProbedExcludes(found, objectType, rest, i, other);
    }
  }

  lemma WirelessInstancesDistinct()
    ensures ScanInstances(WirelessInstances) && DistinctInstances(WirelessInstances)
  {
  }

  /** The discovery is the analog pass followed by the multi-state pass. */
  lemma DiscoveryIsTwoPasses(dev: Device)
    ensures Discovery(dev)
      == ScanPass(ScanPass(ScanState(map[], []), DeviceProber(dev), 0, WirelessInstances), DeviceProber(dev), 13, WirelessInstances)
  {
    var init := ScanState(map[], []);
    assert ScanObjectTypes[..1] == [0] && ScanObjectTypes[..1][..0] == [];
    assert ScanPasses(init, DeviceProber(dev), [0]) == ScanPass(init, DeviceProber(dev), 0, WirelessInstances);
  }

  /** Two passes, analog then multi-state, over distinct instances: the first accepted reading of each key wins. */
  lemma {:induction false} TwoPassesFound(probe: Prober, insts: seq<nat>, n: nat)
    requires ScanInstances(insts) && DistinctInstances(insts) && n < |insts|
    ensures var key := SensorTypeMapping(insts[n]).0;
      var p1 := ScanPass(ScanState(map[], []), probe, 0, insts);
      Lookup(ScanPass(p1, probe, 13, insts).found, key)
        == (if probe(0, insts[n]).Some? then probe(0, insts[n]) else probe(13, insts[n]))
  {
    var init := ScanState(map[], []);
    PassFound(init, probe, 0, insts, n);
    PassFound(ScanPass(init, probe, 0, insts), probe, 13, insts, n);
  }

  /** Two passes over distinct instances read every analog object, and a multi-state one only when its key is still missing. */
  lemma {:induction false} TwoPassesProbed(probe: Prober, insts: seq<nat>, n: nat)
    requires ScanInstances(insts) && DistinctInstances(insts) && n < |insts|
    ensures var p1 := ScanPass(ScanState(map[], []), probe, 0, insts);
      var p2 := ScanPass(p1, probe, 13, insts);
      && ObjectRef(0, insts[n]) in p2.probed
      && (ObjectRef(13, insts[n]) in p2.probed <==> probe(0, insts[n]).None?)
  {
    var init := ScanState(map[], []);
    var p1 := ScanPass(init, probe, 0, insts);
    PassFound(init, probe, 0, insts, n);
    PassProbedIs(init, probe, 0, insts);
    PassProbedIs(p1, probe, 13, insts);
    PassProbedNames(map[], 0, insts, n, 13);
    PassProbedNames(p1.found, 13, insts, n, 0);
  }

  /**
   * For every wireless instance: an accepted analog reading always wins, and a multi-state
   * reading is used only when the analog one was not accepted.
   */
  lemma DiscoveryPrecedence(dev: Device, n: nat)
    requires n < 5
    ensures var i := WirelessInstances[n];
      var key := SensorTypeMapping(i).0;
      var d := Discovery(dev);
      && Lookup(d.found, key) == (if Probe(dev, 0, i).Some? then Probe(dev, 0, i) else Probe(dev, 13, i))
      && (key in d.found ==> d.found[key].dataType == (if Probe(dev, 0, i).Some? then Analog else StatusOnly))
  {
    var i := WirelessInstances[n];
    WirelessInstancesDistinct();
    DiscoveryIsTwoPasses(dev);
    assert DeviceProber(dev)(0, i) == Probe(dev, 0, i) && DeviceProber(dev)(13, i) == Probe(dev, 13, i);
    TwoPassesFound(DeviceProber(dev), WirelessInstances, n);
  }

  /** Every analog object is read; the multi-state object of an instance is read only when its analog reading was not accepted. */
  lemma DiscoveryReads(dev: Device, n: nat)
    requires n < 5
    ensures var i := WirelessInstances[n];
      var d := Discovery(dev);
      && ObjectRef(0, i) in d.probed
      && (ObjectRef(13, i) in d.probed <==> Probe(dev, 0, i).None?)
  {
    var i := WirelessInstances[n];
    WirelessInstancesDistinct();
    DiscoveryIsTwoPasses(dev);
    assert DeviceProber(dev)(0, i) == Probe(dev, 0, i);
    TwoPassesProbed(DeviceProber(dev), WirelessInstances, n);
  }

  /** Plain values of discovered sensors, as the forced rescan copies them. */
  function FoundValues(found: map<string, SensorInfo>): Wireless
  {
    map k | k in found :: found[k].value
  }

  /**
   * What an attempt of `read_wireless_sensors` that reads collects before any rescan: the
   * discovered sensors' values, or, when those give nothing and the attempt is forced or a sixth
   * one, the hub's wireless objects.
   */
  function Collected(dev: Device, discovered: Option<map<string, SensorInfo>>, force: bool, attempt: nat): Wireless
    requires discovered.Some? ==> SensorsValid(discovered.value)
  {
    var fromDiscovered := if discovered.Some? && |discovered.value| > 0 then SensorValues(dev, discovered.value) else map[];
    if fromDiscovered == map[] && (force || attempt % 6 == 0) then ReadKeys(dev, WirelessSensorObjects) else fromDiscovered
  }

  // ---------------------------------------------------------------- the hub

  const WirelessCandidates: seq<ObjectRef> :=
    [ObjectRef(0, 11), ObjectRef(0, 12), ObjectRef(0, 13), ObjectRef(0, 14), ObjectRef(0, 15),
     ObjectRef(0, 16), ObjectRef(0, 17), ObjectRef(0, 18), ObjectRef(0, 19), ObjectRef(0, 20),
     ObjectRef(0, 100), ObjectRef(0, 101), ObjectRef(0, 102), ObjectRef(0, 103), ObjectRef(0, 104)]

  const WirelessNames: seq<string> := ["leak1", "leak2", "temperature", "humidity", "battery_voltage"]

  /** The first five scan candidates, with their names, are the hub's wireless sensor objects. */
  lemma CandidateNames(i: nat)
    requires i < 5
    ensures WirelessSensorObjects[i] == (WirelessNames[i], WirelessCandidates[i])
  {
  }

  /** Action words accepted by `control_valve`, lower-cased, and the code each writes. */
  function ActionCode(action: string): Option<int>
  {
    if action == "open" then Some(3) else if action == "close" then Some(2) else if action == "n/a" then Some(1) else None
  }

  /** The write `control_valve` sends for an action code. */
  function ControlWrite(code: nat): Request
  {
    WriteRequest(ValveControlObject.objectType, ValveControlObject.instance, PresentValue, UnsignedValue(code))
  }

  /** The reset value `reset_water_alarm` writes unless given another, and the one `reset_leak_alarm` passes. */
  const DefaultResetValue: nat := 2

  /** The write `reset_water_alarm` sends for a reset value. */
  function ResetWrite(v: nat): Request
  {
    WriteRequest(ResetLeakObject.objectType, ResetLeakObject.instance, PresentValue, UnsignedValue(v))
  }

  /** Each action code is the one the valve control table labels with that action. */
  lemma ActionCodesMatchControlTable(action: string)
    requires ActionCode(action).Some?
    ensures ActionCode(action).value in ValveControlLabels && ValveControlLabels[ActionCode(action).value] == action
  {
  }

  /** The scan loop of `discover_wireless_sensors`: one pass per object type, in order. */
  method Scan(dev: Device) returns (st: ScanState)
    ensures SensorsValid(st.found)
    ensures st == Discovery(dev)
  {
    var init := ScanState(map[], []);
    st := init;
    var p := 0;
    while p < |ScanObjectTypes|
      invariant 0 <= p <= |ScanObjectTypes|
      invariant SensorsValid(st.found)
      invariant st == ScanPasses(init, DeviceProber(dev), ScanObjectTypes[..p])
    {
      assert ScanObjectTypes[..p + 1][..p] == ScanObjectTypes[..p];
      st := ScanObjectType(dev, ScanObjectTypes[p], st);
      p := p + 1;
    }
    assert ScanObjectTypes[..p] == ScanObjectTypes;
  }

  /** One instance of a pass: an unfound key's object is read with two retries and kept when accepted. */
  method ProbeInstance(dev: Device, objectType: nat, i: nat, start: ScanState) returns (st: ScanState)
    requires objectType < 1024 && 11 <= i <= 15 && SensorsValid(start.found)
    ensures SensorsValid(st.found)
    ensures st == Step(start, DeviceProber(dev), objectType, i)
  {
    st := start;
    var key := SensorTypeMapping(i).0;
    if key !in st.found {
      var obj := ObjectRef(objectType, i);
      var reply := Fetch(dev, objectType, i, PresentValue, 2);
      var info := ProbeReply(reply, objectType, i);
      assert info == DeviceProber(dev)(objectType, i);
      st := st.(probed := st.probed + [obj]);
      if info.Some? {
        st := st.(found := st.found[key := info.value]);
      }
    }
  }

  /** One pass of the scan: each instance of `objectType` whose key is still unfound is read with two retries. */
  method ScanObjectType(dev: Device, objectType: nat, start: ScanState) returns (st: ScanState)
    requires objectType < 1024 && SensorsValid(start.found)
    ensures SensorsValid(st.found)
    ensures st == ScanPass(start, DeviceProber(dev), objectType, WirelessInstances)
  {
    st := start;
    var n := 0;
    while n < |WirelessInstances|
      invariant 0 <= n <= |WirelessInstances|
      invariant SensorsValid(st.found)
      invariant ScanPass(st, DeviceProber(dev), objectType, WirelessInstances[n..]) == ScanPass(start, DeviceProber(dev), objectType, WirelessInstances)
    {
      assert WirelessInstances[n..][1..] == WirelessInstances[n + 1..];
      st := ProbeInstance(dev, objectType, WirelessInstances[n], st);
      n := n + 1;
    }
    assert WirelessInstances[|WirelessInstances|..] == [];
  }

  /** The request for a device property, sent to the object identifier `id` of the frame. */
  function DeviceRequest(id: nat, property: nat): (q: Request)
    requires id < 0x1_0000_0000
    ensures q.ReadRequest? && ValidObject(q.objectType, q.instance) && ObjectId(q.objectType, q.instance) == id
  {
    ReadRequest(id / 0x40_0000, id % 0x40_0000, property)
  }

  /** What `read_device_info` returns for the device object identifier `id`: a fixed text per property that answered. */
  predicate DeviceInfoIs(dev: Device, id: nat, info: map<string, string>)
    requires id < 0x1_0000_0000
  {
    && info.Keys <= {"name", "firmware_revision", "app_version"}
    && ("name" in info <==> Answered(Reply(dev, DeviceRequest(id, ObjectNameProperty), 2)))
    && ("firmware_revision" in info <==> Answered(Reply(dev, DeviceRequest(id, FirmwareRevisionProperty), 2)))
    && ("app_version" in info <==> Answered(Reply(dev, DeviceRequest(id, ApplicationVersionProperty), 2)))
    && ("name" in info ==> info["name"] == "Device Name Available")
    && ("firmware_revision" in info ==> info["firmware_revision"] == "Firmware Available")
    && ("app_version" in info ==> info["app_version"] == "Application Version Available")
  }

  /** What `read_valve_status` returns: the count, the control reading and the status of each counted valve. */
  predicate ValveSectionIs(dev: Device, status: Section)
  {
    var n := ValveCount(dev).GetOr(0);
    && status.Keys == {"num_valves", "control", "valve_status1", "valve_status2"}
    && status["num_valves"] == (match ValveCount(dev) case None => None case Some(c) => Some(c as real))
    && status["control"] == ObjectReading(dev, ValveControlObject, None, "control", 2)
    && status["valve_status1"] == (if n >= 1 then ObjectReading(dev, ValveStatus1Object, None, "valve_status1", 2) else None)
    && status["valve_status2"] == (if n >= 2 then ObjectReading(dev, ValveStatus2Object, None, "valve_status2", 2) else None)
  }

  class Hub {
    const deviceId: int
    var wirelessAttemptCount: nat
    var lastWirelessData: Option<Wireless>
    var lastWirelessCheck: Option<int>
    var discovered: Option<map<string, SensorInfo>>

    ghost predicate Valid()
      reads this
    {
      (lastWirelessData.Some? <==> lastWirelessCheck.Some?)
      && (discovered.Some? ==> SensorsValid(discovered.value))
    }

    constructor (deviceId: int)
      ensures Valid() && this.deviceId == deviceId
      ensures wirelessAttemptCount == 0 && lastWirelessData.None? && discovered.None?
    {
      this.deviceId := deviceId;
      wirelessAttemptCount := 0;
      lastWirelessData := None;
      lastWirelessCheck := None;
      discovered := None;
    }

    /** `read_water_status`: every water object is read with two retries, including the multi-state reset object. */
    method ReadWaterStatus(dev: Device) returns (status: Section, read: seq<ObjectRef>)
      ensures status == WaterSection(dev, WaterObjects) && read == WaterObjectsRead(WaterObjects)
    {
      status, read := map[], [];
      var j := 0;
      while j < |WaterObjects|
        invariant 0 <= j <= |WaterObjects|
        invariant status == WaterSection(dev, WaterObjects[..j]) && read == WaterObjectsRead(WaterObjects[..j])
      {
        var (key, obj) := WaterObjects[j];
        WaterSectionSnoc(dev, WaterObjects, j);
        if obj.objectType != NotificationClass {
          var v := ReadObject(dev, obj, WaterRange(key), key, 2);
          status := status[key := v];
          read := read + [obj];
        }
        j := j + 1;
      }
      assert WaterObjects[..j] == WaterObjects;
    }

    /** `read_valve_status`: the status objects are read only for the valves the count reports. */
    method ReadValveStatus(dev: Device) returns (status: Section, read: seq<ObjectRef>)
      ensures ValveSectionIs(dev, status)
      ensures var n := ValveCount(dev).GetOr(0);
        read == [NumValvesObject, ValveControlObject]
          + (if n >= 1 then [ValveStatus1Object] else []) + (if n >= 2 then [ValveStatus2Object] else [])
    {
      var parsed := ReadObject(dev, NumValvesObject, None, "num_valves", 2);
      var numValves := 0;
      if parsed.Some? {
        numValves := InterpretValveCount(TruncToInt(parsed.value));
        status := map["num_valves" := Some(numValves as real)];
      } else {
        status := map["num_valves" := None];
      }
      var control := ReadObject(dev, ValveControlObject, None, "control", 2);
      status := status["control" := control];
      read := [NumValvesObject, ValveControlObject];
      var s1: Option<real> := None;
      if numValves >= 1 {
        s1 := ReadObject(dev, ValveStatus1Object, None, "valve_status1", 2);
        read := read + [ValveStatus1Object];
      }
      status := status["valve_status1" := s1];
      var s2: Option<real> := None;
      if numValves >= 2 {
        s2 := ReadObject(dev, ValveStatus2Object, None, "valve_status2", 2);
        read := read + [ValveStatus2Object];
      }
      status := status["valve_status2" := s2];
    }

    /** `control_valve`: an accepted action writes its code to the control object; any reply is success. */
    method ControlValve(dev: Device, action: string) returns (ok: bool, frame: Option<seq<byte>>)
      ensures var code := ActionCode(Lower(action));
        && (code.None? ==> !ok && frame.None?)
        && (code.Some? ==>
              && frame.Some? && DecodeRequest(frame.value) == Some(ControlWrite(code.value))
              && ok == Reply(dev, ControlWrite(code.value), 2).Some?)
    {
      var code := ActionCode(Lower(action));
      if code.None? {
        return false, None;
      }
      var packet := WritePropertyRequest(ValveControlObject.objectType, ValveControlObject.instance, IntArg(code.value), PresentValue);
      WriteRequestRoundTrip(ValveControlObject.objectType, ValveControlObject.instance, IntArg(code.value), PresentValue);
      var reply := Exchange(dev, packet, ControlWrite(code.value), 2);
      ok := reply.Some?;
      frame := Some(packet);
    }

    /** `reset_water_alarm`: writes `resetValue` to the reset object with three retries; success needs a non-empty reply. */
    method ResetWaterAlarm(dev: Device, resetValue: int) returns (ok: bool, frame: seq<byte>)
      requires 0 <= resetValue < 0x1_0000_0000
      ensures DecodeRequest(frame) == Some(ResetWrite(resetValue))
      ensures ok == Answered(Reply(dev, ResetWrite(resetValue), 3))
    {
      frame := WritePropertyRequest(ResetLeakObject.objectType, ResetLeakObject.instance, IntArg(resetValue), PresentValue);
      WriteRequestRoundTrip(ResetLeakObject.objectType, ResetLeakObject.instance, IntArg(resetValue), PresentValue);
      var reply := Exchange(dev, frame, ResetWrite(resetValue), 3);
      ok := Answered(reply);
    }

    /** `reset_leak_alarm`: the reset with the default value 2. */
    method ResetLeakAlarm(dev: Device) returns (ok: bool)
      ensures ok == Answered(Reply(dev, ResetWrite(DefaultResetValue), 3))
    {
      var frame;
      ok, frame := ResetWaterAlarm(dev, DefaultResetValue);
    }

    /**
     * `read_device_info`: a fixed placeholder per device property that answered with a non-empty
     * reply. None where building the first frame raises, before anything is sent.
     */
    method ReadDeviceInfo(dev: Device) returns (info: Option<map<string, string>>)
      ensures info.None? <==> DeviceObjectIdOf(deviceId).None?
      ensures info.Some? ==> DeviceInfoIs(dev, DeviceObjectIdOf(deviceId).value, info.value)
    {
      var id := DeviceObjectIdOf(deviceId);
      if id.None? {
        return None;
      }
      var q := DeviceRequest(id.value, ObjectNameProperty);
      var m := map[];
      var r := Fetch(dev, q.objectType, q.instance, ObjectNameProperty, 2);
      if Answered(r) { m := m["name" := "Device Name Available"]; }
      q := DeviceRequest(id.value, FirmwareRevisionProperty);
      r := Fetch(dev, q.objectType, q.instance, FirmwareRevisionProperty, 2);
      if Answered(r) { m := m["firmware_revision" := "Firmware Available"]; }
      q := DeviceRequest(id.value, ApplicationVersionProperty);
      r := Fetch(dev, q.objectType, q.instance, ApplicationVersionProperty, 2);
      if Answered(r) { m := m["app_version" := "Application Version Available"]; }
      info := Some(m);
    }

    /** `discover_wireless_sensors`: both passes, then the result is kept as the discovered sensors. */
    method DiscoverWirelessSensors(dev: Device) returns (found: map<string, SensorInfo>, probed: seq<ObjectRef>)
      requires Valid()
      modifies this
      ensures Valid()
      ensures found == Discovery(dev).found && probed == Discovery(dev).probed
      ensures discovered == Some(found)
      ensures wirelessAttemptCount == old(wirelessAttemptCount)
      ensures lastWirelessData == old(lastWirelessData) && lastWirelessCheck == old(lastWirelessCheck)
    {
      var st := Scan(dev);
      found, probed := st.found, st.probed;
      discovered := Some(found);
    }

    /** `get_wireless_sensor_values`: every discovered sensor read again, plus the battery percentage. */
    method GetWirelessSensorValues(dev: Device) returns (data: Wireless)
      requires Valid()
      ensures data == if discovered.None? || |discovered.value| == 0 then map[] else SensorValues(dev, discovered.value)
    {
      if discovered.None? || |discovered.value| == 0 {
        return map[];
      }
      var d := discovered.value;
      var todo := d.Keys;
      data := map[];
      while todo != {}
        invariant todo <= d.Keys
        invariant data.Keys <= d.Keys - todo
        invariant forall k :: k in d.Keys - todo ==>
          (k in data <==> SensorReading(dev, k, d[k]).Some?) && (k in data ==> data[k] == SensorReading(dev, k, d[k]).value)
        decreases todo
      {
        var k :| k in todo;
        var info := d[k];
        var reply := Fetch(dev, info.objectType, info.instance, PresentValue, 3);
        if reply.Some? && |reply.value| > 0 {
          var v := if info.objectType == 0 then ParseWireless(reply.value, k) else None;
          if v.None? {
            v := ParseValue(reply.value, info.objectType, ExpectedRange(k), k);
          }
          if v.Some? {
            data := data[k := v.value];
          }
        }
        todo := todo - {k};
      }
      assert data == map k | k in d && SensorReading(dev, k, d[k]).Some? :: SensorReading(dev, k, d[k]).value;
      data := WithBattery(data);
    }

    /** `_read_wireless_from_hub`: the five wireless objects, then the scan when none answered. */
    method ReadWirelessFromHub(dev: Device) returns (data: Wireless)
      ensures data == ReadKeys(dev, WirelessSensorObjects)
    {
      data := ReadKeyed(dev, WirelessSensorObjects);
      if data == map[] {
        data := ScanForWirelessObjects(dev);
      }
    }

    /** `_scan_for_wireless_objects`: only the first five candidates have a name, so only they are read. */
    method ScanForWirelessObjects(dev: Device) returns (data: Wireless)
      ensures data == ReadKeys(dev, WirelessSensorObjects)
    {
      data := map[];
      var i := 0;
      while i < |WirelessCandidates|
        invariant 0 <= i <= |WirelessCandidates|
        invariant data == ReadKeys(dev, WirelessSensorObjects[..if i < 5 then i else 5])
      {
        if i < |WirelessNames| {
          var name := WirelessNames[i];
          var obj := WirelessCandidates[i];
          CandidateNames(i);
          ReadKeysSnoc(dev, WirelessSensorObjects, i);
          var v := ReadObject(dev, obj, ExpectedRange(name), name, 2);
          data := Record(data, name, v);
        }
        i := i + 1;
      }
      assert WirelessSensorObjects[..5] == WirelessSensorObjects;
    }

    /** Reads keyed objects in order, keeping the readings that parsed. */
    method ReadKeyed(dev: Device, objs: seq<(string, ObjectRef)>) returns (data: Wireless)
      requires ValidObjects(objs)
      ensures data == ReadKeys(dev, objs)
    {
      data := map[];
      var j := 0;
      while j < |objs|
        invariant 0 <= j <= |objs|
        invariant data == ReadKeys(dev, objs[..j])
      {
        var (key, obj) := objs[j];
        ReadKeysSnoc(dev, objs, j);
        var v := ReadObject(dev, obj, ExpectedRange(key), key, 2);
        data := Record(data, key, v);
        j := j + 1;
      }
      assert objs[..|objs|] == objs;
    }

    /** The 5-minute cache applies. */
    predicate CacheFresh(force: bool, now: int)
      reads this
    {
      !force && lastWirelessData.Some? && lastWirelessCheck.Some? && now - lastWirelessCheck.value < 300
    }

    /** The readings an attempt of `read_wireless_sensors` collects before any rescan. */
    method CollectWireless(dev: Device, force: bool) returns (data: Wireless)
      requires Valid()
      ensures data == Collected(dev, discovered, force, wirelessAttemptCount)
    {
      data := map[];
      if discovered.Some? && |discovered.value| > 0 {
        data := GetWirelessSensorValues(dev);
      }
      if data == map[] && (force || wirelessAttemptCount % 6 == 0) {
        var fromHub := ReadWirelessFromHub(dev);
        if fromHub != map[] {
          assert data + fromHub == fromHub;
          data := data + fromHub;
        }
      }
    }

    /**
     * The reading half of `read_wireless_sensors`: the discovered sensors, then the hub objects,
     * then, when forced and still empty, a full rescan whose sensors become the discovered ones.
     * Looking for separate wireless devices is not implemented by the hub and adds nothing.
     */
    method GatherWireless(dev: Device, force: bool) returns (data: Wireless)
      requires Valid()
      modifies this
      ensures Valid()
      ensures var c := Collected(dev, old(discovered), force, wirelessAttemptCount);
        var rescan := c == map[] && force;
        && data == WithBattery(if rescan then FoundValues(Discovery(dev).found) else c)
        && discovered == (if rescan then Some(Discovery(dev).found) else old(discovered))
      ensures wirelessAttemptCount == old(wirelessAttemptCount)
      ensures lastWirelessData == old(lastWirelessData) && lastWirelessCheck == old(lastWirelessCheck)
    {
      data := CollectWireless(dev, force);
      if data == map[] && force {
        var found, _ := DiscoverWirelessSensors(dev);
        if found != map[] {
          data := FoundValues(found);
        }
        assert data == FoundValues(Discovery(dev).found);
      }
      data := WithBattery(data);
    }

    /**
     * `read_wireless_sensors`: a fresh cache is returned as is; otherwise the attempt counter moves
     * and only every third attempt (or a forced one) reads, and what it read becomes the cache.
     */
    /** What `read_wireless_sensors` returned and left behind, against the state before the call. */
    twostate predicate WirelessRead(dev: Device, force: bool, now: int, data: Wireless)
      requires old(Valid())
      reads this
    {
      && (old(CacheFresh(force, now)) ==>
        && data == old(lastWirelessData).value
        && wirelessAttemptCount == old(wirelessAttemptCount) && lastWirelessData == old(lastWirelessData)
        && lastWirelessCheck == old(lastWirelessCheck) && discovered == old(discovered))
      && (!old(CacheFresh(force, now)) ==> wirelessAttemptCount == old(wirelessAttemptCount) + 1)
      && (!old(CacheFresh(force, now)) && !force && wirelessAttemptCount % 3 != 0 ==>
        && data == old(lastWirelessData).GetOr(map[])
        && lastWirelessData == old(lastWirelessData) && lastWirelessCheck == old(lastWirelessCheck)
        && discovered == old(discovered))
      && (!old(CacheFresh(force, now)) && (force || wirelessAttemptCount % 3 == 0) ==>
        var c := Collected(dev, old(discovered), force, wirelessAttemptCount);
        var rescan := c == map[] && force;
        && data == WithBattery(if rescan then FoundValues(Discovery(dev).found) else c)
        && discovered == (if rescan then Some(Discovery(dev).found) else old(discovered))
        && lastWirelessData == Some(data) && lastWirelessCheck == Some(now))
    }

    method ReadWirelessSensors(dev: Device, force: bool, now: int) returns (data: Wireless)
      requires Valid()
      modifies this
      ensures Valid()
      ensures WirelessRead(dev, force, now, data)
    {
      if CacheFresh(force, now) {
        return lastWirelessData.value;
      }
      wirelessAttemptCount := wirelessAttemptCount + 1;
      if !force && wirelessAttemptCount % 3 != 0 {
        return lastWirelessData.GetOr(map[]);
      }
      data := GatherWireless(dev, force);
      lastWirelessData := Some(data);
      lastWirelessCheck := Some(now);
    }

    /**
     * `get_all_status`: the four sections of one poll. When the device-info frame cannot be built
     * the call raises, after the water and valve reads and before the wireless read.
     */
    method GetAllStatus(dev: Device, forceWireless: bool, now: int) returns (s: Option<Snapshot>)
      requires Valid()
      modifies this
      ensures Valid()
      ensures s.None? <==> DeviceObjectIdOf(deviceId).None?
      ensures s.None? ==> unchanged(this)
      ensures s.Some? ==>
        && s.value.water == WaterSection(dev, WaterObjects)
        && ValveSectionIs(dev, s.value.valve)
        && DeviceInfoIs(dev, DeviceObjectIdOf(deviceId).value, s.value.device)
        && WirelessRead(dev, forceWireless, now, s.value.wireless)
    {
      var water, _ := ReadWaterStatus(dev);
      var valve, _ := ReadValveStatus(dev);
      var device := ReadDeviceInfo(dev);
      if device.None? {
        return None;
      }
      var wireless := ReadWirelessSensors(dev, forceWireless, now);
      s := Some(Snapshot(water, valve, device.value, wireless));
    }
  }

  predicate Answered(r: Option<seq<byte>>)
  {
    r.Some? && |r.value| > 0
  }
}
