/**
 * The stand-alone test script (test_device_communication.py): its own request builder and its
 * own value parser, which checks the reply shapes in a different order from the hub's and with
 * slightly different rules. Its socket exchange and driver loop are not modelled.
 */
module Twin {
  import opened Wrappers
  import opened Bytes
  import opened Float32
  import opened Codec

  // ---------------------------------------------------------------- request builder

  /** Tag 0x19 and the property identifier: one byte below 254, else a 254 or 255 marker and its bytes. */
  function PropertyId(p: nat): seq<byte>
  {
    if p < 254 then [0x19, p as byte]
    else if p < 0x1_0000 then [0x19, 254, (p / 256 % 256) as byte, (p % 256) as byte]
    else [0x19, 255, (p / 0x1_0000 % 256) as byte, (p / 256 % 256) as byte, (p % 256) as byte]
  }

  /** `packet[:2] + struct.pack(">H", len(packet)) + packet[4:]`. */
  function PatchLength(packet: seq<byte>): seq<byte>
    requires 4 <= |packet| < 0x1_0000
  {
    packet[..2] + Be16(|packet|) + packet[4..]
  }

  /** The script's `create_read_property_request`. */
  function CreateReadPropertyRequest(objectType: nat, instance: nat, property: nat): seq<byte>
    requires ValidObject(objectType, instance)
  {
    var bvlc := [0x81, 0x0A] + Be16(0);
    var npdu := [0x01, 0x04];
    var apdu := [0x00, 0x00, 0x01];
    var service := [0x0C];
    var obj := [0x0C] + Be32(ObjectId(objectType, instance));
    PatchLength(bvlc + npdu + apdu + service + obj + PropertyId(property))
  }

  /** The script's property tag is the hub's: tag 0x19 followed by the encoded unsigned. */
  lemma PropertyIdIsTagged(p: nat)
    ensures PropertyId(p) == [0x19] + EncodeUnsigned(p)
  {
    if p >= 0x1_0000 {
      assert p / 0x1_0000 == p / 256 / 256;
    }
  }

  /** The script builds byte for byte the frame the hub builds, for every property identifier. */
  lemma RequestMatchesHub(objectType: nat, instance: nat, property: nat)
    requires ValidObject(objectType, instance)
    ensures CreateReadPropertyRequest(objectType, instance, property) == ReadPropertyRequest(objectType, instance, property)
  {
    var id := Be32(ObjectId(objectType, instance));
    var tail := PropertyId(property);
    PropertyIdIsTagged(property);
    var head: seq<byte> := [0x81, 0x0A, 0x00, 0x00, 0x01, 0x04, 0x00, 0x00, 0x01, 0x0C, 0x0C];
    assert [0x81, 0x0A] + Be16(0) + [0x01, 0x04] + [0x00, 0x00, 0x01] + [0x0C] == head[..10];
    assert head[..10] + ([0x0C] + id) + tail == head + id + tail;
    assert FrameBody(ReadPropertyService, objectType, instance, property) == head + id + tail;
  }

  // ---------------------------------------------------------------- value parser

  /** The wireless reading by key: leaks are only 0 or 1, and humidity is bounded by 100. */
  function WirelessValue(f: Float, key: string): Option<real>
  {
    if IsLeakKey(key) then Some(if f == Finite(1.0) then 1.0 else if f == Finite(0.0) then 0.0 else 0.0)
    else if key == "temperature" then (if Within(f, -50.0, 100.0) then Some(f.value) else None)
    else if key == "humidity" then (if Within(f, 0.0, 100.0) then Some(f.value) else None)
    else if key == "battery_voltage" then (if Within(f, 1.5, 4.0) then Some(f.value) else None)
    else if IsNaNOrInf(f) then None
    else Some(f.value)
  }

  /** Enumerated, unsigned, boolean, then real, each at its first tag byte, with no multi-state mapping. */
  function Tagged(d: seq<byte>, expected: Option<Range>): Option<real>
  {
    var e := Find(d, 0x91);
    var u := Find(d, 0x21);
    var b := Find(d, 0x10);
    var f := Find(d, 0x44);
    if e.Some? && e.value + 1 < |d| then Some(d[e.value + 1] as real)
    else if u.Some? && u.value + 1 < |d| then Some(UnsignedAt(d, u.value))
    else if b.Some? && b.value + 1 < |d| then Some(d[b.value + 1] as real)
    else if f.Some? && f.value + 5 <= |d| then
      var x := Decode(d[f.value + 1..f.value + 5]);
      match expected
      case Some(r) => if Within(x, r.lo, r.hi) then Some(x.value) else None
      case None => if Within(x, -100.0, 10000.0) then Some(x.value) else None
    else None
  }

  /** The script's `parse_value`: the water shape first, then the error bit, the wireless shape and the tags. */
  function ParseValue(data: seq<byte>, objectType: int, expected: Option<Range>, key: string): Option<real>
  {
    if |data| < 4 then None
    else if WaterSensorShape(data) then Some(if data[19] == 0x00 then 0.0 else if data[19] == 0x80 then 1.0 else 0.0)
    else if BitSet(data[3], 2) && data[3] != 0x17 then None
    else if IsWirelessResponse(data, objectType) then WirelessValue(Decode(data[18..22]), key)
    else Tagged(data, expected)
  }

  // ---------------------------------------------------------------- against the hub's parser

  /** The water shape is recognised before anything else and for every object type; for type 0 the hub agrees. */
  lemma WaterShapeFirst(d: seq<byte>, objectType: int, expected: Option<Range>, key: string)
    requires WaterSensorShape(d)
    ensures ParseValue(d, objectType, expected, key) == Some(if d[19] == 0x80 then 1.0 else 0.0)
    ensures ParseValue(d, 0, expected, key) == Codec.ParseValue(d, 0, expected, key)
  {
    WaterShapeReading(d, expected, key);
  }

  /**
   * A wireless leak reading is 0.0 or 1.0, 1.0 exactly for the float 1.0; unlike the hub, which
   * rejects a NaN or infinite leak reading, the script reads it as dry.
   */
  lemma LeakOnlyZeroOrOne(d: seq<byte>, key: string)
    requires IsLeakKey(key) && |d| <= 1024 && IsWirelessResponse(d, 0) && !WaterSensorShape(d)
    ensures ParseValue(d, 0, None, key) == Some(if Decode(d[18..22]) == Finite(1.0) then 1.0 else 0.0)
    ensures IsNaNOrInf(Decode(d[18..22])) ==> Codec.ParseValue(d, 0, None, key).None?
  {
    assert d[..4] == [0x81, 0x0A, 0x00, 0x17];
    assert d[3] == 0x17;
  }

  /** Humidity is accepted only up to 100 here, where the hub accepts up to 150. */
  lemma HumidityNarrowerThanHub(d: seq<byte>, v: real)
    requires |d| <= 1024 && IsWirelessResponse(d, 0) && !WaterSensorShape(d) && Decode(d[18..22]) == Finite(v)
    ensures 0.0 <= v <= 100.0 ==> ParseValue(d, 0, None, "humidity") == Some(v) && Codec.ParseValue(d, 0, None, "humidity") == Some(v)
    ensures 100.0 < v <= 150.0 ==> ParseValue(d, 0, None, "humidity").None? && Codec.ParseValue(d, 0, None, "humidity") == Some(v)
  {
    assert d[..4] == [0x81, 0x0A, 0x00, 0x17];
    assert d[3] == 0x17;
  }

  /**
   * The tag parsers agree except that the hub maps the values of multi-state outputs (type 14):
   * for every other object type the two give the same value.
   */
  lemma TaggedAgreesOffOutputs(d: seq<byte>, objectType: int, expected: Option<Range>)
    ensures objectType != 14 ==> ParseWired(d, objectType, expected) == Tagged(d, expected)
    ensures var e := Find(d, 0x91);
      e.Some? && e.value + 1 < |d| ==> ParseWired(d, objectType, expected) == Some(MultiState(Tagged(d, expected).value, objectType))
  {
  }

  /**
   * A worked example of `TaggedAgreesOffOutputs`: on an enumerated reply of 255 from a multi-state
   * output the script shows 255 where the hub shows 1 (n/a).
   */
  lemma OutputCodeRaw()
    ensures var d: seq<byte> := [0x81, 0x0A, 0x00, 0x08, 0x91, 0xFF, 0x01, 0x3F];
      Tagged(d, None) == Some(255.0) && ParseWired(d, 14, None) == Some(1.0)
  {
    var d: seq<byte> := [0x81, 0x0A, 0x00, 0x08, 0x91, 0xFF, 0x01, 0x3F];
    assert Find(d, 0x91) == Some(4);
  }

  /**
   * Apart from the water shape and type-0 wireless replies, the script parses a reply of up to 1024
   * bytes from an object other than a multi-state output as the hub does.
   */
  lemma AgreesWithHubElsewhere(d: seq<byte>, objectType: int, expected: Option<Range>, key: string)
    requires |d| <= 1024 && objectType != 14 && !WaterSensorShape(d) && !IsWirelessResponse(d, objectType)
    ensures ParseValue(d, objectType, expected, key) == Codec.ParseValue(d, objectType, expected, key)
  {
    TaggedAgreesOffOutputs(d, objectType, expected);
  }
}
