/**
 * The hub's BACnet/IP subset: request frames the client builds and the value parser it
 * applies to replies (custom_components/waterguard_linkbox/hub.py).
 */
module Codec {
  import opened Wrappers
  import opened Bytes
  import opened Float32
  import opened Const

  const ReadPropertyService: byte := 0x0C
  const WritePropertyService: byte := 0x0F

  /** A closed interval of accepted readings, Python's `(min, max)` tuple. */
  datatype Range = Range(lo: real, hi: real)

  // ---------------------------------------------------------------- unsigned

  /** The hub's unsigned encoding: one byte below 254, else a 254 or 255 marker and 2 or 3 bytes. */
  function EncodeUnsigned(v: nat): (r: seq<byte>)
    ensures |r| == (if v < 254 then 1 else if v < 0x1_0000 then 3 else 4)
  {
    if v < 254 then [v as byte]
    else if v < 0x1_0000 then [254, (v / 256 % 256) as byte, (v % 256) as byte]
    else [255, (v / 256 / 256 % 256) as byte, (v / 256 % 256) as byte, (v % 256) as byte]
  }

  /** Reads one encoded unsigned back: the inverse of EncodeUnsigned. */
  function DecodeUnsigned(s: seq<byte>): Option<nat>
  {
    if |s| == 1 && s[0] < 254 then Some(s[0] as nat)
    else if |s| == 3 && s[0] == 254 then Some(s[1] as nat * 256 + s[2] as nat)
    else if |s| == 4 && s[0] == 255 then Some(s[1] as nat * 0x1_0000 + s[2] as nat * 256 + s[3] as nat)
    else None
  }

  /** Number of bytes an encoded unsigned occupies, told by its first byte. */
  function UnsignedLength(first: byte): nat
  {
    if first < 254 then 1 else if first == 254 then 3 else 4
  }

  lemma UnsignedRoundTrip(v: nat)
    requires v < 0x100_0000
    ensures DecodeUnsigned(EncodeUnsigned(v)) == Some(v)
    ensures UnsignedLength(EncodeUnsigned(v)[0]) == |EncodeUnsigned(v)|
  {
    var q1 := v / 256;
    assert v == q1 * 256 + v % 256;
    assert q1 == q1 / 256 * 256 + q1 % 256;
  }

  /** Only three payload bytes follow the 255 marker, so values from 2^24 on lose their top bits. */
  lemma UnsignedDropsHighByte(v: nat)
    requires v >= 0x100_0000
    ensures DecodeUnsigned(EncodeUnsigned(v)) == Some(v % 0x100_0000)
  {
    var q1 := v / 256;
    var q2 := q1 / 256;
    var q3 := q2 / 256;
    var r0, r1, r2 := v % 256, q1 % 256, q2 % 256;
    assert v == q1 * 256 + r0;
    assert q1 == q2 * 256 + r1;
    assert q2 == q3 * 256 + r2;
    var low := r2 * 0x1_0000 + r1 * 256 + r0;
    assert v == q3 * 0x100_0000 + low;
    assert 0 <= low < 0x100_0000;
    LowBytes(v, q3, low);
  }

  lemma LowBytes(v: int, q: int, r: int)
    requires 0 <= r < 0x100_0000 && v == q * 0x100_0000 + r
    ensures v % 0x100_0000 == r
  {
  }

  // ---------------------------------------------------------------- request frames

  /** Object types fit 10 bits and instances the 22-bit instance field. */
  predicate ValidObject(objectType: nat, instance: nat)
  {
    objectType < 1024 && instance < 0x40_0000
  }

  /** `(object_type << 22) | object_instance` for fields that do not overlap. */
  function ObjectId(objectType: nat, instance: nat): (id: nat)
    requires ValidObject(objectType, instance)
    ensures id < 0x1_0000_0000
    ensures id / 0x40_0000 == objectType && id % 0x40_0000 == instance
  {
    objectType * 0x40_0000 + instance
  }

  /**
   * `(DEVICE << 22) | device_id` as `read_device_info` builds it: every bit of the id is kept and
   * bit 25 is set. None where `struct.pack(">L", …)` raises: a negative id, or a result of 32 bits or more.
   */
  function DeviceObjectIdOf(deviceId: int): (r: Option<nat>)
    ensures r.Some? <==> 0 <= deviceId < 0x1_0000_0000
    ensures r.Some? ==>
      && r.value < 0x1_0000_0000
      && r.value % 0x200_0000 == deviceId % 0x200_0000 && (r.value / 0x200_0000) % 2 == 1
      && r.value / 0x400_0000 == deviceId / 0x400_0000
  {
    if deviceId < 0 || deviceId >= 0x1_0000_0000 then None
    else if (deviceId / 0x200_0000) % 2 == 1 then Some(deviceId)
    else
      var high := deviceId / 0x400_0000;
      assert deviceId == high * 0x400_0000 + deviceId % 0x200_0000;
      Some(deviceId + 0x200_0000)
  }

  /** An id that fits the instance field leaves the type field to the device type alone. */
  lemma DeviceObjectIdOfSmall(deviceId: nat)
    requires deviceId < 0x40_0000
    ensures DeviceObjectIdOf(deviceId) == Some(ObjectId(DeviceObject, deviceId))
  {
  }

  /** A value as written by WriteProperty: an integer, or a single-precision real by its bytes. */
  datatype WriteArg = IntArg(n: int) | RealArg(bits: seq<byte>)

  /** The float has an integral value, Python's `value.is_integer()`. */
  predicate IsIntegral(f: Float)
  {
    f.Finite? && f.value.Floor as real == f.value
  }

  /** The integer a write argument becomes before encoding, if it becomes one. */
  function IntegralValue(arg: WriteArg): Option<int>
  {
    match arg
    case IntArg(n) => Some(n)
    case RealArg(bits) =>
      if |bits| == 4 && IsIntegral(Decode(bits)) then Some(Decode(bits).value.Floor) else None
  }

  /** The arguments the source encodes without raising: integers 0..2^32-1, any single-precision real. */
  predicate Encodable(arg: WriteArg)
  {
    (arg.RealArg? ==> |arg.bits| == 4)
    && (IntegralValue(arg).Some? ==> 0 <= IntegralValue(arg).value < 0x1_0000_0000)
  }

  /** The application-tagged value between the 3E and 3F context brackets. */
  function EncodeWriteValue(arg: WriteArg): (r: seq<byte>)
    requires Encodable(arg)
    ensures |r| == (match IntegralValue(arg) case Some(n) => (if n <= 0xFF then 4 else if n <= 0xFFFF then 5 else 7) case None => 7)
  {
    match IntegralValue(arg)
    case Some(n) =>
      if n <= 0xFF then [0x3E, 0x21, n as byte, 0x3F]
      else if n <= 0xFFFF then [0x3E, 0x22] + Be16(n) + [0x3F]
      else [0x3E, 0x24] + Be32(n) + [0x3F]
    case None => [0x3E, 0x44] + arg.bits + [0x3F]
  }

  /** Overwrites bytes 2-3 with the big-endian length of the whole frame. */
  function WithLength(packet: seq<byte>): (r: seq<byte>)
    requires 4 <= |packet| < 0x1_0000
    ensures |r| == |packet| && r[..2] == packet[..2] && r[4..] == packet[4..]
    ensures BigEndian(r[2..4]) == |packet|
  {
    var r := packet[..2] + Be16(|packet|) + packet[4..];
    assert r[2..4] == Be16(|packet|);
    r
  }

  /** BVLL, NPDU and APDU header, service choice, object identifier and property identifier. */
  function FrameBody(service: byte, objectType: nat, instance: nat, property: nat): seq<byte>
    requires ValidObject(objectType, instance)
  {
    [0x81, 0x0A, 0x00, 0x00, 0x01, 0x04, 0x00, 0x00, 0x01, service, 0x0C]
      + Be32(ObjectId(objectType, instance)) + [0x19] + EncodeUnsigned(property)
  }

  /** `_create_read_property_request`. */
  function ReadPropertyRequest(objectType: nat, instance: nat, property: nat): (r: seq<byte>)
    requires ValidObject(objectType, instance)
    ensures |r| == 16 + |EncodeUnsigned(property)|
    ensures r[..2] == [0x81, 0x0A] && BigEndian(r[2..4]) == |r|
    ensures r[9] == ReadPropertyService
    ensures property < 254 ==> |r| == 17
  {
    WithLength(FrameBody(ReadPropertyService, objectType, instance, property))
  }

  /** `_create_write_property_request`. */
  function WritePropertyRequest(objectType: nat, instance: nat, arg: WriteArg, property: nat): (r: seq<byte>)
    requires ValidObject(objectType, instance) && Encodable(arg)
    ensures |r| == 16 + |EncodeUnsigned(property)| + |EncodeWriteValue(arg)|
    ensures r[..2] == [0x81, 0x0A] && BigEndian(r[2..4]) == |r|
    ensures r[9] == WritePropertyService
  {
    WithLength(FrameBody(WritePropertyService, objectType, instance, property) + EncodeWriteValue(arg))
  }

  // ---------------------------------------------------------------- reading frames back

  /** A value on the wire: an unsigned integer (tags 21, 22, 24) or a real by its 4 bytes (tag 44). */
  datatype WireValue = UnsignedValue(n: nat) | RealValue(bits: seq<byte>)

  datatype Request =
    | ReadRequest(objectType: nat, instance: nat, property: nat)
    | WriteRequest(objectType: nat, instance: nat, property: nat, value: WireValue)

  /** The bracketed value of a WriteProperty frame. */
  function DecodeWriteValue(s: seq<byte>): Option<WireValue>
  {
    if |s| == 4 && s[0] == 0x3E && s[1] == 0x21 && s[3] == 0x3F then Some(UnsignedValue(s[2] as nat))
    else if |s| == 5 && s[0] == 0x3E && s[1] == 0x22 && s[4] == 0x3F then Some(UnsignedValue(BigEndian(s[2..4])))
    else if |s| == 7 && s[0] == 0x3E && s[1] == 0x24 && s[6] == 0x3F then Some(UnsignedValue(BigEndian(s[2..6])))
    else if |s| == 7 && s[0] == 0x3E && s[1] == 0x44 && s[6] == 0x3F then Some(RealValue(s[2..6]))
    else None
  }

  /** Reads a request frame: header checks, object identifier, property, and for writes the value. */
  function DecodeRequest(frame: seq<byte>): Option<Request>
  {
    if |frame| < 17 || frame[..2] != [0x81, 0x0A] || BigEndian(frame[2..4]) != |frame|
      || frame[4..9] != [0x01, 0x04, 0x00, 0x00, 0x01] || frame[10] != 0x0C || frame[15] != 0x19
    then None
    else
      var id := BigEndian(frame[11..15]);
      var plen := UnsignedLength(frame[16]);
      if 16 + plen > |frame| then None
      else match DecodeUnsigned(frame[16..16 + plen])
        case None => None
        case Some(p) =>
          var rest := frame[16 + plen..];
          if frame[9] == ReadPropertyService && rest == [] then
            Some(ReadRequest(id / 0x40_0000, id % 0x40_0000, p))
          else if frame[9] == WritePropertyService then
            match DecodeWriteValue(rest)
            case None => None
            case Some(w) => Some(WriteRequest(id / 0x40_0000, id % 0x40_0000, p, w))
          else None
  }

  /** What a write argument is sent as. */
  function WireValueOf(arg: WriteArg): WireValue
  {
    match IntegralValue(arg)
    case Some(n) => UnsignedValue(if n < 0 then 0 else n)
    case None => RealValue(arg.bits)
  }

  lemma FrameBodyLayout(service: byte, objectType: nat, instance: nat, property: nat, tail: seq<byte>)
    requires ValidObject(objectType, instance) && property < 0x100_0000
    ensures var f := FrameBody(service, objectType, instance, property) + tail;
      && |f| == 16 + |EncodeUnsigned(property)| + |tail|
      && f[..2] == [0x81, 0x0A] && f[4..9] == [0x01, 0x04, 0x00, 0x00, 0x01]
      && f[9] == service && f[10] == 0x0C && f[15] == 0x19
      && f[11..15] == Be32(ObjectId(objectType, instance))
      && UnsignedLength(f[16]) == |EncodeUnsigned(property)|
      && f[16..16 + |EncodeUnsigned(property)|] == EncodeUnsigned(property)
      && f[16 + |EncodeUnsigned(property)|..] == tail
  {
    UnsignedRoundTrip(property);
  }

  /** The fields of a finished frame: the header with its length, the object, the property, then `tail`. */
  lemma FrameLayout(service: byte, objectType: nat, instance: nat, property: nat, tail: seq<byte>)
    requires ValidObject(objectType, instance) && property < 0x100_0000 && |tail| < 0x100
    ensures var f := WithLength(FrameBody(service, objectType, instance, property) + tail);
      var plen := |EncodeUnsigned(property)|;
      && |f| == 16 + plen + |tail|
      && f[..2] == [0x81, 0x0A] && BigEndian(f[2..4]) == |f|
      && f[4..9] == [0x01, 0x04, 0x00, 0x00, 0x01]
      && f[9] == service && f[10] == 0x0C && f[15] == 0x19
      && BigEndian(f[11..15]) == ObjectId(objectType, instance)
      && UnsignedLength(f[16]) == plen
      && f[16..16 + plen] == EncodeUnsigned(property)
      && f[16 + plen..] == tail
  {
    var body := FrameBody(service, objectType, instance, property) + tail;
    FrameBodyLayout(service, objectType, instance, property, tail);
    var f := WithLength(body);
    var plen := |EncodeUnsigned(property)|;
    var t := f[4..];
    assert t == body[4..];
    assert f[4..9] == t[..5] && body[4..9] == body[4..][..5];
    assert f[9] == t[5] && f[10] == t[6] && f[15] == t[11] && f[16] == t[12];
    assert f[11..15] == t[7..11] && body[11..15] == body[4..][7..11];
    assert f[16..16 + plen] == t[12..12 + plen] && body[16..16 + plen] == body[4..][12..12 + plen];
    assert f[16 + plen..] == t[12 + plen..] && body[16 + plen..] == body[4..][12 + plen..];
  }

  /** Every read frame the client builds reads back as the object and property it was built for. */
  lemma ReadRequestRoundTrip(objectType: nat, instance: nat, property: nat)
    requires ValidObject(objectType, instance) && property < 0x100_0000
    ensures DecodeRequest(ReadPropertyRequest(objectType, instance, property))
      == Some(ReadRequest(objectType, instance, property))
  {
    var body := FrameBody(ReadPropertyService, objectType, instance, property);
    FrameLayout(ReadPropertyService, objectType, instance, property, []);
    assert body + [] == body;
    UnsignedRoundTrip(property);
  }

  lemma WriteValueRoundTrip(arg: WriteArg)
    requires Encodable(arg)
    ensures DecodeWriteValue(EncodeWriteValue(arg)) == Some(WireValueOf(arg))
  {
    match IntegralValue(arg)
    case Some(n) =>
      if n <= 0xFF {
      } else if n <= 0xFFFF {
        assert EncodeWriteValue(arg)[2..4] == Be16(n);
      } else {
        assert EncodeWriteValue(arg)[2..6] == Be32(n);
      }
    case None =>
      assert EncodeWriteValue(arg)[2..6] == arg.bits;
  }

  /** A real holding a whole number below 2^24 goes on the wire exactly as the integer would. */
  lemma IntegralRealWrittenAsInteger(n: nat)
    requires n < 0x100_0000
    ensures IntegralValue(RealArg(EncodeInteger(n))) == Some(n)
    ensures Encodable(RealArg(EncodeInteger(n)))
      && EncodeWriteValue(RealArg(EncodeInteger(n))) == EncodeWriteValue(IntArg(n))
  {
    IntegerRoundTrip(n);
    assert (n as real).Floor == n;
  }

  /** Every write frame reads back as its object, property and the value it was asked to write. */
  lemma WriteRequestRoundTrip(objectType: nat, instance: nat, arg: WriteArg, property: nat)
    requires ValidObject(objectType, instance) && Encodable(arg) && property < 0x100_0000
    ensures DecodeRequest(WritePropertyRequest(objectType, instance, arg, property))
      == Some(WriteRequest(objectType, instance, property, WireValueOf(arg)))
  {
    var tail := EncodeWriteValue(arg);
    var f := WritePropertyRequest(objectType, instance, arg, property);
    var plen := |EncodeUnsigned(property)|;
    FrameLayout(WritePropertyService, objectType, instance, property, tail);
    UnsignedRoundTrip(property);
    WriteValueRoundTrip(arg);
    assert DecodeUnsigned(f[16..16 + plen]) == Some(property);
    assert DecodeWriteValue(f[16 + plen..]) == Some(WireValueOf(arg));
  }

  /** A worked example of `FrameLayout`: the request for the valve count, as it appears on the wire. */
  lemma NumValvesFrame()
    ensures ReadPropertyRequest(13, 3, PresentValue)
      == [0x81, 0x0A, 0x00, 0x11, 0x01, 0x04, 0x00, 0x00, 0x01, 0x0C, 0x0C, 0x03, 0x40, 0x00, 0x03, 0x19, 0x55]
  {
  }

  // ---------------------------------------------------------------- parsing replies

  /** The 23-byte water sensor reply: `81 0A 00 17`, `01 00 30 01` and `3E 44 3F` at 16-18. */
  predicate WaterSensorShape(d: seq<byte>)
  {
    |d| == 23 && d[..4] == [0x81, 0x0A, 0x00, 0x17] && d[4..8] == [0x01, 0x00, 0x30, 0x01]
    && d[16..19] == [0x3E, 0x44, 0x3F]
  }

  /** `_is_wireless_sensor_response`. */
  predicate IsWirelessResponse(d: seq<byte>, objectType: int)
  {
    objectType == 0 && |d| >= 22 && d[..4] == [0x81, 0x0A, 0x00, 0x17] && d[16..18] == [0x3E, 0x44]
  }

  predicate IsLeakKey(key: string)
  {
    key == "leak1" || key == "leak2"
  }

  /** Keeps `v` when `lo <= v <= hi`. */
  function Bounded(v: real, lo: real, hi: real): Option<real>
  {
    if lo <= v <= hi then Some(v) else None
  }

  /** `_parse_wireless_sensor_response`. */
  function ParseWireless(d: seq<byte>, key: string): Option<real>
  {
    if WaterSensorShape(d) then Some(if d[19] == 0x80 then 1.0 else 0.0)
    else if |d| < 22 || d[16..18] != [0x3E, 0x44] then None
    else
      var f := Decode(d[18..22]);
      if IsNaNOrInf(f) then None
      else if IsLeakKey(key) then Some(if f.value == 1.0 then 1.0 else 0.0)
      else if key == "temperature" then Bounded(f.value, -50.0, 100.0)
      else if key == "humidity" then Bounded(f.value, 0.0, 150.0)
      else if key == "battery_voltage" then Bounded(f.value, 1.5, 4.0)
      else Some(f.value)
  }

  /** `_apply_multi_state_mapping`: only multi-state outputs are changed. */
  function MultiState(v: real, objectType: int): real
  {
    if objectType == 14 then
      if v == 319.0 then 1.0 else if 0.0 <= v <= 10.0 then v else 1.0
    else v
  }

  /** The two bytes after position `i`, read big-endian. */
  function TwoBytesAt(d: seq<byte>, i: nat): nat
    requires i + 3 <= |d|
  {
    d[i + 1] as nat * 256 + d[i + 2] as nat
  }

  /** The value after an unsigned tag at `i`: two bytes when they spell 319 or 1087, else one. */
  function UnsignedAt(d: seq<byte>, i: nat): real
    requires i + 1 < |d|
  {
    if i + 3 <= |d| && (TwoBytesAt(d, i) == 319 || TwoBytesAt(d, i) == 1087) then TwoBytesAt(d, i) as real
    else d[i + 1] as real
  }

  /** The real after a `44` tag at `i`, checked against the given range or -100..10000. */
  function RealAt(d: seq<byte>, i: nat, expected: Option<Range>): Option<real>
    requires i + 5 <= |d|
  {
    var f := Decode(d[i + 1..i + 5]);
    if IsNaNOrInf(f) then None
    else match expected
      case Some(r) => Bounded(f.value, r.lo, r.hi)
      case None => Bounded(f.value, -100.0, 10000.0)
  }

  /** `_parse_wired_sensor_value`: enumerated, unsigned, boolean, then real, each at its first tag byte. */
  function ParseWired(d: seq<byte>, objectType: int, expected: Option<Range>): Option<real>
  {
    var e := Find(d, 0x91);
    var u := Find(d, 0x21);
    var b := Find(d, 0x10);
    var f := Find(d, 0x44);
    if e.Some? && e.value + 1 < |d| then Some(MultiState(d[e.value + 1] as real, objectType))
    else if u.Some? && u.value + 1 < |d| then Some(MultiState(UnsignedAt(d, u.value), objectType))
    else if b.Some? && b.value + 1 < |d| then Some(d[b.value + 1] as real)
    else if f.Some? && f.value + 5 <= |d| then RealAt(d, f.value, expected)
    else None
  }

  /** At most 1024 bytes of a reply are looked at. */
  function Truncated(d: seq<byte>): (r: seq<byte>)
    ensures |r| == (if |d| > 1024 then 1024 else |d|) && r == d[..|r|]
  {
    if |d| > 1024 then d[..1024] else d
  }

  /** Byte 3 has its 0x02 bit set and is not the water sensor marker 0x17. */
  predicate ErrorMarked(d: seq<byte>)
    requires |d| >= 4
  {
    BitSet(d[3], 2) && d[3] != 0x17
  }

  /** `_parse_value`. An empty `key` stands for a missing sensor key. */
  function ParseValue(data: seq<byte>, objectType: int, expected: Option<Range>, key: string): Option<real>
  {
    if |data| < 4 then None
    else
      var d := Truncated(data);
      if ErrorMarked(d) then None
      else if IsWirelessResponse(d, objectType) then ParseWireless(d, if key == "" then "unknown" else key)
      else ParseWired(d, objectType, expected)
  }

  // ---------------------------------------------------------------- parser properties

  /** Short replies and replies marked as errors yield no value. */
  lemma RejectsShortAndErrorReplies(data: seq<byte>, objectType: int, expected: Option<Range>, key: string)
    ensures |data| < 4 ==> ParseValue(data, objectType, expected, key) == None
    ensures |data| >= 4 && BitSet(data[3], 2) && data[3] != 0x17 ==> ParseValue(data, objectType, expected, key) == None
  {
  }

  /**
   * The routing of `_parse_value` by `IsWirelessResponse`: only analog inputs can reach the wireless
   * parser, and a 22-byte or longer analog reply with the `81 0A 00 17` header and `3E 44` at
   * bytes 16-17 always does, although its byte 3 carries the error bit.
   */
  lemma WirelessRouting(data: seq<byte>, objectType: int, expected: Option<Range>, key: string)
    requires |data| >= 4
    ensures objectType != 0 ==>
      ParseValue(data, objectType, expected, key)
        == (if ErrorMarked(Truncated(data)) then None else ParseWired(Truncated(data), objectType, expected))
    ensures |data| >= 22 && data[..4] == [0x81, 0x0A, 0x00, 0x17] && data[16..18] == [0x3E, 0x44] ==>
      ParseValue(data, 0, expected, key) == ParseWireless(Truncated(data), if key == "" then "unknown" else key)
  {
  }

  /** Bytes beyond the first 1024 never influence the parsed value. */
  lemma IgnoresBytesBeyond1024(a: seq<byte>, b: seq<byte>, objectType: int, expected: Option<Range>, key: string)
    requires |a| >= 1024 && |b| >= 1024 && a[..1024] == b[..1024]
    ensures ParseValue(a, objectType, expected, key) == ParseValue(b, objectType, expected, key)
  {
    assert Truncated(a) == Truncated(b);
  }

  /** A wireless leak reading is 0.0 or 1.0, and 1.0 exactly when the hub says wet. */
  lemma LeakReadingIsZeroOrOne(d: seq<byte>, key: string)
    requires IsLeakKey(key)
    ensures var r := ParseWireless(d, key);
      r.Some? ==> r.value == 0.0 || r.value == 1.0
    ensures WaterSensorShape(d) ==> (ParseWireless(d, key) == Some(1.0) <==> d[19] == 0x80)
    ensures !WaterSensorShape(d) && |d| >= 22 && d[16..18] == [0x3E, 0x44] ==>
      (ParseWireless(d, key) == Some(1.0) <==> Decode(d[18..22]) == Finite(1.0))
      && (ParseWireless(d, key).None? <==> IsNaNOrInf(Decode(d[18..22])))
  {
  }

  /** Temperature, humidity and battery readings lie in their plausible ranges. */
  lemma WirelessRangesHold(d: seq<byte>, key: string)
    ensures var r := ParseWireless(d, key);
      && (key == "temperature" && r.Some? && !WaterSensorShape(d) ==> -50.0 <= r.value <= 100.0)
      && (key == "humidity" && r.Some? && !WaterSensorShape(d) ==> 0.0 <= r.value <= 150.0)
      && (key == "battery_voltage" && r.Some? && !WaterSensorShape(d) ==> 1.5 <= r.value <= 4.0)
  {
  }

  /** Multi-state outputs are forced into 0..10, with 319 and larger codes read as 1 (n/a). */
  lemma OutputCodesForcedIntoRange(v: real)
    ensures 0.0 <= MultiState(v, 14) <= 10.0
    ensures MultiState(v, 14) == v <==> 0.0 <= v <= 10.0
    ensures v == 319.0 || v > 10.0 || v < 0.0 ==> MultiState(v, 14) == 1.0
    ensures forall t: int :: t != 14 ==> MultiState(v, t) == v
  {
  }

  /** The first enumerated tag that is followed by a byte decides the value. */
  lemma EnumeratedTagWins(d: seq<byte>, objectType: int, expected: Option<Range>, i: nat)
    requires i + 1 < |d| && d[i] == 0x91 && forall j :: 0 <= j < i ==> d[j] != 0x91
    ensures ParseWired(d, objectType, expected) == Some(MultiState(d[i + 1] as real, objectType))
  {
    var e := Find(d, 0x91);
    assert e.Some? by { assert d[i] == 0x91; }
    assert e.value == i;
  }

  /**
   * With no usable enumerated tag (none at all, or only one in the last position) the first
   * unsigned tag decides; 319 and 1087 are read as two bytes.
   */
  lemma UnsignedTagPrefersSpecialCodes(d: seq<byte>, objectType: int, expected: Option<Range>, i: nat)
    requires forall j :: 0 <= j < |d| - 1 ==> d[j] != 0x91
    requires i + 3 <= |d| && d[i] == 0x21 && forall j :: 0 <= j < i ==> d[j] != 0x21
    ensures var two := d[i + 1] as nat * 256 + d[i + 2] as nat;
      ParseWired(d, objectType, expected)
      == Some(MultiState(if two == 319 || two == 1087 then two as real else d[i + 1] as real, objectType))
  {
    var e := Find(d, 0x91);
    assert !(e.Some? && e.value + 1 < |d|);
    var u := Find(d, 0x21);
    assert u.Some? by { assert d[i] == 0x21; }
    assert u.value == i;
  }

  /** A real tag reached last yields a finite value inside the expected range, or nothing. */
  lemma RealTagWithinRange(d: seq<byte>, objectType: int, r: Range, i: nat)
    requires forall j :: 0 <= j < |d| ==> d[j] != 0x91 && d[j] != 0x21 && d[j] != 0x10
    requires i + 5 <= |d| && d[i] == 0x44 && forall j :: 0 <= j < i ==> d[j] != 0x44
    ensures var v := ParseWired(d, objectType, Some(r));
      && (v.Some? <==> Within(Decode(d[i + 1..i + 5]), r.lo, r.hi))
      && (v.Some? ==> Decode(d[i + 1..i + 5]) == Finite(v.value))
  {
    var f := Find(d, 0x44);
    assert f.Some? by { assert d[i] == 0x44; }
    assert f.value == i;
  }

  /** A reply in the water sensor shape read for a type-0 object gives the water reading. */
  lemma WaterShapeReading(d: seq<byte>, expected: Option<Range>, key: string)
    requires WaterSensorShape(d)
    ensures ParseValue(d, 0, expected, key) == Some(if d[19] == 0x80 then 1.0 else 0.0)
  {
    assert d[..4][3] == d[3];
    assert d[16..18] == d[16..19][..2];
  }
}
