/**
 * The device-id discovery script (discover_device_id.py): the ReadProperty frame it sends to a
 * device object, the scan of a reply for object identifiers and a name string, and the test of
 * a verification reply. Sending and receiving are not modelled.
 */
module DeviceId {
  import opened Wrappers
  import opened Bytes

  /** The bit the device type 8 sets in an object identifier: `8 << 22`. */
  const DeviceTypeBit: nat := 0x0200_0000

  /**
   * `(8 << 22) | device_id` as `struct.pack('>I')` accepts it: the or with a single bit adds the bit
   * unless it is already set, and None stands for an identifier that needs more than 32 bits.
   */
  function DeviceObjectId(deviceId: nat): (r: Option<nat>)
    ensures r.Some? <==> deviceId < 0x1_0000_0000
    ensures r.Some? ==> r.value < 0x1_0000_0000 && r.value % DeviceTypeBit == deviceId % DeviceTypeBit
    ensures r.Some? ==> (r.value / DeviceTypeBit) % 2 == 1
  {
    if deviceId >= 0x1_0000_0000 then None
    else if (deviceId / DeviceTypeBit) % 2 == 1 then Some(deviceId)
    else Some(deviceId + DeviceTypeBit)
  }

  /** For an instance within the 22-bit field, the identifier holds type 8 above it and the instance in it. */
  lemma DeviceObjectIdFields(deviceId: nat)
    requires deviceId < 0x40_0000
    ensures DeviceObjectId(deviceId) == Some(8 * 0x40_0000 + deviceId)
    ensures DeviceObjectId(deviceId).value % 0x40_0000 == deviceId
    ensures DeviceObjectId(deviceId).value / 0x40_0000 == 8
  {
  }

  /** The fixed header: BVLL with a length to patch, NPDU, and an APDU of three bytes ending in the service. */
  const Header: seq<byte> := [0x81, 0x0A, 0x00, 0x00, 0x01, 0x04, 0x00, 0x01, 0x0C]

  /** A 16-byte ReadProperty frame for a device and a property, its length in bytes 2-3. */
  predicate ReadPropertyFrame(p: seq<byte>, deviceId: nat, propertyId: nat)
  {
    && DeviceObjectId(deviceId).Some? && propertyId < 256
    && |p| == 16 && p[..2] == [0x81, 0x0A] && p[2..4] == [0x00, 0x10]
    && p[4..9] == Header[4..] && p[9] == 0x0C
    && p[10..14] == Be32(DeviceObjectId(deviceId).value)
    && p[14..] == [0x19, propertyId as byte]
  }

  /** The frame is determined by the device and the property; its length field is its length. */
  lemma FrameDetermined(p: seq<byte>, q: seq<byte>, deviceId: nat, propertyId: nat)
    requires ReadPropertyFrame(p, deviceId, propertyId) && ReadPropertyFrame(q, deviceId, propertyId)
    ensures p == q
    ensures BigEndian(p[2..4]) == |p| && BigEndian(p[10..14]) == DeviceObjectId(deviceId).value
  {
    assert p == p[..2] + p[2..4] + p[4..9] + [p[9]] + p[10..14] + p[14..];
    assert q == q[..2] + q[2..4] + q[4..9] + [q[9]] + q[10..14] + q[14..];
    assert Be16(16) == [0x00, 0x10];
  }

  /**
   * `create_read_property_packet`: the header, tag 0x0C and the object identifier, tag 0x19 and the
   * property in one byte, then the length patched into bytes 2-3. None where Python raises: an
   * identifier beyond 32 bits or a property beyond one byte.
   */
  method CreateReadPropertyPacket(deviceId: nat, propertyId: nat) returns (packet: Option<seq<byte>>)
    ensures packet.None? <==> deviceId >= 0x1_0000_0000 || propertyId >= 256
    ensures packet.Some? ==> ReadPropertyFrame(packet.value, deviceId, propertyId)
  {
    var buffer := Header;
    buffer := buffer + [0x0C];
    var id := DeviceObjectId(deviceId);
    if id.None? {
      return None;
    }
    buffer := buffer + Be32(id.value);
    if propertyId >= 256 {
      return None;
    }
    buffer := buffer + [0x19, propertyId as byte];
    assert buffer[10..14] == Be32(id.value) && buffer[4..9] == Header[4..];
    assert |buffer| == 16;
    var length := Be16(|buffer|);
    assert length == [0x00, 0x10];
    buffer := buffer[..2] + length + buffer[4..];
    assert buffer[10..14] == Be32(id.value) && buffer[4..9] == Header[4..];
    return Some(buffer);
  }

  // ---------------------------------------------------------------- reading a reply

  /** The instance number after an object-identifier tag at `i`: the next four bytes masked with 0x3FFFFF. */
  function InstanceAt(r: seq<byte>, i: nat): nat
    requires i + 5 <= |r|
  {
    BigEndian(r[i + 1..i + 5]) % 0x40_0000
  }

  /** Position `i` holds the tag 0x0C followed by four bytes with a non-zero instance number. */
  predicate IdTagAt(r: seq<byte>, i: nat)
  {
    i + 5 <= |r| && r[i] == 0x0C && InstanceAt(r, i) != 0
  }

  /** The instance numbers found at the tags before position `n`. */
  function IdsBefore(r: seq<byte>, n: nat): set<nat>
  {
    set i | 0 <= i < n && IdTagAt(r, i) :: InstanceAt(r, i)
  }

  /** `name_bytes.decode('ascii', errors='replace')`. */
  function Ascii(bs: seq<byte>): (s: string)
    ensures |s| == |bs|
    ensures forall k :: 0 <= k < |bs| ==> s[k] == if bs[k] < 128 then bs[k] as char else 0xFFFD as char
  {
    if bs == [] then [] else Ascii(bs[..|bs| - 1]) + [if bs[|bs| - 1] < 128 then bs[|bs| - 1] as char else 0xFFFD as char]
  }

  /** Position `i` of the name scan holds the string tag 0x75 and a length that fits in the reply. */
  predicate NameFitsAt(r: seq<byte>, i: nat)
  {
    i + 2 < |r| && r[i] == 0x75 && i + 2 + r[i + 1] as nat <= |r|
  }

  /** The name at the first fitting string tag from position `i` on. */
  function NameFrom(r: seq<byte>, i: nat): Option<string>
    decreases |r| - i
  {
    if i + 2 >= |r| then None
    else if NameFitsAt(r, i) then Some(Ascii(r[i + 2..i + 2 + r[i + 1] as nat]))
    else NameFrom(r, i + 1)
  }

  /** The name comes from the first fitting string tag, and there is none exactly when no tag fits. */
  lemma {:induction false} NameIsFirstFit(r: seq<byte>, i: nat, j: nat)
    requires i <= j && NameFitsAt(r, j) && forall k :: i <= k < j ==> !NameFitsAt(r, k)
    ensures NameFrom(r, i) == Some(Ascii(r[j + 2..j + 2 + r[j + 1] as nat]))
    decreases j - i
  {
    if i < j {
      assert !NameFitsAt(r, i);
      NameIsFirstFit(r, i + 1, j);
    }
  }

  lemma {:induction false} NoNameWithoutFit(r: seq<byte>, i: nat)
    ensures NameFrom(r, i).None? <==> forall k :: i <= k ==> !NameFitsAt(r, k)
    decreases |r| - i
  {
    if i + 2 >= |r| {
      assert forall k :: i <= k ==> !NameFitsAt(r, k);
    } else {
      NoNameWithoutFit(r, i + 1);
      if NameFitsAt(r, i) {
        assert NameFrom(r, i).Some?;
      } else {
        assert (forall k :: i <= k ==> !NameFitsAt(r, k)) <==> (forall k :: i + 1 <= k ==> !NameFitsAt(r, k));
      }
    }
  }

  /**
   * `extract_device_info`: every object-identifier tag contributes its instance number when it is
   * not zero, and the name is read at the first fitting string tag. The returned list is
   * `list(set(...))`, whose order Python leaves open; the model returns the set.
   */
  method ExtractDeviceInfo(response: seq<byte>) returns (deviceIds: set<nat>, objectName: Option<string>)
    ensures deviceIds == IdsBefore(response, if |response| >= 4 then |response| - 4 else 0)
    ensures forall id :: id in deviceIds ==> 1 <= id < 0x40_0000
    ensures objectName == NameFrom(response, 0)
  {
    var ids: seq<nat> := [];
    var n := if |response| >= 4 then |response| - 4 else 0;
    var i := 0;
    while i < n
      invariant 0 <= i <= n
      invariant (set k | 0 <= k < |ids| :: ids[k]) == IdsBefore(response, i)
    {
      var before := ids;
      if response[i] == 0x0C {
        var instance := BigEndian(response[i + 1..i + 5]) % 0x40_0000;
        if 1 <= instance <= 4194303 {
          ids := ids + [instance];
        }
      }
      Extend(response, i, ids, before);
      i := i + 1;
    }
    deviceIds := set k | 0 <= k < |ids| :: ids[k];
    objectName := None;
    var m := if |response| >= 2 then |response| - 2 else 0;
    var j := 0;
    while j < m
      invariant 0 <= j <= m
      invariant objectName.None? ==> NameFrom(response, 0) == NameFrom(response, j)
      invariant objectName.Some? ==> objectName == NameFrom(response, 0)
    {
      if response[j] == 0x75 {
        var strlen := response[j + 1] as nat;
        if j + 2 + strlen <= |response| {
          objectName := Some(Ascii(response[j + 2..j + 2 + strlen]));
          break;
        }
      }
      j := j + 1;
    }
  }

  /** One more position of the identifier scan adds its instance number exactly when it holds a tag. */
  lemma Extend(r: seq<byte>, i: nat, ids: seq<nat>, before: seq<nat>)
    requires (set k | 0 <= k < |before| :: before[k]) == IdsBefore(r, i)
    requires IdTagAt(r, i) ==> |ids| > 0 && before == ids[..|ids| - 1] && ids[|ids| - 1] == InstanceAt(r, i)
    requires !IdTagAt(r, i) ==> ids == before
    ensures (set k | 0 <= k < |ids| :: ids[k]) == IdsBefore(r, i + 1)
  {
    var all := set k | 0 <= k < |ids| :: ids[k];
    if IdTagAt(r, i) {
      assert ids == before + [InstanceAt(r, i)];
      assert all == (set k | 0 <= k < |before| :: before[k]) + {InstanceAt(r, i)};
    }
    assert IdsBefore(r, i + 1) == IdsBefore(r, i) + (if IdTagAt(r, i) then {InstanceAt(r, i)} else {});
  }

  /** `verify_device_id`'s test of the reply; no reply (a timeout or any error) fails. */
  predicate VerifiedReply(response: Option<seq<byte>>)
  {
    response.Some? && |response.value| > 6 && (response.value[6] == 0x30 || response.value[6] == 0x60)
  }

  /**
   * `verify_device_id`: ask the device for its object name (property 77); `send` is the exchange
   * with the hub, None for a timeout or a socket error. A device id beyond 32 bits fails.
   */
  method VerifyDeviceId(deviceId: nat, send: seq<byte> -> Option<seq<byte>>) returns (ok: bool)
    ensures ok ==> deviceId < 0x1_0000_0000
    ensures forall p | ReadPropertyFrame(p, deviceId, 77) :: ok == VerifiedReply(send(p))
  {
    var packet := CreateReadPropertyPacket(deviceId, 77);
    if packet.None? {
      return false;
    }
    var response := send(packet.value);
    ok := response.Some? && |response.value| > 6 && response.value[6] in [0x30, 0x60];
    forall p | ReadPropertyFrame(p, deviceId, 77)
      ensures ok == VerifiedReply(send(p))
    {
      FrameDetermined(p, packet.value, deviceId, 77);
    }
  }

  /** A device that answered its verification request. */
  datatype VerifiedDevice = VerifiedDevice(ip: string, port: nat, deviceId: nat, objectName: Option<string>)

  function DeviceIds(devices: seq<VerifiedDevice>): set<nat>
  {
    set k | 0 <= k < |devices| :: devices[k].deviceId
  }

  lemma DeviceIdsSnoc(devices: seq<VerifiedDevice>, v: VerifiedDevice)
    ensures DeviceIds(devices + [v]) == DeviceIds(devices) + {v.deviceId}
  {
    var next := devices + [v];
    assert next[|devices|] == v;
    forall x | x in DeviceIds(next)
      ensures x in DeviceIds(devices) + {v.deviceId}
    {
      var k :| 0 <= k < |next| && next[k].deviceId == x;
      if k < |devices| {
        assert next[k] == devices[k];
      }
    }
    forall x | x in DeviceIds(devices)
      ensures x in DeviceIds(next)
    {
      var k :| 0 <= k < |devices| && devices[k].deviceId == x;
      assert next[k] == devices[k];
    }
  }

  /** The instance numbers `extract_device_info` reads from a whole reply. */
  function ReplyIds(r: seq<byte>): set<nat>
  {
    IdsBefore(r, if |r| >= 4 then |r| - 4 else 0)
  }

  /**
   * `discover_devices`: send the probe, read the device ids and the name from the reply, and keep
   * the ids whose verification succeeds, each once. No reply, or no id in it, discovers nothing.
   */
  method DiscoverDevices(targetIp: string, send: seq<byte> -> Option<seq<byte>>) returns (devices: seq<VerifiedDevice>)
    ensures send(Probe).None? ==> devices == []
    ensures send(Probe).Some? ==> Discovered(devices, targetIp, send(Probe).value, send)
  {
    var response := send(Probe);
    if response.None? {
      return [];
    }
    var ids, name := ExtractDeviceInfo(response.value);
    devices := VerifyEach(targetIp, ids, name, send);
  }

  /**
   * What discovery reports for a reply: every device at the target and the BACnet port, named as
   * the reply names one, each id once, and exactly the reply's ids that pass verification.
   */
  predicate Discovered(devices: seq<VerifiedDevice>, targetIp: string, reply: seq<byte>, send: seq<byte> -> Option<seq<byte>>)
  {
    Listed(devices, targetIp, NameFrom(reply, 0), ReplyIds(reply), send)
  }

  /**
   * `devices` lists, once each and in some order, exactly the ids of `ids` that verified, each with
   * the target's address, the BACnet port and the name from the reply.
   */
  predicate Listed(devices: seq<VerifiedDevice>, targetIp: string, name: Option<string>, ids: set<nat>, send: seq<byte> -> Option<seq<byte>>)
  {
    && (forall k :: 0 <= k < |devices| ==> devices[k] == VerifiedDevice(targetIp, 47808, devices[k].deviceId, name))
    && (forall k, l :: 0 <= k < l < |devices| ==> devices[k].deviceId != devices[l].deviceId)
    && DeviceIds(devices) == Verified(ids, send)
  }

  /** The ids among `ids` whose object-name read gets a verifying reply. */
  function Verified(ids: set<nat>, send: seq<byte> -> Option<seq<byte>>): set<nat>
  {
    set d | d in ids && VerifiedReply(send(ReadPropertyPacket(d)))
  }

  lemma VerifiedAdd(ids: set<nat>, d: nat, send: seq<byte> -> Option<seq<byte>>)
    ensures Verified(ids + {d}, send) == Verified(ids, send) + (if VerifiedReply(send(ReadPropertyPacket(d))) then {d} else {})
  {
  }

  /** The verification loop of `discover_devices`, over the ids of the reply. */
  method VerifyEach(targetIp: string, ids: set<nat>, name: Option<string>, send: seq<byte> -> Option<seq<byte>>)
    returns (devices: seq<VerifiedDevice>)
    requires forall d :: d in ids ==> d < 0x40_0000
    ensures Listed(devices, targetIp, name, ids, send)
  {
    devices := [];
    var remaining := ids;
    ghost var done: set<nat> := {};
    while remaining != {}
      invariant remaining <= ids && done == ids - remaining
      invariant Listed(devices, targetIp, name, done, send)
      decreases |remaining|
    {
      var d :| d in remaining;
      devices := VerifyNext(targetIp, d, name, send, devices, done);
      remaining := remaining - {d};
      done := done + {d};
    }
  }

  /** One id of the loop: verified, it is appended; otherwise the list stays as it is. */
  method VerifyNext(targetIp: string, d: nat, name: Option<string>, send: seq<byte> -> Option<seq<byte>>,
                    devices: seq<VerifiedDevice>, ghost done: set<nat>)
    returns (next: seq<VerifiedDevice>)
    requires d < 0x40_0000 && d !in done && Listed(devices, targetIp, name, done, send)
    ensures Listed(next, targetIp, name, done + {d}, send)
    ensures next == devices || next == devices + [VerifiedDevice(targetIp, 47808, d, name)]
  {
    var ok := VerifyDeviceId(d, send);
    assert ok == VerifiedReply(send(ReadPropertyPacket(d)));
    VerifiedAdd(done, d, send);
    assert d !in DeviceIds(devices);
    next := devices;
    if ok {
      DeviceIdsSnoc(devices, VerifiedDevice(targetIp, 47808, d, name));
      next := devices + [VerifiedDevice(targetIp, 47808, d, name)];
    }
  }

  /** The frame asking device `d` (an instance from a reply, so below 2^22) for its object name. */
  function ReadPropertyPacket(d: nat): (p: seq<byte>)
    ensures d < 0x1_0000_0000 ==> ReadPropertyFrame(p, d, 77)
  {
    if d >= 0x1_0000_0000 then []
    else Header[..2] + [0x00, 0x10] + Header[4..] + [0x0C] + Be32(DeviceObjectId(d).value) + [0x19, 77]
  }

  /** The probe `discover_devices` sends: a ReadProperty of the object name (77) of device 4194303. */
  const Probe: seq<byte> := [0x81, 0x0A, 0x00, 0x11, 0x01, 0x04, 0x00, 0x05, 0x01, 0x0C, 0x0C, 0x02, 0x3F, 0xFF, 0xFF, 0x19, 0x4D]

  /** The probe's length field is its length, and it names the device object with the largest instance. */
  lemma ProbeLayout()
    ensures |Probe| == 17 && BigEndian(Probe[2..4]) == |Probe|
    ensures BigEndian(Probe[11..15]) == 8 * 0x40_0000 + 0x3F_FFFF && Probe[15..] == [0x19, 77]
  {
    assert Probe[2..4] == Be16(17);
    assert Probe[11..15] == Be32(8 * 0x40_0000 + 0x3F_FFFF);
  }
}
