/**
 * Hub discovery (custom_components/waterguard_linkbox/discovery.py): a Who-Is broadcast and a
 * datagram protocol that records each I-Am answer once. The socket, the broadcast and the five
 * second wait are not modelled; the answers that arrive during the wait are a parameter.
 */
module Discovery {
  import opened Bytes

  const BroadcastPort: nat := 47808

  /** The Who-Is broadcast: BVLL original-broadcast, NPDU, and an unconfirmed Who-Is. */
  const WhoIsPacket: seq<byte> := [0x81, 0x0B, 0x00, 0x0C, 0x01, 0x20, 0xFF, 0xFF, 0x00, 0xFF, 0x10, 0x08]

  /** The Who-Is packet is twelve bytes, as its BVLL length field says, and it is a broadcast frame. */
  lemma WhoIsLength()
    ensures |WhoIsPacket| == 12 && BigEndian(WhoIsPacket[2..4]) == |WhoIsPacket|
    ensures WhoIsPacket[..2] == [0x81, 0x0B]
  {
    assert WhoIsPacket[2..4] == Be16(12);
  }

  /** A discovered hub: the sender's host, the BACnet port and the device id from the answer. */
  datatype HubInfo = HubInfo(host: string, port: nat, deviceId: nat)

  /** The basic I-Am test: more than twelve bytes with `01 00 00 00` at bytes 4 to 7. */
  predicate IsIAm(data: seq<byte>)
  {
    |data| > 12 && data[4..8] == [0x01, 0x00, 0x00, 0x00]
  }

  /** The device id: bytes 12 to 15 read big-endian, fewer when the datagram is shorter. */
  function DeviceIdOf(data: seq<byte>): (r: nat)
    requires |data| > 12
    ensures r < 0x1_0000_0000
  {
    var end := if |data| < 16 then |data| else 16;
    BigEndianBound(data[12..end]);
    BigEndian(data[12..end])
  }

  lemma BigEndianBound(s: seq<byte>)
    requires |s| <= 4
    ensures BigEndian(s) < 0x1_0000_0000
    ensures |s| < 4 ==> BigEndian(s) < 0x100_0000
  {
    BigEndianBelow(s);
  }

  lemma {:induction false} BigEndianBelow(s: seq<byte>)
    ensures |s| == 0 ==> BigEndian(s) < 1
    ensures |s| == 1 ==> BigEndian(s) < 0x100
    ensures |s| == 2 ==> BigEndian(s) < 0x1_0000
    ensures |s| == 3 ==> BigEndian(s) < 0x100_0000
    ensures |s| == 4 ==> BigEndian(s) < 0x1_0000_0000
  {
    if s != [] {
      BigEndianBelow(s[..|s| - 1]);
    }
  }

  /** The hub list after one datagram: an I-Am from a hub not yet listed is appended. */
  function Received(hubs: seq<HubInfo>, data: seq<byte>, host: string): seq<HubInfo>
  {
    if IsIAm(data) && HubInfo(host, BroadcastPort, DeviceIdOf(data)) !in hubs
    then hubs + [HubInfo(host, BroadcastPort, DeviceIdOf(data))]
    else hubs
  }

  predicate Distinct(hubs: seq<HubInfo>)
  {
    forall k, l :: 0 <= k < l < |hubs| ==> hubs[k] != hubs[l]
  }

  /**
   * One datagram keeps the list free of duplicates and loses nothing; it adds its hub exactly when
   * it is an I-Am, and then the hub is in the list whether or not it was before.
   */
  lemma ReceivedCases(hubs: seq<HubInfo>, data: seq<byte>, host: string)
    ensures var r := Received(hubs, data, host);
      && (Distinct(hubs) ==> Distinct(r))
      && (forall h :: h in hubs ==> h in r)
      && (forall h :: h in r ==> h in hubs || (IsIAm(data) && h == HubInfo(host, BroadcastPort, DeviceIdOf(data))))
      && (IsIAm(data) ==> HubInfo(host, BroadcastPort, DeviceIdOf(data)) in r)
      && (!IsIAm(data) ==> r == hubs)
      && (|r| == |hubs| || |r| == |hubs| + 1)
  {
  }

  /** The hub list after a series of datagrams, each a payload and its sender's host. */
  function ReceivedAll(hubs: seq<HubInfo>, datagrams: seq<(seq<byte>, string)>): seq<HubInfo>
  {
    if datagrams == [] then hubs
    else
      var last := datagrams[|datagrams| - 1];
      Received(ReceivedAll(hubs, datagrams[..|datagrams| - 1]), last.0, last.1)
  }

  /**
   * Whatever arrives, every hub is listed once, and a hub is listed exactly when it was listed
   * before or some I-Am announced it.
   */
  lemma {:induction false} ReceivedAllLists(hubs: seq<HubInfo>, datagrams: seq<(seq<byte>, string)>)
    requires Distinct(hubs)
    ensures Distinct(ReceivedAll(hubs, datagrams))
    ensures forall h :: h in ReceivedAll(hubs, datagrams) <==>
      h in hubs || exists j :: 0 <= j < |datagrams| && Announces(datagrams[j], h)
  {
    if datagrams != [] {
      var n := |datagrams| - 1;
      var before := ReceivedAll(hubs, datagrams[..n]);
      ReceivedAllLists(hubs, datagrams[..n]);
      ReceivedCases(before, datagrams[n].0, datagrams[n].1);
      forall h
        ensures h in ReceivedAll(hubs, datagrams) <==>
          h in hubs || exists j :: 0 <= j < |datagrams| && Announces(datagrams[j], h)
      {
        if h in ReceivedAll(hubs, datagrams) && h !in before {
          assert Announces(datagrams[n], h);
        }
        if exists j :: 0 <= j < |datagrams| && Announces(datagrams[j], h) {
          var j :| 0 <= j < |datagrams| && Announces(datagrams[j], h);
          if j < n {
            assert datagrams[..n][j] == datagrams[j];
          }
        }
        if h in before && h !in hubs {
          var j :| 0 <= j < n && Announces(datagrams[..n][j], h);
          assert datagrams[..n][j] == datagrams[j];
        }
      }
    }
  }

  /** The datagram is an I-Am that names hub `h`. */
  predicate Announces(datagram: (seq<byte>, string), h: HubInfo)
  {
    IsIAm(datagram.0) && h == HubInfo(datagram.1, BroadcastPort, DeviceIdOf(datagram.0))
  }

  class DiscoveryProtocol {
    var discoveredHubs: seq<HubInfo>

    constructor (discoveredHubs: seq<HubInfo>)
      ensures this.discoveredHubs == discoveredHubs
    {
      this.discoveredHubs := discoveredHubs;
    }

    /** `datagram_received`: the I-Am test, the device id, and the duplicate check before appending. */
    method DatagramReceived(data: seq<byte>, host: string)
      modifies this
      ensures discoveredHubs == Received(old(discoveredHubs), data, host)
    {
      if |data| > 12 && data[4..8] == [0x01, 0x00, 0x00, 0x00] {
        var end := if |data| < 16 then |data| else 16;
        var deviceId := BigEndian(data[12..end]);
        var hubInfo := HubInfo(host, BroadcastPort, deviceId);
        if hubInfo !in discoveredHubs {
          discoveredHubs := discoveredHubs + [hubInfo];
        }
      }
    }
  }

  /**
   * `async_discover_hubs` from the broadcast on: the answers that arrive during the wait, in
   * order, each handed to the protocol, and the list it fills returned.
   */
  method AsyncDiscoverHubs(datagrams: seq<(seq<byte>, string)>) returns (hubs: seq<HubInfo>)
    ensures hubs == ReceivedAll([], datagrams)
    ensures Distinct(hubs)
    ensures forall h :: h in hubs <==> exists j :: 0 <= j < |datagrams| && Announces(datagrams[j], h)
  {
    var protocol := new DiscoveryProtocol([]);
    var i := 0;
    while i < |datagrams|
      invariant 0 <= i <= |datagrams|
      invariant protocol.discoveredHubs == ReceivedAll([], datagrams[..i])
    {
      protocol.DatagramReceived(datagrams[i].0, datagrams[i].1);
      assert datagrams[..i + 1][..i] == datagrams[..i];
      i := i + 1;
    }
    assert datagrams[..i] == datagrams;
    hubs := protocol.discoveredHubs;
    ReceivedAllLists([], datagrams);
  }
}
