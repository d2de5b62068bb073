/** Byte strings as the integration handles them: Python `bytes` objects. */
module Bytes {
  import opened Wrappers

  newtype byte = x: int | 0 <= x < 256

  /** `int.from_bytes(s, "big")`. */
  function BigEndian(s: seq<byte>): nat
  {
    if s == [] then 0 else BigEndian(s[..|s| - 1]) * 256 + s[|s| - 1] as nat
  }

  lemma BigEndianSnoc(s: seq<byte>, b: byte)
    ensures BigEndian(s + [b]) == BigEndian(s) * 256 + b as nat
  {
    assert (s + [b])[..|s|] == s;
  }

  /** `struct.pack(">H", n)`. */
  function Be16(n: nat): (r: seq<byte>)
    requires n < 0x1_0000
    ensures |r| == 2 && BigEndian(r) == n
  {
    var hi, lo := n / 256, n % 256;
    BigEndianSnoc([], hi as byte);
    BigEndianSnoc([hi as byte], lo as byte);
    assert [] + [hi as byte] == [hi as byte] && [hi as byte] + [lo as byte] == [hi as byte, lo as byte];
    [hi as byte, lo as byte]
  }

  /** `struct.pack(">I", n)`: the four bytes, most significant first. */
  function Be32(n: nat): (r: seq<byte>)
    requires n < 0x1_0000_0000
    ensures |r| == 4 && BigEndian(r) == n
  {
    var q1 := n / 256;
    var q2 := q1 / 256;
    var q3 := q2 / 256;
    var b0, b1, b2, b3 := q3 as byte, (q2 % 256) as byte, (q1 % 256) as byte, (n % 256) as byte;
    BigEndianSnoc([], b0);
    BigEndianSnoc([b0], b1);
    BigEndianSnoc([b0, b1], b2);
    BigEndianSnoc([b0, b1, b2], b3);
    assert [] + [b0] == [b0] && [b0] + [b1] == [b0, b1];
    assert [b0, b1] + [b2] == [b0, b1, b2] && [b0, b1, b2] + [b3] == [b0, b1, b2, b3];
    assert q2 == q3 * 256 + q2 % 256 && q1 == q2 * 256 + q1 % 256 && n == q1 * 256 + n % 256;
    [b0, b1, b2, b3]
  }

  /** The bit with value `mask` (a power of two) is set in `b`: Python's `b & mask != 0`. */
  predicate BitSet(b: byte, mask: nat)
    requires mask == 1 || mask == 2 || mask == 4 || mask == 8 || mask == 16 || mask == 32 || mask == 64 || mask == 128
  {
    (b as int / mask) % 2 == 1
  }

  /** `s.find(bytes([b]))`, with -1 read as None: the first index holding `b`. */
  function Find(s: seq<byte>, b: byte): (r: Option<nat>)
    ensures r.Some? ==> r.value < |s| && s[r.value] == b && forall j :: 0 <= j < r.value ==> s[j] != b
    ensures r.None? <==> forall j :: 0 <= j < |s| ==> s[j] != b
  {
    if s == [] then None
    else if s[0] == b then Some(0)
    else match Find(s[1..], b)
      case None => None
      case Some(i) => Some(i + 1)
  }
}
