/**
 * IEEE 754 single precision as read by `struct.unpack(">f", ...)`. The model keeps the exact
 * value of every finite encoding as a real, so comparisons against bounds are exact.
 */
module Float32 {
  import opened Bytes

  datatype Float = NaN | Infinity(negative: bool) | Finite(value: real)

  function Pow2(n: nat): (r: nat)
    ensures r >= 1
  {
    if n == 0 then 1 else 2 * Pow2(n - 1)
  }

  /** All eight exponent bits of the big-endian encoding `b` are set. */
  predicate ExponentAllOnes(b: seq<byte>)
    requires |b| == 4
  {
    b[0] % 128 == 127 && b[1] >= 128
  }

  /**
   * The magnitude of a finite encoding: the significand, with the hidden bit above exponent 0,
   * times 2^(e - 150), where subnormals (exponent 0) share the scale of exponent 1.
   */
  function Magnitude(exponent: nat, fraction: nat): (m: real)
    requires exponent < 255
    ensures m >= 0.0
  {
    var e := if exponent == 0 then 1 else exponent;
    var significand := if exponent == 0 then fraction else 0x80_0000 + fraction;
    if e >= 150 then (significand * Pow2(e - 150)) as real
    else significand as real / Pow2(150 - e) as real
  }

  /** `struct.unpack(">f", b)[0]`: sign, 8-bit biased exponent, 23-bit fraction. */
  function Decode(b: seq<byte>): (f: Float)
    requires |b| == 4
    ensures !f.Finite? <==> ExponentAllOnes(b)
    ensures f.NaN? <==> ExponentAllOnes(b) && !(b[1] == 128 && b[2] == 0 && b[3] == 0)
    ensures f.Finite? && b[0] < 128 ==> f.value >= 0.0
    ensures f.Finite? && b[0] >= 128 ==> f.value <= 0.0
  {
    var negative := b[0] >= 128;
    var exponent := (b[0] as int % 128) * 2 + b[1] as int / 128;
    var fraction := (b[1] as int % 128) * 0x1_0000 + b[2] as int * 256 + b[3] as int;
    if exponent == 255 then
      if fraction == 0 then Infinity(negative) else NaN
    else
      var magnitude := Magnitude(exponent, fraction);
      Finite(if negative then -magnitude else magnitude)
  }

  /** Python's `math.isnan(v) or math.isinf(v)`. */
  predicate IsNaNOrInf(f: Float)
  {
    !f.Finite?
  }

  /** Python's `lo <= v <= hi`, which is false for NaN and, with finite bounds, for infinities. */
  predicate Within(f: Float, lo: real, hi: real)
  {
    f.Finite? && lo <= f.value <= hi
  }

  /** The position of the highest set bit of `n`. */
  function Log2(n: nat): (k: nat)
    requires n >= 1
    ensures Pow2(k) <= n < 2 * Pow2(k)
  {
    if n == 1 then 0 else Log2(n / 2) + 1
  }

  /** A positive sign, the biased exponent `e` and the fraction `f`, laid out big-endian. */
  function Pack(e: nat, f: nat): (b: seq<byte>)
    requires e < 255 && f < 0x80_0000
    ensures |b| == 4 && b[0] < 128
  {
    [(e / 2) as byte, ((e % 2) * 128 + f / 0x1_0000) as byte, (f / 256 % 256) as byte, (f % 256) as byte]
  }

  /**
   * The single-precision encoding of a whole number below 2^24, all of which are exact:
   * exponent 127 + k for the highest bit k, and the bits below it shifted up to the top
   * of the 23-bit fraction. Zero is the all-zero pattern.
   */
  function EncodeInteger(n: nat): (b: seq<byte>)
    requires n < 0x100_0000
    ensures |b| == 4 && b[0] < 128
  {
    if n == 0 then Pack(0, 0)
    else
      var k := Log2(n);
      LogBelow24(n);
      FractionBelow(n, k);
      Pack(127 + k, (n - Pow2(k)) * Pow2(23 - k))
  }

  /** Every whole number below 2^24, in particular the leak readings 0.0 and 1.0, decodes back exactly. */
  lemma IntegerRoundTrip(n: nat)
    requires n < 0x100_0000
    ensures Decode(EncodeInteger(n)) == Finite(n as real)
  {
    if n == 0 {
      DecodePack(0, 0);
    } else {
      var k := Log2(n);
      LogBelow24(n);
      FractionBelow(n, k);
      DecodePack(127 + k, (n - Pow2(k)) * Pow2(23 - k));
      MagnitudeOfInteger(n, k);
    }
  }

  /** Reading the fields back out of `Pack` gives the value `Magnitude` assigns them. */
  lemma DecodePack(e: nat, f: nat)
    requires e < 255 && f < 0x80_0000
    ensures Decode(Pack(e, f)) == Finite(Magnitude(e, f))
  {
    var b := Pack(e, f);
    var hi := f / 0x1_0000;
    var b1 := (e % 2) * 128 + hi;
    assert b[1] as int == b1 && b1 % 128 == hi && b1 / 128 == e % 2;
    assert (b[0] as int % 128) * 2 + b[1] as int / 128 == e;
    assert hi * 0x1_0000 + (f / 256 % 256) * 256 + f % 256 == f;
  }

  /** With the hidden bit restored and the scale 2^(k - 23) applied, the fields of `n` give back `n`. */
  lemma MagnitudeOfInteger(n: nat, k: nat)
    requires 1 <= n && k == Log2(n) && k <= 23
    ensures (n - Pow2(k)) * Pow2(23 - k) < 0x80_0000
    ensures Magnitude(127 + k, (n - Pow2(k)) * Pow2(23 - k)) == n as real
  {
    FractionBelow(n, k);
    Pow2Hidden();
    Pow2Sum(k, 23 - k);
    var p, q := Pow2(k), Pow2(23 - k);
    Distribute(n, p, q);
    assert 0x80_0000 + (n - p) * q == n * q;
    if k == 23 {
      assert q == 1;
    } else {
      Scale(n, q);
    }
  }

  lemma Distribute(a: int, b: int, c: int)
    ensures (a - b) * c == a * c - b * c
  {
  }

  lemma Scale(n: nat, q: nat)
    requires q >= 1
    ensures (n * q) as real / q as real == n as real
  {
  }

  lemma LogBelow24(n: nat)
    requires 1 <= n < 0x100_0000
    ensures Log2(n) <= 23
  {
    Pow2Hidden();
    if Log2(n) > 23 {
      Pow2Sum(24, Log2(n) - 24);
    }
  }

  /** The bits below the highest fit the 23-bit fraction once shifted up. */
  lemma FractionBelow(n: nat, k: nat)
    requires 1 <= n && k == Log2(n) && k <= 23
    ensures 0 <= (n - Pow2(k)) * Pow2(23 - k) < 0x80_0000
  {
    Pow2Hidden();
    Pow2Sum(k, 23 - k);
    MulBelow(n - Pow2(k), Pow2(k), Pow2(23 - k));
  }

  lemma MulBelow(a: nat, b: nat, c: nat)
    requires a < b && c >= 1
    ensures 0 <= a * c < b * c
  {
  }

  /** The hidden bit's weight, 2^23, built up from 2^4 in small steps. */
  lemma Pow2Hidden()
    ensures Pow2(23) == 0x80_0000
  {
    assert Pow2(4) == 16;
    Pow2Sum(4, 4);
    Pow2Sum(8, 8);
    Pow2Sum(16, 4);
    Pow2Sum(20, 3);
  }

  lemma {:induction false} Pow2Sum(a: nat, b: nat)
    ensures Pow2(a + b) == Pow2(a) * Pow2(b)
  {
    if a > 0 {
      Pow2Sum(a - 1, b);
    }
  }
}
