/**
 * Fixed-width little-endian integers: the `u64::to_le_bytes` and
 * `u64::from_le_bytes` conversions the counter uses to persist and to return
 * its value. Byte i of an encoding carries weight 256^i.
 */
module LittleEndian {

  /** An unsigned 8-bit value, Rust's `u8`. */
  type byte = b: int | 0 <= b < 256

  /** 2^64: one more than `u64::MAX`. */
  const U64_LIMIT: nat := 0x1_0000_0000_0000_0000
  const U64_MAX: nat := U64_LIMIT - 1

  /** Rust's `u64`. */
  type U64 = n: nat | n < U64_LIMIT

  /** 256^k, the weight of byte k. */
  function Pow256(k: nat): (p: nat)
    ensures p >= 1
  {
    if k == 0 then 1 else 256 * Pow256(k - 1)
  }

  /** The number a little-endian byte string denotes. */
  function DecodeLE(b: seq<byte>): nat
  {
    if |b| == 0 then 0 else b[0] + 256 * DecodeLE(b[1..])
  }

  /** The `width` low-order bytes of `n`, least significant first. */
  function EncodeLE(n: nat, width: nat): (r: seq<byte>)
    ensures |r| == width
  {
    if width == 0 then [] else [n % 256] + EncodeLE(n / 256, width - 1)
  }

  /** `n.to_le_bytes().to_vec()`: always eight bytes. */
  function EncodeLE64(n: U64): (r: seq<byte>)
    ensures |r| == 8
  {
    EncodeLE(n, 8)
  }

  /** `u64::from_le_bytes(b)`, which takes exactly eight bytes. */
  function DecodeLE64(b: seq<byte>): (n: U64)
    requires |b| == 8
    ensures EncodeLE64(n) == b
  {
    DecodeLEBound(b);
    Pow256Eight();
    EncodeDecodeLE(b);
    DecodeLE(b)
  }

  lemma Pow256Eight()
    ensures Pow256(8) == U64_LIMIT
  {
  }

  /** A string of k bytes denotes a number below 256^k. */
  lemma {:induction false} DecodeLEBound(b: seq<byte>)
    ensures DecodeLE(b) < Pow256(|b|)
  {
    if |b| > 0 {
      DecodeLEBound(b[1..]);
      var rest := DecodeLE(b[1..]);
      assert rest + 1 <= Pow256(|b| - 1);
      assert 256 * (rest + 1) <= 256 * Pow256(|b| - 1);
    }
  }

  /** Decoding undoes encoding for every number that fits the width. */
  lemma {:induction false} DecodeEncodeLE(n: nat, width: nat)
    requires n < Pow256(width)
    ensures DecodeLE(EncodeLE(n, width)) == n
  {
    if width > 0 {
      var r := EncodeLE(n, width);
      assert r[1..] == EncodeLE(n / 256, width - 1);
      assert n / 256 < Pow256(width - 1);
      DecodeEncodeLE(n / 256, width - 1);
    }
  }

  /** Encoding undoes decoding at the string's own width. */
  lemma {:induction false} EncodeDecodeLE(b: seq<byte>)
    ensures EncodeLE(DecodeLE(b), |b|) == b
  {
    if |b| > 0 {
      var n := DecodeLE(b);
      var rest := DecodeLE(b[1..]);
      SplitLowByte(b[0], rest);
      EncodeDecodeLE(b[1..]);
      var e := EncodeLE(n, |b|);
      assert e[0] == b[0];
      assert e[1..] == EncodeLE(rest, |b| - 1) == b[1..];
      assert e == [e[0]] + e[1..];
    }
  }

  /** The low byte and the rest of `low + 256 * high` are `low` and `high`. */
  lemma SplitLowByte(low: nat, high: nat)
    requires low < 256
    ensures (low + 256 * high) % 256 == low
    ensures (low + 256 * high) / 256 == high
  {
  }

  /** `u64::from_le_bytes(n.to_le_bytes()) == n` */
  lemma DecodeEncode64(n: U64)
    ensures DecodeLE64(EncodeLE64(n)) == n
  {
    Pow256Eight();
    DecodeEncodeLE(n, 8);
  }

  /** `u64::from_le_bytes(b).to_le_bytes() == b` for every eight-byte `b`. */
  lemma EncodeDecode64(b: seq<byte>)
    requires |b| == 8
    ensures EncodeLE64(DecodeLE64(b)) == b
  {
    EncodeDecodeLE(b);
  }

  /** Two values have the same encoding only if they are equal. */
  lemma EncodeLE64Injective(m: U64, n: U64)
    ensures EncodeLE64(m) == EncodeLE64(n) <==> m == n
  {
    if EncodeLE64(m) == EncodeLE64(n) {
      DecodeEncode64(m);
      DecodeEncode64(n);
    }
  }

  /** Zero encodes as eight zero bytes. */
  lemma EncodeZero()
    ensures EncodeLE64(0) == [0, 0, 0, 0, 0, 0, 0, 0]
  {
  }
}
