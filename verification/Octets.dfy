/** Bytes as numbers, exclusive-or bit by bit, and big-endian numbers. */
module Octets {
  type Byte = b: int | 0 <= b < 256
  type Bytes = seq<Byte>

  function Pow2(n: nat): (p: nat)
    ensures p > 0
  {
    if n == 0 then 1 else 2 * Pow2(n - 1)
  }

  /** Exclusive-or of the low n bits. */
  function XorBits(a: nat, b: nat, n: nat): (x: nat)
    requires a < Pow2(n) && b < Pow2(n)
    ensures x < Pow2(n)
  {
    if n == 0 then 0
    else 2 * XorBits(a / 2, b / 2, n - 1) + (if a % 2 == b % 2 then 0 else 1)
  }

  lemma {:induction false} XorBitsTwice(a: nat, b: nat, n: nat)
    requires a < Pow2(n) && b < Pow2(n)
    ensures XorBits(XorBits(a, b, n), b, n) == a
  {
    if n > 0 {
      XorBitsTwice(a / 2, b / 2, n - 1);
    }
  }

  lemma Pow2Of8()
    ensures Pow2(8) == 256
  {
  }

  function Xor(a: Byte, b: Byte): Byte {
    Pow2Of8();
    XorBits(a, b, 8)
  }

  lemma XorTwice(a: Byte, b: Byte)
    ensures Xor(Xor(a, b), b) == a
  {
    Pow2Of8();
    XorBitsTwice(a, b, 8);
  }

  /** The number in width bytes, most significant first. */
  function BigEndian(n: nat, width: nat): (bs: Bytes)
    ensures |bs| == width
  {
    if width == 0 then [] else BigEndian(n / 256, width - 1) + [n % 256]
  }

  function FromBigEndian(bs: Bytes): nat {
    if bs == [] then 0 else FromBigEndian(bs[..|bs| - 1]) * 256 + bs[|bs| - 1]
  }

  function Pow256(width: nat): nat {
    if width == 0 then 1 else 256 * Pow256(width - 1)
  }

  lemma {:induction false} BigEndianRoundTrip(n: nat, width: nat)
    requires n < Pow256(width)
    ensures FromBigEndian(BigEndian(n, width)) == n
  {
    if width > 0 {
      BigEndianRoundTrip(n / 256, width - 1);
      assert BigEndian(n, width)[..width - 1] == BigEndian(n / 256, width - 1);
    }
  }

  lemma {:induction false} FromBigEndianRoundTrip(bs: Bytes)
    ensures BigEndian(FromBigEndian(bs), |bs|) == bs
  {
    if bs != [] {
      FromBigEndianRoundTrip(bs[..|bs| - 1]);
      assert bs[..|bs| - 1] + [bs[|bs| - 1]] == bs;
    }
  }

  lemma {:induction false} FromBigEndianBound(bs: Bytes)
    ensures FromBigEndian(bs) < Pow256(|bs|)
  {
    if bs != [] {
      FromBigEndianBound(bs[..|bs| - 1]);
    }
  }
}
