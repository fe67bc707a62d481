/** SHA-1 as FIPS 180-4 defines it. */
module Sha1Spec {

  type Byte = bv8
  type Word = bv32

  datatype Registers = Registers(a: Word, b: Word, c: Word, d: Word, e: Word)

  // ROTL, section 2.2.2.
  function Rotl1(x: Word): Word { (x << 1) | (x >> 31) }
  function Rotl5(x: Word): Word { (x << 5) | (x >> 27) }
  function Rotl30(x: Word): Word { (x << 30) | (x >> 2) }

  // Section 4.1.1.
  function Ch(x: Word, y: Word, z: Word): Word { (x & y) ^ (!x & z) }
  function Parity(x: Word, y: Word, z: Word): Word { x ^ y ^ z }
  function Maj(x: Word, y: Word, z: Word): Word { (x & y) ^ (x & z) ^ (y & z) }

  function F(t: nat, x: Word, y: Word, z: Word): Word {
    if t < 20 then Ch(x, y, z) else if t < 40 then Parity(x, y, z) else if t < 60 then Maj(x, y, z) else Parity(x, y, z)
  }

  // Section 4.2.1.
  function K(t: nat): Word {
    if t < 20 then 0x5A827999 else if t < 40 then 0x6ED9EBA1 else if t < 60 then 0x8F1BBCDC else 0xCA62C1D6
  }

  const INITIAL := Registers(0x67452301, 0xefcdab89, 0x98badcfe, 0x10325476, 0xc3d2e1f0)

  function WordOf(b0: Byte, b1: Byte, b2: Byte, b3: Byte): Word {
    ((b0 as Word) << 24) | ((b1 as Word) << 16) | ((b2 as Word) << 8) | (b3 as Word)
  }

  function Xor(p: Word, q: Word, r: Word, s: Word): Word { p ^ q ^ r ^ s }
  function Plus(p: Word, q: Word): Word { p + q }
  function Sum(p: Word, q: Word, r: Word, s: Word, t: Word): Word { p + q + r + s + t }

  // The message schedule of a block, section 6.1.2 step 1.
  ghost function W(block: seq<Byte>, t: nat): Word
    requires |block| == 64
  {
    if t < 16 then WordOf(block[4 * t], block[4 * t + 1], block[4 * t + 2], block[4 * t + 3])
    else Rotl1(Xor(W(block, t - 3), W(block, t - 8), W(block, t - 14), W(block, t - 16)))
  }

  // One step of section 6.1.2 step 3.
  function Round(r: Registers, t: nat, w: Word): Registers {
    Registers(Sum(Rotl5(r.a), F(t, r.b, r.c, r.d), r.e, K(t), w), r.a, Rotl30(r.b), r.c, r.d)
  }

  ghost function Rounds(h: Registers, block: seq<Byte>, t: nat): Registers
    requires |block| == 64
  {
    if t == 0 then h else Round(Rounds(h, block, t - 1), t - 1, W(block, t - 1))
  }

  function Add(r: Registers, s: Registers): Registers {
    Registers(Plus(r.a, s.a), Plus(r.b, s.b), Plus(r.c, s.c), Plus(r.d, s.d), Plus(r.e, s.e))
  }

  ghost function Compress(h: Registers, block: seq<Byte>): Registers
    requires |block| == 64
  {
    Add(h, Rounds(h, block, 80))
  }

  // The chain of blocks of a message whose length is a multiple of 64.
  ghost function Chain(h: Registers, m: seq<Byte>): Registers
    requires |m| % 64 == 0
  {
    if |m| == 0 then h else Compress(Chain(h, m[..|m| - 64]), m[|m| - 64..])
  }

  // Section 5.1.1: a one bit, k zero bits and the 64-bit length.
  function PaddingZeros(length: nat): (k: nat)
    ensures (length + 1 + k + 8) % 64 == 0 && k < 64
  {
    var r := length % 64;
    if r <= 55 then 55 - r else 119 - r
  }

  // The byte of x whose weight is d.
  function ByteAt(x: nat, d: nat): Byte
    requires d > 0
  {
    (x / d % 256) as Byte
  }

  function LengthBytes(bits: nat): (b: seq<Byte>)
    ensures |b| == 8
  {
    [ByteAt(bits, 0x100_0000_0000_0000), ByteAt(bits, 0x1_0000_0000_0000),
     ByteAt(bits, 0x100_0000_0000), ByteAt(bits, 0x1_0000_0000),
     ByteAt(bits, 0x100_0000), ByteAt(bits, 0x1_0000), ByteAt(bits, 0x100), ByteAt(bits, 1)]
  }

  function Zeros(n: nat): (z: seq<Byte>)
    ensures |z| == n
  {
    seq(n, _ => 0 as Byte)
  }

  function Pad(m: seq<Byte>): (p: seq<Byte>)
    ensures |p| % 64 == 0 && m <= p
  {
    assert |m + [0x80] + Zeros(PaddingZeros(|m|)) + LengthBytes(8 * |m|)| == |m| + 1 + PaddingZeros(|m|) + 8;
    m + [0x80] + Zeros(PaddingZeros(|m|)) + LengthBytes(8 * |m|)
  }

  function BytesOf(x: Word): seq<Byte> {
    [((x >> 24) & 0xff) as Byte, ((x >> 16) & 0xff) as Byte, ((x >> 8) & 0xff) as Byte, (x & 0xff) as Byte]
  }

  function Output(h: Registers): seq<Byte> {
    BytesOf(h.a) + BytesOf(h.b) + BytesOf(h.c) + BytesOf(h.d) + BytesOf(h.e)
  }

  // Section 6.1.
  ghost function Sha1(m: seq<Byte>): seq<Byte> {
    Output(Chain(INITIAL, Pad(m)))
  }

  /** Hashing block by block: the chain of a message followed by one block. */
  lemma ChainBlock(h: Registers, m: seq<Byte>, block: seq<Byte>)
    requires |m| % 64 == 0 && |block| == 64
    ensures Chain(h, m + block) == Compress(Chain(h, m), block)
  {
    var all := m + block;
    assert all[..|all| - 64] == m && all[|all| - 64..] == block;
  }
}
