/** The streaming SHA-1 of trenchboot/lz/sha1sum.c, against its definition. */
module Sha1Sum {
  import opened Arithmetic
  import opened Sha1Spec

  // ---- the rewritten round functions ------------------------------------------

  function F1(x: Word, y: Word, z: Word): Word { z ^ (x & (y ^ z)) }
  function F2(x: Word, y: Word, z: Word): Word { x ^ y ^ z }
  function F3(x: Word, y: Word, z: Word): Word { (x & y) | (z & (x | y)) }

  lemma ChBits(x: bv32, y: bv32, z: bv32)
    ensures z ^ (x & (y ^ z)) == (x & y) ^ (!x & z)
  {
  }

  lemma MajBits(x: bv32, y: bv32, z: bv32)
    ensures (x & y) | (z & (x | y)) == (x & y) ^ (x & z) ^ (y & z)
  {
  }

  lemma F1IsCh(x: Word, y: Word, z: Word)
    ensures F1(x, y, z) == Ch(x, y, z)
  {
    ChBits(x, y, z);
  }

  lemma F3IsMaj(x: Word, y: Word, z: Word)
    ensures F3(x, y, z) == Maj(x, y, z)
  {
    MajBits(x, y, z);
  }

  // The roll instruction.
  function Roll1(x: Word): Word { x.RotateLeft(1) }
  function Roll5(x: Word): Word { x.RotateLeft(5) }
  function Roll30(x: Word): Word { x.RotateLeft(30) }

  lemma RollIsRotl(x: Word)
    ensures Roll1(x) == Rotl1(x) && Roll5(x) == Rotl5(x) && Roll30(x) == Rotl30(x)
  {
  }

  // What the macro R adds to register e.
  function Mix(e: Word, rolled: Word, f: Word, k: Word, m: Word): Word { e + (rolled + f + k + m) }

  lemma SumOrder(p: bv32, q: bv32, e: bv32, k: bv32, m: bv32)
    ensures e + (p + q + k + m) == p + q + e + k + m
  {
  }

  lemma MixIsSum(e: Word, rolled: Word, f: Word, k: Word, m: Word)
    ensures Mix(e, rolled, f, k, m) == Sum(rolled, f, e, k, m)
  {
    SumOrder(rolled, f, e, k, m);
  }

  lemma XorOrder(p: bv32, q: bv32, r: bv32, u: bv32)
    ensures p ^ q ^ r ^ u == u ^ r ^ q ^ p
  {
  }

  lemma XorReversed(p: Word, q: Word, r: Word, u: Word)
    ensures Xor(p, q, r, u) == Xor(u, r, q, p)
  {
    XorOrder(p, q, r, u);
  }

  // ---- transform ------------------------------------------------------------------

  function RoundF(t: nat, x: Word, y: Word, z: Word): Word {
    if t < 20 then F1(x, y, z) else if t < 40 then F2(x, y, z) else if t < 60 then F3(x, y, z) else F2(x, y, z)
  }

  lemma RoundFIsF(t: nat, x: Word, y: Word, z: Word)
    ensures RoundF(t, x, y, z) == F(t, x, y, z)
  {
    F1IsCh(x, y, z);
    F3IsMaj(x, y, z);
  }

  // The sixteen-word array holds the last sixteen words of the schedule before t.
  ghost predicate Circular(x: seq<Word>, block: seq<Byte>, t: nat)
    requires |block| == 64
  {
    |x| == 16 && forall k: nat :: k < (if t < 16 then 16 else t) <= k + 16 ==> x[k % 16] == W(block, k)
  }

  lemma CircularStep(x: seq<Word>, block: seq<Byte>, t: nat)
    requires |block| == 64 && Circular(x, block, t) && t >= 16
    ensures Circular(x[t % 16 := W(block, t)], block, t + 1)
    ensures x[t % 16] == W(block, t - 16) && x[(t - 14) % 16] == W(block, t - 14)
    ensures x[(t - 8) % 16] == W(block, t - 8) && x[(t - 3) % 16] == W(block, t - 3)
  {
    assert (t - 16) % 16 == t % 16;
    var y := x[t % 16 := W(block, t)];
    forall k: nat | k < t + 1 <= k + 16 ensures y[k % 16] == W(block, k) {
      if k < t {
        assert x[k % 16] == W(block, k);
        assert k % 16 != t % 16;
      }
    }
  }

  // One step: register e becomes the new a, register b is rotated.
  method R(a: Word, b: Word, c: Word, d: Word, e: Word, t: nat, m: Word) returns (b1: Word, e1: Word)
    ensures Registers(e1, a, b1, c, d) == Round(Registers(a, b, c, d, e), t, m)
  {
    hide F, K, RoundF, Rotl5, Rotl30, Roll5, Roll30, Mix, Sum;
    RollIsRotl(a);
    RollIsRotl(b);
    RoundFIsF(t, b, c, d);
    e1 := Mix(e, Roll5(a), RoundF(t, b, c, d), K(t), m);
    MixIsSum(e, Roll5(a), RoundF(t, b, c, d), K(t), m);
    b1 := Roll30(b);
  }

  // The word of step t; from step 16 on it overwrites the oldest of the sixteen.
  method M(x: array<Word>, t: nat, ghost block: seq<Byte>) returns (w: Word)
    requires |block| == 64 && Circular(x[..], block, t)
    modifies x
    ensures Circular(x[..], block, t + 1) && w == W(block, t)
  {
    hide Rotl1, Roll1, Xor;
    if t < 16 {
      assert x[..][t % 16] == W(block, t);
      w := x[t];
    } else {
      CircularStep(x[..], block, t);
      var tm := Xor(x[t % 16], x[(t - 14) % 16], x[(t - 8) % 16], x[(t - 3) % 16]);
      XorReversed(x[t % 16], x[(t - 14) % 16], x[(t - 8) % 16], x[(t - 3) % 16]);
      RollIsRotl(tm);
      w := Roll1(tm);
      x[t % 16] := w;
      assert x[..] == old(x[..])[t % 16 := W(block, t)];
    }
  }

  // Five steps, after which the register names are back where they were.
  method Five(x: array<Word>, t: nat, a0: Word, b0: Word, c0: Word, d0: Word, e0: Word,
              ghost h: Registers, ghost block: seq<Byte>)
    returns (a: Word, b: Word, c: Word, d: Word, e: Word)
    requires |block| == 64 && Circular(x[..], block, t)
    requires Registers(a0, b0, c0, d0, e0) == Rounds(h, block, t)
    modifies x
    ensures Circular(x[..], block, t + 5)
    ensures Registers(a, b, c, d, e) == Rounds(h, block, t + 5)
  {
    hide Round, W;
    a, b, c, d, e := a0, b0, c0, d0, e0;
    var w := M(x, t, block);
    b, e := R(a, b, c, d, e, t, w);
    assert Registers(e, a, b, c, d) == Rounds(h, block, t + 1);
    w := M(x, t + 1, block);
    a, d := R(e, a, b, c, d, t + 1, w);
    assert Registers(d, e, a, b, c) == Rounds(h, block, t + 2);
    w := M(x, t + 2, block);
    e, c := R(d, e, a, b, c, t + 2, w);
    assert Registers(c, d, e, a, b) == Rounds(h, block, t + 3);
    w := M(x, t + 3, block);
    d, b := R(c, d, e, a, b, t + 3, w);
    assert Registers(b, c, d, e, a) == Rounds(h, block, t + 4);
    w := M(x, t + 4, block);
    c, a := R(b, c, d, e, a, t + 4, w);
  }

  // The sixteen words of a block, read big-endian.
  method Load(data: seq<Byte>) returns (x: array<Word>)
    requires |data| == 64
    ensures fresh(x) && Circular(x[..], data, 0)
  {
    hide WordOf;
    x := new Word[16](_ => 0);
    for i := 0 to 16
      invariant forall k :: 0 <= k < i ==> x[k] == W(data, k)
    {
      x[i] := WordOf(data[4 * i], data[4 * i + 1], data[4 * i + 2], data[4 * i + 3]);
    }
  }

  // ---- the context ------------------------------------------------------------------

  lemma NextCount(length: nat)
    requires length % 64 == 0
    ensures (length + 64) % 64 == 0
    ensures (length / 64 % TWO32 + 1) % TWO32 == (length + 64) / 64 % TWO32
  {
    assert (length + 64) / 64 == length / 64 + 1;
  }

  const TWO32: nat := 0x1_0000_0000

  // The number of bits that sha1_final can count: nblocks has 32 bits.
  function CountedBits(length: nat): nat {
    8 * (length / 64 % TWO32 * 64 + length % 64)
  }

  /** The appended length is 8 times the byte count exactly for messages below 2^38 bytes. */
  lemma CountedBitsExact(length: nat)
    ensures CountedBits(length) == 8 * length <==> length < 0x40_0000_0000
  {
    assert length == length / 64 * 64 + length % 64;
    assert length / 64 % TWO32 == length / 64 <==> length / 64 < TWO32;
  }

  function PadCounted(m: seq<Byte>): (p: seq<Byte>)
    ensures |p| % 64 == 0
  {
    assert |m + [0x80] + Zeros(PaddingZeros(|m|)) + LengthBytes(CountedBits(|m|))| == |m| + 1 + PaddingZeros(|m|) + 8;
    m + [0x80] + Zeros(PaddingZeros(|m|)) + LengthBytes(CountedBits(|m|))
  }

  lemma LowWord(nblocks: nat, count: nat)
    requires nblocks < TWO32 && count < 64
    ensures var lsb := nblocks * 64 % TWO32;
            && lsb + count < TWO32
            && nblocks / 0x400_0000 * TWO32 + lsb == nblocks * 64
  {
    var q, r := nblocks / 0x400_0000, nblocks % 0x400_0000;
    assert nblocks == q * 0x400_0000 + r;
    assert nblocks * 64 == q * TWO32 + r * 64;
    assert r * 64 < TWO32;
    assert nblocks * 64 / TWO32 == q;
  }

  lemma TimesEight(msb: nat, lsb: nat)
    requires msb < 64 && lsb < TWO32
    ensures msb * 8 % TWO32 == msb * 8
    ensures (msb * 8 + lsb / 0x2000_0000) * TWO32 + lsb * 8 % TWO32 == 8 * (msb * TWO32 + lsb)
  {
    var q, r := lsb / 0x2000_0000, lsb % 0x2000_0000;
    assert lsb * 8 == q * TWO32 + r * 8 && r * 8 < TWO32;
    assert lsb * 8 / TWO32 == q;
  }

  // msb << 3 has three zero bits, which t >> 29 fills: their or is their sum.
  method BitCount(nblocks: nat, count: nat) returns (msb: nat, lsb: nat)
    requires nblocks < TWO32 && count < 64
    ensures msb < TWO32 && lsb < TWO32
    ensures msb * TWO32 + lsb == 8 * (nblocks * 64 + count)
  {
    var t := nblocks;
    lsb := t * 64 % TWO32;
    msb := t / 0x400_0000;
    LowWord(nblocks, count);
    t := lsb;
    lsb := (lsb + count) % TWO32;
    msb := msb + if lsb < t then 1 else 0;
    t := lsb;
    TimesEight(msb, lsb);
    lsb := lsb * 8 % TWO32;
    msb := msb * 8 % TWO32;
    msb := msb + t / 0x2000_0000;
  }

  lemma HighBytes(msb: nat, lsb: nat)
    requires lsb < TWO32
    ensures var n := msb * TWO32 + lsb;
            && n / 0x1_0000_0000 == msb && n / 0x100_0000_0000 == msb / 0x100
            && n / 0x1_0000_0000_0000 == msb / 0x1_0000 && n / 0x100_0000_0000_0000 == msb / 0x100_0000
  {
    var n := msb * TWO32 + lsb;
    DivIs(n, TWO32, msb, lsb);
    DivIs(n, 0x100_0000_0000, msb / 0x100, msb % 0x100 * TWO32 + lsb);
    DivIs(n, 0x1_0000_0000_0000, msb / 0x1_0000, msb % 0x1_0000 * TWO32 + lsb);
    DivIs(n, 0x100_0000_0000_0000, msb / 0x100_0000, msb % 0x100_0000 * TWO32 + lsb);
  }

  lemma LowByte(msb: nat, lsb: nat, d: nat, up: nat)
    requires d > 0 && up % 256 == 0 && up * d == TWO32
    ensures (msb * TWO32 + lsb) / d % 256 == lsb / d % 256
  {
    assert msb * TWO32 == msb * up * d by { Regroup(msb, up, d); }
    DivScaled(msb * up, lsb, d);
    ModAdd(msb, up / 256, lsb / d);
  }

  lemma Regroup(a: nat, b: nat, c: nat)
    ensures a * (b * c) == a * b * c
  {
  }

  lemma DivScaled(a: nat, b: nat, d: nat)
    requires d > 0
    ensures (a * d + b) / d == a + b / d
  {
    var q := b / d;
    assert (a + q) * d == a * d + q * d;
    DivIs(a * d + b, d, a + q, b % d);
  }

  lemma ModAdd(m: nat, k: nat, x: nat)
    ensures (m * (256 * k) + x) % 256 == x % 256
  {
    var n := m * k;
    assert m * (256 * k) == 256 * n;
  }

  lemma LowBytes(msb: nat, lsb: nat)
    ensures var n := msb * TWO32 + lsb;
            && n / 0x100_0000 % 256 == lsb / 0x100_0000 % 256 && n / 0x1_0000 % 256 == lsb / 0x1_0000 % 256
            && n / 0x100 % 256 == lsb / 0x100 % 256 && n / 1 % 256 == lsb / 1 % 256
  {
    LowByte(msb, lsb, 0x100_0000, 0x100);
    LowByte(msb, lsb, 0x1_0000, 0x1_0000);
    LowByte(msb, lsb, 0x100, 0x100_0000);
    LowByte(msb, lsb, 1, TWO32);
  }

  function WordBytes(x: nat): seq<Byte> {
    [ByteAt(x, 0x100_0000), ByteAt(x, 0x1_0000), ByteAt(x, 0x100), ByteAt(x, 1)]
  }

  lemma LengthOfWords(msb: nat, lsb: nat)
    requires msb < TWO32 && lsb < TWO32
    ensures LengthBytes(msb * TWO32 + lsb) == WordBytes(msb) + WordBytes(lsb)
  {
    HighBytes(msb, lsb);
    LowBytes(msb, lsb);
  }

  class Sha1Context {
    var h0: Word
    var h1: Word
    var h2: Word
    var h3: Word
    var h4: Word
    var nblocks: nat   // 32 bits
    const buf: array<Byte>
    var count: nat
    ghost var whole: seq<Byte>   // the bytes that are chained

    ghost function Chained(): Registers
      reads this
    {
      Registers(h0, h1, h2, h3, h4)
    }

    // The chain covers the whole blocks so far, and the rest is in buf.
    ghost predicate Valid()
      reads this
    {
      && buf.Length == 64 && count <= 64
      && |whole| % 64 == 0 && nblocks == |whole| / 64 % TWO32
      && Chained() == Chain(INITIAL, whole)
    }

    // Every byte written so far.
    ghost function Message(): seq<Byte>
      requires Valid()
      reads this, buf
    {
      whole + buf[..count]
    }

    // sha1_init on a zeroed context.
    constructor ()
      ensures Valid() && Message() == [] && count == 0 && fresh(buf)
    {
      buf := new Byte[64](_ => 0);
      h0, h1, h2, h3, h4 := 0x67452301, 0xefcdab89, 0x98badcfe, 0x10325476, 0xc3d2e1f0;
      nblocks, count, whole := 0, 0, [];
    }

    method Transform(data: seq<Byte>)
      requires |data| == 64
      modifies this`h0, this`h1, this`h2, this`h3, this`h4
      ensures Chained() == Compress(old(Chained()), data)
    {
      hide Round, W, Plus;
      ghost var h := Chained();
      var x := Load(data);
      var a, b, c, d, e := h0, h1, h2, h3, h4;
      var t := 0;
      while t < 80
        invariant t % 5 == 0 && t <= 80
        invariant Circular(x[..], data, t) && Registers(a, b, c, d, e) == Rounds(h, data, t)
        invariant Chained() == h && fresh(x)
      {
        a, b, c, d, e := Five(x, t, a, b, c, d, e, h, data);
        t := t + 5;
      }
      h0, h1, h2, h3, h4 := Plus(h0, a), Plus(h1, b), Plus(h2, c), Plus(h3, d), Plus(h4, e);
    }

    // One block is chained.
    method Absorb(block: seq<Byte>)
      requires Valid() && |block| == 64
      modifies this`h0, this`h1, this`h2, this`h3, this`h4, this`nblocks, this`count, this`whole
      ensures Valid() && count == 0 && whole == old(whole) + block
    {
      hide Chain, Compress;
      ghost var before := whole;
      NextCount(|before|);
      ChainBlock(INITIAL, before, block);
      Transform(block);
      count, nblocks := 0, (nblocks + 1) % TWO32;
      whole := before + block;
      assert |whole| == |before| + 64;
    }

    // sha1_write with no input: flush a full buffer.
    method Flush()
      requires Valid()
      modifies this`h0, this`h1, this`h2, this`h3, this`h4, this`nblocks, this`count, this`whole
      ensures Valid() && Message() == old(Message()) && count == old(count) % 64
    {
      if count == 64 {
        assert buf[..64] == buf[..];
        Absorb(buf[..]);
      }
    }

    // Append input bytes to the buffer until it is full or the input is used up.
    method Fill(input: seq<Byte>) returns (used: nat)
      requires Valid()
      modifies this`count, buf
      ensures Valid() && used <= |input| && Message() == old(Message()) + input[..used]
      ensures used == |input| || count == 64
      ensures count == old(count) + used
    {
      hide Chain;
      used := 0;
      while used < |input| && count < 64
        invariant Valid() && used <= |input|
        invariant buf[..count] == old(buf[..count]) + input[..used]
        invariant count == old(count) + used
      {
        ghost var filled := buf[..count];
        buf[count] := input[used];
        count := count + 1;
        assert buf[..count] == filled + [input[used]];
        used := used + 1;
        assert input[..used] == input[..used - 1] + [input[used - 1]];
      }
    }

    method PushByte(b: Byte)
      requires Valid() && count < 64
      modifies this`count, buf
      ensures Valid() && Message() == old(Message()) + [b] && count == old(count) + 1
    {
      buf[count] := b;
      count := count + 1;
      assert buf[..count] == old(buf[..count]) + [b];
    }

    /** sha1_write: the bytes are added to the message, whatever is buffered. */
    method Write(input: seq<Byte>)
      requires Valid()
      modifies this, buf
      ensures Valid() && Message() == old(Message()) + input && count < 64
    {
      hide Valid, Message;
      Flush();
      var pos := 0;
      assert input[..0] == [];
      if count > 0 {
        pos := Fill(input);
        Flush();
        if pos == |input| {
          assert input[..pos] == input;
          return;
        }
      }
      WriteRest(input[pos..]);
      assert input[..pos] + input[pos..] == input;
    }

    // With an empty buffer: whole blocks, then the remainder is buffered.
    method WriteRest(input: seq<Byte>)
      requires Valid() && count == 0
      modifies this, buf
      ensures Valid() && Message() == old(Message()) + input && count < 64
    {
      hide Valid, Message;
      var pos := 0;
      assert input[..0] == [];
      while |input| - pos >= 64
        invariant Valid() && pos <= |input| && count == 0 && Message() == old(Message()) + input[..pos]
      {
        WholeBlock(input[pos..pos + 64]);
        assert input[..pos] + input[pos..pos + 64] == input[..pos + 64];
        pos := pos + 64;
      }
      var used := Fill(input[pos..]);
      assert used == |input| - pos;
      assert input[..pos] + input[pos..][..used] == input;
    }

    // A whole block goes straight from the input.
    method WholeBlock(block: seq<Byte>)
      requires Valid() && count == 0 && |block| == 64
      modifies this`h0, this`h1, this`h2, this`h3, this`h4, this`nblocks, this`count, this`whole
      ensures Valid() && count == 0 && Message() == old(Message()) + block
    {
      Absorb(block);
    }

    method StoreLength(msb: nat, lsb: nat)
      requires buf.Length == 64 && msb < TWO32 && lsb < TWO32
      modifies buf
      ensures buf[..] == old(buf[..56]) + LengthBytes(msb * TWO32 + lsb)
    {
      hide ByteAt, LengthBytes;
      LengthOfWords(msb, lsb);
      StoreFour(56, [ByteAt(msb, 0x100_0000), ByteAt(msb, 0x1_0000), ByteAt(msb, 0x100), ByteAt(msb, 1)]);
      StoreFour(60, [ByteAt(lsb, 0x100_0000), ByteAt(lsb, 0x1_0000), ByteAt(lsb, 0x100), ByteAt(lsb, 1)]);
      assert buf[..64] == old(buf[..56]) + WordBytes(msb) + WordBytes(lsb);
      assert buf[..64] == buf[..];
    }

    method StoreFour(at: nat, b: seq<Byte>)
      requires buf.Length == 64 && at + 4 <= 64 && |b| == 4
      modifies buf
      ensures buf[..at + 4] == old(buf[..at]) + b
    {
      buf[at] := b[0];
      buf[at + 1] := b[1];
      buf[at + 2] := b[2];
      buf[at + 3] := b[3];
      assert buf[..at] == old(buf[..at]);
      assert buf[..at + 4] == buf[..at] + [b[0], b[1], b[2], b[3]];
    }

    // The last block: 56 bytes are in the buffer, and the length goes behind them.
    method LastBlock(ghost before: seq<Byte>, ghost tail: seq<Byte>, msb: nat, lsb: nat)
      requires buf.Length == 64 && msb < TWO32 && lsb < TWO32
      requires |before| % 64 == 0 && Chained() == Chain(INITIAL, before)
      requires |tail| == 56 && buf[..56] == tail
      modifies this`h0, this`h1, this`h2, this`h3, this`h4, buf
      ensures (|before| + |tail| + 8) % 64 == 0
      ensures Chained() == Chain(INITIAL, before + tail + LengthBytes(msb * TWO32 + lsb))
    {
      hide Chain, Compress, LengthBytes;
      StoreLength(msb, lsb);
      Transform(buf[..]);
      ghost var length := LengthBytes(msb * TWO32 + lsb);
      ChainBlock(INITIAL, before, tail + length);
      assert before + (tail + length) == before + tail + length;
    }

    // Push 0x80 and then zeros until the buffer holds `full` bytes.
    method PadTo(full: nat)
      requires Valid() && count < full <= 64
      modifies this`count, buf
      ensures Valid() && count == full
      ensures Message() == old(Message()) + [0x80] + Zeros(full - old(count) - 1)
    {
      hide Valid, Message;
      PushByte(0x80);
      assert Zeros(0) == [];
      while count < full
        invariant Valid() && old(count) < count <= full
        invariant Message() == old(Message()) + [0x80] + Zeros(count - old(count) - 1)
      {
        assert Zeros(count - old(count)) == Zeros(count - old(count) - 1) + [0];
        PushByte(0);
      }
    }

    /** sha1_final: whatever has been written, the buffer ends with the hash of
        the padded message, with its length as far as nblocks can count it. */
    method Final()
      requires Valid()
      modifies this, buf
      ensures buf.Length == 64 && buf[..20] == Output(Chain(INITIAL, PadCounted(old(Message()))))
    {
      hide Chain, Output, PadCounted, LengthBytes;
      Flush();
      var msb, lsb := BitCount(nblocks, count);
      RemainderCount(|Message()|, count);
      if count < 56 {
        FinishInBuffer(msb, lsb);
      } else {
        FinishInNextBlock(msb, lsb);
      }
      StoreDigest();
    }

    // There is room for the padding and the length.
    method FinishInBuffer(msb: nat, lsb: nat)
      requires Valid() && count < 56 && count == |Message()| % 64
      requires msb < TWO32 && lsb < TWO32 && msb * TWO32 + lsb == CountedBits(|Message()|)
      modifies this, buf
      ensures buf.Length == 64 && Chained() == Chain(INITIAL, PadCounted(old(Message())))
    {
      hide Chain, LengthBytes;
      PadTo(56);
      LastBlock(whole, buf[..56], msb, lsb);
    }

    // The padding overflows into one more block.
    method FinishInNextBlock(msb: nat, lsb: nat)
      requires Valid() && 56 <= count < 64 && count == |Message()| % 64
      requires msb < TWO32 && lsb < TWO32 && msb * TWO32 + lsb == CountedBits(|Message()|)
      modifies this, buf
      ensures buf.Length == 64 && Chained() == Chain(INITIAL, PadCounted(old(Message())))
    {
      hide Chain, LengthBytes;
      ghost var r, m := count, Message();
      PadTo(64);
      Flush();
      assert whole == Message() == m + [0x80] + Zeros(63 - r);
      ClearBuffer();
      assert Zeros(63 - r) + Zeros(56) == Zeros(119 - r);
      assert whole + Zeros(56) == m + [0x80] + Zeros(119 - r);
      LastBlock(whole, Zeros(56), msb, lsb);
    }

    method ClearBuffer()
      requires buf.Length == 64
      modifies buf
      ensures buf[..56] == Zeros(56)
    {
      for i := 0 to 56
        invariant forall k :: 0 <= k < i ==> buf[k] == 0
      {
        buf[i] := 0;
      }
    }

    method StoreWord(at: nat, x: Word)
      requires buf.Length == 64 && at + 4 <= 64
      modifies buf
      ensures buf[..at + 4] == old(buf[..at]) + BytesOf(x)
    {
      hide BytesOf;
      var b := WordToBytes(x);
      StoreFour(at, b);
    }

    method StoreDigest()
      requires buf.Length == 64
      modifies buf
      ensures buf[..20] == Output(Chained())
    {
      hide BytesOf;
      assert buf[..0] == [];
      StoreWord(0, h0);
      StoreWord(4, h1);
      StoreWord(8, h2);
      StoreWord(12, h3);
      StoreWord(16, h4);
    }
  }

  method WordToBytes(x: Word) returns (b: seq<Byte>)
    ensures b == BytesOf(x) && |b| == 4
  {
    b := [((x >> 24) & 0xff) as Byte, ((x >> 16) & 0xff) as Byte, ((x >> 8) & 0xff) as Byte, (x & 0xff) as Byte];
  }

  lemma RemainderCount(length: nat, r: nat)
    requires r < 64 && r <= length && (length - r) % 64 == 0
    ensures length % 64 == r && (length - r) / 64 == length / 64
  {
  }

  /** Splitting does not matter: any sequence of writes followed by sha1_final
      gives the SHA-1 of the concatenated input, below 2^38 bytes. */
  method HashParts(parts: seq<seq<Byte>>) returns (digest: seq<Byte>)
    ensures digest == Output(Chain(INITIAL, PadCounted(Concat(parts))))
    ensures |Concat(parts)| < 0x40_0000_0000 ==> digest == Sha1(Concat(parts))
  {
    hide Sha1Context.Valid, Sha1Context.Message, Output, Chain, Pad, PadCounted;
    var ctx := new Sha1Context();
    WriteAll(ctx, parts);
    assert ctx.Message() == Concat(parts);
    ctx.Final();
    digest := ctx.buf[..20];
    PadCountedIsPad(Concat(parts));
  }

  method WriteAll(ctx: Sha1Context, parts: seq<seq<Byte>>)
    requires ctx.Valid()
    modifies ctx, ctx.buf
    ensures ctx.Valid() && ctx.Message() == old(ctx.Message()) + Concat(parts)
  {
    hide Sha1Context.Valid, Sha1Context.Message;
    var i := 0;
    while i < |parts|
      invariant i <= |parts| && ctx.Valid()
      invariant ctx.Message() + Concat(parts[i..]) == old(ctx.Message()) + Concat(parts)
    {
      ConcatStep(ctx.Message(), parts, i);
      ctx.Write(parts[i]);
      i := i + 1;
    }
  }

  lemma ConcatStep(before: seq<Byte>, parts: seq<seq<Byte>>, i: nat)
    requires i < |parts|
    ensures before + parts[i] + Concat(parts[i + 1..]) == before + Concat(parts[i..])
  {
    assert parts[i..][1..] == parts[i + 1..];
  }

  lemma PadCountedIsPad(m: seq<Byte>)
    ensures |m| < 0x40_0000_0000 ==> PadCounted(m) == Pad(m)
  {
    CountedBitsExact(|m|);
  }

  function Concat(parts: seq<seq<Byte>>): seq<Byte> {
    if parts == [] then [] else parts[0] + Concat(parts[1..])
  }

  /** sha1sum of one buffer. */
  method Sha1Sum(data: seq<Byte>) returns (digest: seq<Byte>)
    ensures |data| < 0x40_0000_0000 ==> digest == Sha1(data)
  {
    digest := HashParts([data]);
    assert Concat([data]) == data + Concat([data][1..]) == data;
  }
}
