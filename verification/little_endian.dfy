/** Bytes and little-endian fields. */
module LittleEndian {

  type Byte = b: nat | b < 256

  function U16(s: seq<Byte>, i: nat): (x: nat)
    requires i + 2 <= |s|
    ensures x < 0x1_0000
  {
    s[i] as int + 0x100 * (s[i + 1] as int)
  }

  function U32(s: seq<Byte>, i: nat): (x: nat)
    requires i + 4 <= |s|
    ensures x < 0x1_0000_0000
  {
    s[i] as int + 0x100 * (s[i + 1] as int) + 0x1_0000 * (s[i + 2] as int) + 0x100_0000 * (s[i + 3] as int)
  }

  function U64(s: seq<Byte>, i: nat): nat
    requires i + 8 <= |s|
  {
    U32(s, i) + 0x1_0000_0000 * U32(s, i + 4)
  }

  function ByteOf(x: nat, unit: nat): Byte
    requires unit > 0
  {
    x / unit % 0x100
  }

  function Bytes16(x: nat): (s: seq<Byte>)
    ensures |s| == 2
  {
    [ByteOf(x, 1), ByteOf(x, 0x100)]
  }

  function Bytes32(x: nat): (s: seq<Byte>)
    ensures |s| == 4
  {
    [ByteOf(x, 1), ByteOf(x, 0x100), ByteOf(x, 0x1_0000), ByteOf(x, 0x100_0000)]
  }

  function Bytes64(x: nat): (s: seq<Byte>)
    ensures |s| == 8
  {
    Bytes32(x % 0x1_0000_0000) + Bytes32(x / 0x1_0000_0000)
  }

  lemma U16RoundTrip(x: nat)
    requires x < 0x1_0000
    ensures U16(Bytes16(x), 0) == x
  {
  }

  lemma U32RoundTrip(x: nat)
    requires x < 0x1_0000_0000
    ensures U32(Bytes32(x), 0) == x
  {
    var a, b, c := x / 0x100, x / 0x1_0000, x / 0x100_0000;
    assert x == 0x100 * a + x % 0x100 && a == 0x100 * b + a % 0x100 && b == 0x100 * c + b % 0x100 by {
      assert b == a / 0x100 && c == b / 0x100;
    }
  }

  // An eight-byte field behind other bytes.
  lemma U64RoundTrip(before: seq<Byte>, x: nat, after: seq<Byte>)
    requires x < 0x1_0000_0000_0000_0000
    ensures U64(before + Bytes64(x) + after, |before|) == x
  {
    var low, high := x % 0x1_0000_0000, x / 0x1_0000_0000;
    U32RoundTrip(low);
    U32RoundTrip(high);
    var s, i := before + Bytes64(x) + after, |before|;
    hide Bytes32;
    assert s[i..i + 4] == Bytes32(low) && s[i + 4..i + 8] == Bytes32(high);
    assert U32(s, i) == U32(s[i..i + 4], 0) && U32(s, i + 4) == U32(s[i + 4..i + 8], 0);
  }

  lemma Bytes16RoundTrip(s: seq<Byte>, i: nat)
    requires i + 2 <= |s|
    ensures Bytes16(U16(s, i)) == s[i..i + 2]
  {
  }

  lemma Bytes32RoundTrip(s: seq<Byte>, i: nat)
    requires i + 4 <= |s|
    ensures Bytes32(U32(s, i)) == s[i..i + 4]
  {
    var x := U32(s, i);
    FourDigits(s[i] as nat, s[i + 1] as nat, s[i + 2] as nat, s[i + 3] as nat);
    forall k: nat | k < 4 ensures Bytes32(x)[k] == s[i..i + 4][k] {
    }
  }

  lemma FourDigits(a: nat, b: nat, c: nat, d: nat)
    requires a < 0x100 && b < 0x100 && c < 0x100 && d < 0x100
    ensures var x := a + 0x100 * b + 0x1_0000 * c + 0x100_0000 * d;
            x % 0x100 == a && x / 0x100 % 0x100 == b && x / 0x1_0000 % 0x100 == c && x / 0x100_0000 % 0x100 == d
  {
    var x := a + 0x100 * b + 0x1_0000 * c + 0x100_0000 * d;
    assert x / 0x100 == b + 0x100 * c + 0x1_0000 * d;
    assert x / 0x1_0000 == c + 0x100 * d;
    assert x / 0x100_0000 == d;
  }
}
