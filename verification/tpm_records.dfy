/** The records of a TPM event log and their encoding. */
module TpmRecords {
  import opened LittleEndian

  const SHA1: nat := 0x0004
  const SHA256: nat := 0x000B
  const SHA384: nat := 0x000C
  const SHA512: nat := 0x000D
  const SM3_256: nat := 0x0012

  const EV_NO_ACTION: nat := 0x3
  const EV_S_CRTM_CONTENTS: nat := 0x7
  const EV_EFI_BASE: nat := 0x8000_0000
  const MAX_PCRS: nat := 32
  const WORD: nat := 0x1_0000_0000

  datatype Parsed<T> = Fail | Got(value: T, size: nat)

  datatype Digest = Digest(alg: nat, bytes: seq<Byte>)

  // A crypto-agile record.
  datatype Event = Event(pcr: nat, typ: nat, digests: seq<Digest>, data: seq<Byte>)

  // The leading record of a crypto-agile log. The parser takes everything up to the
  // algorithm count as it is and steps over the algorithms and the vendor bytes.
  datatype SpecId = SpecId(dataSize: nat, spec: seq<Byte>, algs: seq<Byte>, vendor: seq<Byte>)

  // A record of the older log format.
  datatype ShaEvent = ShaEvent(pcr: nat, typ: nat, digest: seq<Byte>, data: seq<Byte>)

  function HashSize(alg: nat): nat {
    if alg == SHA1 then 20
    else if alg == SHA256 || alg == SM3_256 then 32
    else if alg == SHA384 then 48
    else if alg == SHA512 then 64
    else 0
  }

  function EncodeDigest(d: Digest): seq<Byte> {
    Bytes16(d.alg) + d.bytes
  }

  function EncodeDigests(ds: seq<Digest>): seq<Byte> {
    if ds == [] then [] else EncodeDigest(ds[0]) + EncodeDigests(ds[1..])
  }

  function EncodeEvent(e: Event): seq<Byte> {
    Bytes32(e.pcr) + Bytes32(e.typ) + Bytes32(|e.digests|) + EncodeDigests(e.digests) + (Bytes32(|e.data|) + e.data)
  }

  function EncodeEvents(es: seq<Event>): seq<Byte> {
    if es == [] then [] else EncodeEvent(es[0]) + EncodeEvents(es[1..])
  }

  function Zeros(n: nat): (s: seq<Byte>)
    ensures |s| == n && forall i :: 0 <= i < n ==> s[i] == 0
  {
    if n == 0 then [] else Zeros(n - 1) + [0]
  }

  function EncodeSpecId(h: SpecId): seq<Byte> {
    Bytes32(0) + Bytes32(EV_NO_ACTION) + Zeros(20) + Bytes32(h.dataSize)
    + h.spec + Bytes32(|h.algs| / 4) + h.algs + ([ByteOf(|h.vendor|, 1)] + h.vendor)
  }

  function EncodeShaEvent(e: ShaEvent): seq<Byte> {
    Bytes32(e.pcr) + Bytes32(e.typ) + e.digest + (Bytes32(|e.data|) + e.data)
  }

  // What the parser takes for one digest list. A digest of an algorithm it does not know
  // has no bytes; an SM3 digest has, but cannot be replayed.
  function ParseDigests(s: seq<Byte>, count: nat): Parsed<seq<Digest>>
    decreases count
  {
    if count == 0 then Got([], 0)
    else if |s| < 2 then Fail
    else
      var alg := U16(s, 0);
      var n := 2 + HashSize(alg);
      if |s| < n || alg == SM3_256 then Fail
      else match ParseDigests(s[n..], count - 1)
        case Fail => Fail
        case Got(ds, m) => Got([Digest(alg, s[2..n])] + ds, n + m)
  }

  function ParseEvent(s: seq<Byte>): Parsed<Event> {
    if |s| < 12 || U32(s, 0) >= MAX_PCRS then Fail
    else match ParseDigests(s[12..], U32(s, 8))
      case Fail => Fail
      case Got(ds, n) =>
        if |s| < 12 + n + 4 then Fail
        else
          var size := U32(s, 12 + n);
          if |s| < 12 + n + 4 + size then Fail
          else Got(Event(U32(s, 0), U32(s, 4), ds, s[16 + n..16 + n + size]), 16 + n + size)
  }

  predicate WellDigest(d: Digest) {
    d.alg < 0x1_0000 && d.alg != SM3_256 && |d.bytes| == HashSize(d.alg)
  }

  predicate WellEvent(e: Event) {
    && e.pcr < MAX_PCRS && e.typ < WORD && |e.digests| < WORD && |e.data| < WORD
    && forall i :: 0 <= i < |e.digests| ==> WellDigest(e.digests[i])
  }

  lemma HeadDigest(d: Digest, rest: seq<Byte>)
    requires WellDigest(d)
    ensures var s := EncodeDigest(d) + rest; var n := 2 + HashSize(d.alg);
            |s| >= n && U16(s, 0) == d.alg && s[2..n] == d.bytes && s[n..] == rest
  {
    U16RoundTrip(d.alg);
  }

  lemma ParseFirst(d: Digest, rest: seq<Byte>, count: nat)
    requires WellDigest(d) && ParseDigests(rest, count).Got?
    ensures var p := ParseDigests(rest, count);
            ParseDigests(EncodeDigest(d) + rest, count + 1) == Got([d] + p.value, |EncodeDigest(d)| + p.size)
  {
    hide U16, HashSize;
    HeadDigest(d, rest);
    assert |EncodeDigest(d)| == 2 + HashSize(d.alg);
  }

  lemma EncodeFirst(d: Digest, ds: seq<Digest>)
    ensures EncodeDigests([d] + ds) == EncodeDigest(d) + EncodeDigests(ds)
  {
    assert ([d] + ds)[1..] == ds;
  }

  // Decoding gives back exactly what was encoded and takes exactly its bytes.
  lemma {:induction false} DigestsDecode(ds: seq<Digest>, t: seq<Byte>)
    requires forall i :: 0 <= i < |ds| ==> WellDigest(ds[i])
    ensures ParseDigests(EncodeDigests(ds) + t, |ds|) == Got(ds, |EncodeDigests(ds)|)
  {
    if ds == [] {
      assert EncodeDigests(ds) == [];
    } else {
      assert WellDigest(ds[0]) && forall i | 0 <= i < |ds| - 1 :: WellDigest(ds[1..][i]);
      hide *;
      var d, rest := ds[0], ds[1..];
      DigestsDecode(rest, t);
      EncodeFirst(d, rest);
      ParseFirst(d, EncodeDigests(rest) + t, |rest|);
      assert ds == [d] + rest;
      Join(EncodeDigest(d), EncodeDigests(rest), t);
    }
  }

  lemma Join(a: seq<Byte>, b: seq<Byte>, c: seq<Byte>)
    ensures a + b + c == a + (b + c)
  {
  }

  // Accepted digests are well formed, and encoding them gives the bytes read.
  lemma {:induction false} DigestsEncode(s: seq<Byte>, count: nat)
    requires ParseDigests(s, count).Got?
    ensures var p := ParseDigests(s, count);
            && |p.value| == count && p.size <= |s| && EncodeDigests(p.value) == s[..p.size]
            && forall i :: 0 <= i < count ==> WellDigest(p.value[i])
    decreases count
  {
    if count > 0 {
      var alg := U16(s, 0);
      var n := 2 + HashSize(alg);
      DigestsEncode(s[n..], count - 1);
      var rest := ParseDigests(s[n..], count - 1);
      var p := ParseDigests(s, count);
      Bytes16RoundTrip(s, 0);
      assert p.value[1..] == rest.value;
      assert EncodeDigests(p.value) == Bytes16(alg) + s[2..n] + EncodeDigests(rest.value);
      hide ParseDigests, EncodeDigests, U16, Bytes16, HashSize;
      assert s[..p.size] == s[..2] + s[2..n] + s[n..][..rest.size];
    }
  }

  // The fields in front of the digests.
  lemma HeadFields(a: nat, b: nat, c: nat, t: seq<Byte>)
    requires a < WORD && b < WORD && c < WORD
    ensures var s := Bytes32(a) + Bytes32(b) + Bytes32(c) + t;
            |s| == 12 + |t| && U32(s, 0) == a && U32(s, 4) == b && U32(s, 8) == c && s[12..] == t
  {
    U32RoundTrip(a);
    U32RoundTrip(b);
    U32RoundTrip(c);
    var s := Bytes32(a) + Bytes32(b) + Bytes32(c) + t;
    assert s[4..8] == Bytes32(b) && s[8..12] == Bytes32(c);
    assert U32(s, 4) == U32(s[4..8], 0) && U32(s, 8) == U32(s[8..12], 0);
  }

  // The event data behind a prefix of n bytes.
  lemma DataFields(p: seq<Byte>, data: seq<Byte>, t: seq<Byte>)
    requires |data| < WORD
    ensures var s := p + (Bytes32(|data|) + data) + t; var n := |p|;
            |s| >= n + 4 + |data| && U32(s, n) == |data| && s[n + 4..n + 4 + |data|] == data
  {
    U32RoundTrip(|data|);
    var s := p + (Bytes32(|data|) + data) + t;
    assert s[|p|..|p| + 4] == Bytes32(|data|);
    assert U32(s, |p|) == U32(s[|p|..|p| + 4], 0);
  }

  lemma EventDecode(e: Event, t: seq<Byte>)
    requires WellEvent(e)
    ensures ParseEvent(EncodeEvent(e) + t) == Got(e, |EncodeEvent(e)|) && |EncodeEvent(e)| >= 16
  {
    hide U32, Bytes32, ParseDigests, EncodeDigests;
    var ds := EncodeDigests(e.digests);
    var data := Bytes32(|e.data|) + e.data;
    var head := Bytes32(e.pcr) + Bytes32(e.typ) + Bytes32(|e.digests|);
    var s := EncodeEvent(e) + t;
    assert s == head + (ds + data + t);
    HeadFields(e.pcr, e.typ, |e.digests|, ds + data + t);
    DigestsDecode(e.digests, data + t);
    assert ds + data + t == ds + (data + t);
    assert s == (head + ds) + data + t;
    DataFields(head + ds, e.data, t);
  }

  // An accepted record is well formed, at least 16 bytes long, inside the buffer, and
  // encodes to the bytes read.
  lemma EventEncode(s: seq<Byte>)
    requires ParseEvent(s).Got?
    ensures var p := ParseEvent(s);
            WellEvent(p.value) && 16 <= p.size <= |s| && EncodeEvent(p.value) == s[..p.size]
  {
    hide U32, Bytes32, ParseDigests, EncodeDigests;
    var p, count := ParseEvent(s), U32(s, 8);
    DigestsEncode(s[12..], count);
    var n := ParseDigests(s[12..], count).size;
    Bytes32RoundTrip(s, 0);
    Bytes32RoundTrip(s, 4);
    Bytes32RoundTrip(s, 8);
    Bytes32RoundTrip(s, 12 + n);
    assert s[12..][..n] == s[12..12 + n];
    assert s[..p.size] == s[0..4] + s[4..8] + s[8..12] + s[12..12 + n] + (s[12 + n..16 + n] + s[16 + n..p.size]);
  }

  // The checks on the leading record. Its own data size only bounds the buffer: what
  // follows the record is found from the algorithm count and the vendor size.
  function ParseSpecId(s: seq<Byte>): Parsed<SpecId> {
    if |s| < 32 || U32(s, 4) != EV_NO_ACTION || U32(s, 0) != 0 || s[8..28] != Zeros(20) then Fail
    else if U32(s, 28) < 28 || |s| < 32 + U32(s, 28) || U32(s, 56) == 0 then Fail
    else
      var v := 60 + 4 * U32(s, 56);
      if |s| < v + 1 || |s| < v + 1 + s[v] then Fail
      else Got(SpecId(U32(s, 28), s[32..56], s[60..v], s[v + 1..v + 1 + s[v]]), v + 1 + s[v])
  }

  predicate WellSpecId(h: SpecId) {
    && 28 <= h.dataSize < WORD && |h.spec| == 24 && |h.vendor| < 256
    && 0 < |h.algs| < 4 * WORD && |h.algs| % 4 == 0
  }

  lemma SpecIdEncode(s: seq<Byte>)
    requires ParseSpecId(s).Got?
    ensures var p := ParseSpecId(s);
            && WellSpecId(p.value) && 61 < p.size <= |s| && 32 + p.value.dataSize <= |s|
            && EncodeSpecId(p.value) == s[..p.size]
  {
    hide U32, Bytes32, ByteOf, Zeros;
    var p, n, v := ParseSpecId(s), U32(s, 56), 60 + 4 * U32(s, 56);
    Bytes32RoundTrip(s, 0);
    Bytes32RoundTrip(s, 4);
    Bytes32RoundTrip(s, 28);
    Bytes32RoundTrip(s, 56);
    assert |p.value.algs| / 4 == n;
    OneByte(s[v]);
    SpecIdPieces(s, v, p.size);
  }

  lemma SpecIdPieces(s: seq<Byte>, v: nat, n: nat)
    requires 60 <= v < n <= |s|
    ensures s[..n] == s[0..4] + s[4..8] + s[8..28] + s[28..32] + s[32..56] + s[56..60] + s[60..v] + ([s[v]] + s[v + 1..n])
  {
  }

  lemma SpecIdDecode(h: SpecId, t: seq<Byte>)
    requires WellSpecId(h) && 32 + h.dataSize <= |EncodeSpecId(h) + t|
    ensures ParseSpecId(EncodeSpecId(h) + t) == Got(h, |EncodeSpecId(h)|)
  {
    hide U32, Bytes32, Zeros, ByteOf;
    var s, n := EncodeSpecId(h) + t, |h.algs| / 4;
    var tail := [ByteOf(|h.vendor|, 1)] + h.vendor + t;
    SpecIdShape(h, t, n, tail);
    SpecIdHead(h.dataSize, h.spec + (Bytes32(n) + h.algs + tail));
    SpecIdTail(s[..56], n, h.algs, tail);
    OneByte(|h.vendor|);
    var v := 60 + 4 * n;
    assert s[v] == tail[0] == |h.vendor|;
    assert s[v + 1..v + 1 + |h.vendor|] == s[v..][1..1 + |h.vendor|];
  }

  lemma OneByte(x: nat)
    requires x < 256
    ensures ByteOf(x, 1) == x
  {
  }

  lemma SpecIdShape(h: SpecId, t: seq<Byte>, n: nat, tail: seq<Byte>)
    requires |h.spec| == 24 && n == |h.algs| / 4 && |h.algs| == 4 * n
    requires tail == [ByteOf(|h.vendor|, 1)] + h.vendor + t
    ensures var s := EncodeSpecId(h) + t;
            && s == Bytes32(0) + Bytes32(EV_NO_ACTION) + Zeros(20) + Bytes32(h.dataSize)
                    + (h.spec + (Bytes32(n) + h.algs + tail))
            && |s| >= 60 + 4 * n && s == s[..56] + Bytes32(n) + h.algs + tail && s[32..56] == h.spec
            && |EncodeSpecId(h)| == 61 + 4 * n + |h.vendor| && tail[1..1 + |h.vendor|] == h.vendor
  {
    hide Bytes32, Zeros, ByteOf;
  }

  lemma SpecIdHead(size: nat, t: seq<Byte>)
    requires size < WORD
    ensures var s := Bytes32(0) + Bytes32(EV_NO_ACTION) + Zeros(20) + Bytes32(size) + t;
            && |s| == 32 + |t| && U32(s, 0) == 0 && U32(s, 4) == EV_NO_ACTION && s[8..28] == Zeros(20)
            && U32(s, 28) == size && s[32..] == t
  {
    hide U32, Bytes32, Zeros;
    var a, z, d := Bytes32(0), Bytes32(EV_NO_ACTION), Zeros(20);
    var s := a + z + d + Bytes32(size) + t;
    FieldAt([], 0, z + d + Bytes32(size) + t);
    assert s == [] + a + (z + d + Bytes32(size) + t);
    FieldAt(a, EV_NO_ACTION, d + Bytes32(size) + t);
    assert s == a + z + (d + Bytes32(size) + t);
    FieldAt(a + z + d, size, t);
  }

  lemma SpecIdTail(p: seq<Byte>, n: nat, algs: seq<Byte>, t: seq<Byte>)
    requires n < WORD && |algs| == 4 * n
    ensures var s := p + Bytes32(n) + algs + t; var v := |p| + 4 + 4 * n;
            |s| == v + |t| && U32(s, |p|) == n && s[|p| + 4..v] == algs && s[v..] == t
  {
    FieldAt(p, n, algs + t);
    assert p + Bytes32(n) + algs + t == p + Bytes32(n) + (algs + t);
  }

  lemma FieldAt(p: seq<Byte>, x: nat, t: seq<Byte>)
    requires x < WORD
    ensures var s := p + Bytes32(x) + t; |s| == |p| + 4 + |t| && U32(s, |p|) == x
  {
    U32RoundTrip(x);
    var s := p + Bytes32(x) + t;
    assert s[|p|..|p| + 4] == Bytes32(x);
    assert U32(s, |p|) == U32(s[|p|..|p| + 4], 0);
  }
}
