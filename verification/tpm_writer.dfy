/** The test tool that writes event log records, field by field into a buffer. */
module TpmWriter {
  import opened LittleEndian
  import opened TpmRecords
  import opened TpmLog

  const EV_SLAUNCH: nat := 0x502
  const MAX_EVENT_DATA: nat := 64

  // How many digest bytes the writer copies; anything it does not know counts as SHA-1.
  function WrittenSize(algo: nat): nat {
    if algo == SHA512 then 64 else if algo == SHA256 then 32 else 20
  }

  method Put(buf: array<Byte>, p: nat, field: seq<Byte>, ghost before: seq<Byte>) returns (q: nat)
    requires p + |field| <= buf.Length && buf[..p] == before
    modifies buf
    ensures q == p + |field| && buf[..q] == before + field
  {
    q := p;
    while q < p + |field|
      invariant p <= q <= p + |field| && buf[..q] == before + field[..q - p]
    {
      buf[q] := field[q - p];
      q := q + 1;
    }
    assert field[..q - p] == field;
  }

  method Tpm20LogEvent(pcr: nat, digest: seq<Byte>, algo: nat, data: seq<Byte>) returns (record: seq<Byte>)
    requires pcr < WORD && algo < 0x1_0000 && |digest| >= WrittenSize(algo) && |data| <= MAX_EVENT_DATA
    ensures record == EncodeEvent(Event(pcr, EV_SLAUNCH, [Digest(algo, digest[..WrittenSize(algo)])], data))
  {
    hide Bytes32, Bytes16, WrittenSize, EncodeDigests, EncodeDigest, EncodeEvent;
    SizeBound(algo);
    var n := WrittenSize(algo);
    var buf := new Byte[2 + 64 + 4 + 8 + 4 + MAX_EVENT_DATA](_ => 0);
    ghost var a := Bytes32(pcr) + Bytes32(EV_SLAUNCH);
    ghost var b := a + Bytes32(1) + Bytes16(algo) + digest[..n];
    var p := Put(buf, 0, Bytes32(pcr), []);
    p := Put(buf, p, Bytes32(EV_SLAUNCH), Bytes32(pcr));
    p := Put(buf, p, Bytes32(1), a);
    p := Put(buf, p, Bytes16(algo), a + Bytes32(1));
    p := Put(buf, p, digest[..n], a + Bytes32(1) + Bytes16(algo));
    p := Put(buf, p, Bytes32(|data|), b);
    p := Put(buf, p, data, b + Bytes32(|data|));
    record := buf[..p];
    RecordIs(pcr, Digest(algo, digest[..n]), data);
  }

  lemma RecordIs(pcr: nat, d: Digest, data: seq<Byte>)
    ensures EncodeEvent(Event(pcr, EV_SLAUNCH, [d], data)) ==
            Bytes32(pcr) + Bytes32(EV_SLAUNCH) + Bytes32(1) + Bytes16(d.alg) + d.bytes + Bytes32(|data|) + data
  {
    hide Bytes32, Bytes16, EncodeDigests;
    OneDigest(d);
  }

  lemma SizeBound(algo: nat)
    ensures 20 <= WrittenSize(algo) <= 64
  {
  }

  lemma OneDigest(d: Digest)
    ensures EncodeDigests([d]) == EncodeDigest(d)
  {
    assert [d][1..] == [];
    assert EncodeDigest(d) + [] == EncodeDigest(d);
  }

  // What was written parses back, with nothing over, exactly for the algorithms the
  // writer knows.
  lemma Tpm20Parses(pcr: nat, digest: seq<Byte>, algo: nat, data: seq<Byte>, t: seq<Byte>)
    requires pcr < MAX_PCRS && algo < 0x1_0000 && |digest| >= WrittenSize(algo) && |data| <= MAX_EVENT_DATA
    ensures var e := Event(pcr, EV_SLAUNCH, [Digest(algo, digest[..WrittenSize(algo)])], data);
            ParseEvent(EncodeEvent(e) + t) == Got(e, |EncodeEvent(e)|) <==> algo == SHA1 || algo == SHA256 || algo == SHA512
  {
    hide ParseEvent, EncodeEvent;
    var e := Event(pcr, EV_SLAUNCH, [Digest(algo, digest[..WrittenSize(algo)])], data);
    if WellDigest(e.digests[0]) {
      EventDecode(e, t);
    }
    if ParseEvent(EncodeEvent(e) + t) == Got(e, |EncodeEvent(e)|) {
      EventEncode(EncodeEvent(e) + t);
    }
  }

  method Tpm12LogEvent(pcr: nat, digest: seq<Byte>, data: seq<Byte>) returns (record: seq<Byte>)
    requires pcr < WORD && |digest| >= 20 && |data| <= MAX_EVENT_DATA
    ensures record == EncodeShaEvent(ShaEvent(pcr, EV_SLAUNCH, digest[..20], data))
  {
    hide Bytes32;
    var buf := new Byte[32 + MAX_EVENT_DATA](_ => 0);
    var p := Put(buf, 0, Bytes32(pcr), []);
    p := Put(buf, p, Bytes32(EV_SLAUNCH), Bytes32(pcr));
    ghost var head := Bytes32(pcr) + Bytes32(EV_SLAUNCH);
    p := Put(buf, p, digest[..20], head);
    p := Put(buf, p, Bytes32(|data|), head + digest[..20]);
    p := Put(buf, p, data, head + digest[..20] + Bytes32(|data|));
    record := buf[..p];
    assert head + digest[..20] + (Bytes32(|data|) + data) == record;
  }

  lemma Tpm12Parses(pcr: nat, digest: seq<Byte>, data: seq<Byte>, t: seq<Byte>)
    requires pcr < MAX_PCRS && |digest| >= 20 && |data| <= MAX_EVENT_DATA
    ensures var e := ShaEvent(pcr, EV_SLAUNCH, digest[..20], data);
            ParseSha(EncodeShaEvent(e) + t) == Got(e, |EncodeShaEvent(e)|)
  {
    hide ParseSha, EncodeShaEvent;
    ShaDecode(ShaEvent(pcr, EV_SLAUNCH, digest[..20], data), t);
  }
}
