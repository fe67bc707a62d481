/** Event data: what the parser asks of it, against the layouts of the TCG PC Client Platform
    Firmware Profile.
*/
module TpmBodies {
  import opened LittleEndian
  import opened TpmRecords
  import opened TpmReplay
  import opened TpmTheorems
  import opened TpmLog

  // EV_EFI_VARIABLE_DRIVER_CONFIG, EV_EFI_VARIABLE_BOOT and EV_EFI_VARIABLE_AUTHORITY.
  predicate OfVariable(typ: nat) {
    typ == 0x8000_0001 || typ == 0x8000_0002 || typ == 0x8000_00e0
  }

  // EV_S_CRTM_CONTENTS and EV_EFI_PLATFORM_FIRMWARE_BLOB.
  predicate OfBlob(typ: nat) {
    typ == 7 || typ == 0x8000_0008
  }

  // The three events of a loaded image.
  predicate OfImage(typ: nat) {
    0x8000_0003 <= typ <= 0x8000_0005
  }

  /** UEFI variable data: the GUID, the length of the name in characters of two bytes, the
      length of the contents, the name, the contents. */
  function EncodeVariable(guid: seq<Byte>, name: seq<Byte>, contents: seq<Byte>): seq<Byte> {
    guid + Bytes64(|name| / 2) + Bytes64(|contents|) + (name + contents)
  }

  lemma VariableLengths(guid: seq<Byte>, n: nat, d: nat, rest: seq<Byte>)
    requires |guid| == 16 && n < 0x1_0000_0000_0000_0000 && d < 0x1_0000_0000_0000_0000
    ensures var data := guid + Bytes64(n) + Bytes64(d) + rest;
            |data| == 32 + |rest| && U64(data, 16) == n && U64(data, 24) == d
  {
    var data := guid + Bytes64(n) + Bytes64(d) + rest;
    hide U64, Bytes64;
    U64RoundTrip(guid, n, Bytes64(d) + rest);
    U64RoundTrip(guid + Bytes64(n), d, rest);
    assert data == guid + Bytes64(n) + (Bytes64(d) + rest);
  }

  // Bytes that start with such a header, and how many bytes the header speaks of.
  lemma VariableFits(typ: nat, guid: seq<Byte>, n: nat, d: nat, rest: seq<Byte>)
    requires OfVariable(typ) && |guid| == 16
    requires n < 0x1_0000_0000_0000_0000 && d < 0x1_0000_0000_0000_0000 && |rest| < WORD
    ensures var fits := BodyFits(typ, guid + Bytes64(n) + Bytes64(d) + rest);
            && (2 * n + d < 0x1_0000_0000_0000_0000 - 32 ==> (fits <==> 2 * n + d <= |rest|))
            && (fits <==> (32 + 2 * n + d) % 0x1_0000_0000_0000_0000 <= 32 + |rest|)
  {
    VariableLengths(guid, n, d, rest);
    var data := guid + Bytes64(n) + Bytes64(d) + rest;
    hide U64, Bytes64, U64Sum;
    assert BodyFits(typ, data) <==> U64Sum(n, d) <= 32 + |rest|;
    SumOf(n, d);
    hide BodyFits;
  }

  lemma SumOf(n: nat, d: nat)
    ensures U64Sum(n, d) == (32 + 2 * n + d) % 0x1_0000_0000_0000_0000
    ensures 32 + 2 * n + d < 0x1_0000_0000_0000_0000 ==> U64Sum(n, d) == 32 + 2 * n + d
  {
  }

  /** The data of a UEFI variable fits for each of the three types, whatever its GUID, and no
      shorter prefix of it does. */
  lemma VariableFitsExactly(typ: nat, guid: seq<Byte>, name: seq<Byte>, contents: seq<Byte>, k: nat)
    requires OfVariable(typ) && |guid| == 16 && |name| % 2 == 0 && |name| + |contents| < WORD
    requires k <= |EncodeVariable(guid, name, contents)|
    ensures BodyFits(typ, EncodeVariable(guid, name, contents)[..k]) <==> k == |EncodeVariable(guid, name, contents)|
  {
    var n, d, rest := |name| / 2, |contents|, name + contents;
    var head := guid + Bytes64(n) + Bytes64(d);
    var data := EncodeVariable(guid, name, contents);
    hide Bytes64, U64;
    if k >= 32 {
      assert data[..k] == head + rest[..k - 32];
      VariableFits(typ, guid, n, d, rest[..k - 32]);
    }
  }

  /** The sum of the lengths is taken modulo 2^64. So the check says whether the lengths fit
      in the data exactly when the sum does not wrap, or wraps to more than the data. */
  lemma CheckRightExactly(typ: nat, guid: seq<Byte>, n: nat, d: nat, rest: seq<Byte>)
    requires OfVariable(typ) && |guid| == 16
    requires n < 0x1_0000_0000_0000_0000 && d < 0x1_0000_0000_0000_0000 && |rest| < WORD
    ensures var data := guid + Bytes64(n) + Bytes64(d) + rest; var sum := 32 + 2 * n + d;
            (BodyFits(typ, data) <==> sum <= |data|)
            <==> sum < 0x1_0000_0000_0000_0000 || sum % 0x1_0000_0000_0000_0000 > |data|
  {
    VariableFits(typ, guid, n, d, rest);
    hide BodyFits, Bytes64;
    RemainderBelow(32 + 2 * n + d, 32 + |rest|);
  }

  lemma RemainderBelow(sum: nat, size: nat)
    requires size < 0x1_0000_0000_0000_0000
    ensures (sum % 0x1_0000_0000_0000_0000 <= size <==> sum <= size)
            <==> sum < 0x1_0000_0000_0000_0000 || sum % 0x1_0000_0000_0000_0000 > size
  {
    var r := sum % 0x1_0000_0000_0000_0000;
    assert sum < 0x1_0000_0000_0000_0000 ==> r == sum;
  }

  /** It does go wrong: a name of 2^63 characters fits in no bytes at all. */
  lemma WrappedNameFits(typ: nat, guid: seq<Byte>)
    requires OfVariable(typ) && |guid| == 16
    ensures BodyFits(typ, guid + Bytes64(0x8000_0000_0000_0000) + Bytes64(0))
  {
    VariableFits(typ, guid, 0x8000_0000_0000_0000, 0, []);
    hide BodyFits, Bytes64;
    var data := guid + Bytes64(0x8000_0000_0000_0000) + Bytes64(0);
    assert data + [] == data;
  }

  // A header cut short fits no variable; blobs and images are asked for their fixed parts, and
  // all other data fits.
  lemma OtherBodies(typ: nat, data: seq<Byte>)
    ensures OfVariable(typ) && |data| < 32 ==> !BodyFits(typ, data)
    ensures OfBlob(typ) ==> (BodyFits(typ, data) <==> |data| >= 16)
    ensures OfImage(typ) ==> (BodyFits(typ, data) <==> |data| >= 32)
    ensures !OfVariable(typ) && !OfBlob(typ) && !OfImage(typ) ==> BodyFits(typ, data)
  {
  }

  // Data laid out as its type says.
  ghost predicate Proper(typ: nat, data: seq<Byte>) {
    && (OfVariable(typ) ==>
          exists guid, name, contents ::
            |guid| == 16 && |name| % 2 == 0 && data == EncodeVariable(guid, name, contents))
    && (OfBlob(typ) ==> |data| >= 16) && (OfImage(typ) ==> |data| >= 32)
  }

  ghost predicate AllProper(es: seq<Event>) {
    forall i :: 0 <= i < |es| ==> Proper(es[i].typ, es[i].data)
  }

  lemma ProperFits(typ: nat, data: seq<Byte>)
    requires Proper(typ, data) && |data| < WORD
    ensures BodyFits(typ, data)
  {
    OtherBodies(typ, data);
    if OfVariable(typ) {
      var guid, name, contents :|
        |guid| == 16 && |name| % 2 == 0 && data == EncodeVariable(guid, name, contents);
      VariableFitsExactly(typ, guid, name, contents, |data|);
      assert data[..|data|] == data;
    }
  }

  /** A crypto-agile log of well-formed records whose data is laid out as the types say is
      accepted exactly when no callback refuses. */
  lemma ProperLogAccepted(env: Env, st: State, h: SpecId, es: seq<Event>)
    requires Shaped(st) && WellSpecId(h) && WellEvents(es) && 32 + h.dataSize <= |EncodeLog(h, es)|
    requires AllProper(es)
    ensures IsAgile(EncodeLog(h, es))
    ensures var calls := [SpecIdCall(EncodeSpecId(h))] + AllCalls(es);
            RunLog(env, st, EncodeLog(h, es)).ok <==> Accepted(env, st.calls, calls)
  {
    hide RunLog, EncodeLog, EncodeSpecId, AllCalls, Accepted, BodyFits, WellSpecId, WellDigest, Proper;
    EncodingAccepted(env, st, h, es);
    forall i | 0 <= i < |es| ensures BodyFits(es[i].typ, es[i].data) {
      assert WellEvent(es[i]);
      ProperFits(es[i].typ, es[i].data);
    }
  }

  // The algorithms of a crypto-agile log by their numbers, and how many bits their digests have.
  lemma DigestSizes(alg: nat)
    ensures 8 * HashSize(alg) ==
            match alg
            case 0x0004 => 160   // SHA-1
            case 0x000B => 256   // SHA-256
            case 0x000C => 384   // SHA-384
            case 0x000D => 512   // SHA-512
            case 0x0012 => 256   // SM3
            case _ => 0
  {
  }
}
