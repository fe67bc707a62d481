/** Replaying a TPM event log into PCR banks.

    A bank is the values of the PCRs of one hash algorithm and a bit per PCR that was
    extended. The hash is any function per algorithm. A callback may refuse a call, by
    any rule on the calls so far; an absent callback refuses nothing.
*/
module TpmReplay {
  import opened LittleEndian
  import opened TpmRecords

  datatype Bank = Bank(pcrs: seq<seq<Byte>>, used: nat)

  datatype Call =
    | SpecIdCall(record: seq<Byte>)
    | HeaderCall(record: seq<Byte>)
    | DigestCall(digest: Digest)
    | DataCall(typ: nat, data: seq<Byte>)

  datatype State = State(sha1: Bank, sha256: Bank, sha384: Bank, sha512: Bank, sm3: Bank, calls: seq<Call>)

  datatype Env = Env(hash: (nat, seq<Byte>) -> seq<Byte>, accepts: (seq<Call>, Call) -> bool)

  datatype Outcome = Outcome(ok: bool, st: State)

  // Bit p of a word, and the word with that bit set.
  predicate Bit(word: nat, p: nat) {
    if p == 0 then word % 2 == 1 else Bit(word / 2, p - 1)
  }

  function SetBit(word: nat, p: nat): nat {
    if p == 0 then word + 1 - word % 2 else 2 * SetBit(word / 2, p - 1) + word % 2
  }

  lemma {:induction false} SetBitSets(word: nat, p: nat, q: nat)
    ensures Bit(SetBit(word, p), q) <==> p == q || Bit(word, q)
  {
    if p > 0 && q > 0 {
      SetBitSets(word / 2, p - 1, q - 1);
      assert SetBit(word, p) / 2 == SetBit(word / 2, p - 1);
    } else if p == 0 && q > 0 {
      assert SetBit(word, 0) / 2 == word / 2;
    }
  }

  ghost predicate HasBank(alg: nat) {
    alg == SHA1 || alg == SHA256 || alg == SHA384 || alg == SHA512 || alg == SM3_256
  }

  ghost function BankOf(st: State, alg: nat): Bank
    requires HasBank(alg)
  {
    if alg == SHA1 then st.sha1 else if alg == SHA256 then st.sha256
    else if alg == SHA384 then st.sha384 else if alg == SHA512 then st.sha512 else st.sm3
  }

  predicate Shaped(st: State) {
    && |st.sha1.pcrs| == MAX_PCRS && |st.sha256.pcrs| == MAX_PCRS && |st.sha384.pcrs| == MAX_PCRS
    && |st.sha512.pcrs| == MAX_PCRS && |st.sm3.pcrs| == MAX_PCRS
  }

  // One extend: the hash of the PCR and the digest.
  function ExtendBank(env: Env, b: Bank, alg: nat, pcr: nat, bytes: seq<Byte>): Bank
    requires pcr < |b.pcrs|
  {
    Bank(b.pcrs[pcr := env.hash(alg, b.pcrs[pcr] + bytes)], SetBit(b.used, pcr))
  }

  function Extend(env: Env, st: State, pcr: nat, d: Digest): State
    requires Shaped(st) && pcr < MAX_PCRS
  {
    if d.alg == SHA1 then st.(sha1 := ExtendBank(env, st.sha1, SHA1, pcr, d.bytes))
    else if d.alg == SHA256 then st.(sha256 := ExtendBank(env, st.sha256, SHA256, pcr, d.bytes))
    else if d.alg == SHA384 then st.(sha384 := ExtendBank(env, st.sha384, SHA384, pcr, d.bytes))
    else if d.alg == SHA512 then st.(sha512 := ExtendBank(env, st.sha512, SHA512, pcr, d.bytes))
    else if d.alg == SM3_256 then st.(sm3 := st.sm3.(used := SetBit(st.sm3.used, pcr)))
    else st
  }

  // A call to a callback.
  function Tell(env: Env, st: State, call: Call): Outcome {
    Outcome(env.accepts(st.calls, call), st.(calls := st.calls + [call]))
  }

  // One digest: the PCR first, then the callback. Extending an SM3 PCR fails.
  function ReplayDigest(env: Env, st: State, pcr: nat, d: Digest): (o: Outcome)
    requires Shaped(st) && pcr < MAX_PCRS
    ensures Shaped(o.st)
  {
    var st1 := Extend(env, st, pcr, d);
    if d.alg == SM3_256 then Outcome(false, st1) else Tell(env, st1, DigestCall(d))
  }

  // The digest loop over the bytes of a record.
  function RunDigests(env: Env, st: State, pcr: nat, s: seq<Byte>, count: nat): (o: Outcome)
    requires Shaped(st)
    ensures Shaped(o.st)
    decreases count
  {
    if pcr >= MAX_PCRS then Outcome(false, st)
    else if count == 0 then Outcome(true, st)
    else if |s| < 2 || |s| < 2 + HashSize(U16(s, 0)) then Outcome(false, st)
    else
      var n := 2 + HashSize(U16(s, 0));
      var o := ReplayDigest(env, st, pcr, Digest(U16(s, 0), s[2..n]));
      if o.ok then RunDigests(env, o.st, pcr, s[n..], count - 1) else o
  }

  function U64Sum(a: nat, b: nat): nat {
    (32 + 2 * a + b) % 0x1_0000_0000_0000_0000
  }

  // Whether event data is long enough for what its type says it holds.
  predicate BodyFits(typ: nat, data: seq<Byte>) {
    if typ == EV_EFI_BASE + 1 || typ == EV_EFI_BASE + 2 || typ == EV_EFI_BASE + 0xe0 then
      |data| >= 32 && |data| >= U64Sum(U64(data, 16), U64(data, 24))
    else if typ == EV_S_CRTM_CONTENTS || typ == EV_EFI_BASE + 8 then |data| >= 16
    else if typ == EV_EFI_BASE + 3 || typ == EV_EFI_BASE + 4 || typ == EV_EFI_BASE + 5 then |data| >= 32
    else true
  }

  // What follows the digests of a record.
  function RunBody(env: Env, st: State, typ: nat, data: seq<Byte>): Outcome {
    if BodyFits(typ, data) then Tell(env, st, DataCall(typ, data)) else Outcome(false, st)
  }

  // One record.
  function RunEvent(env: Env, st: State, s: seq<Byte>): (o: Outcome)
    requires Shaped(st) && ParseEvent(s).Got?
    ensures Shaped(o.st)
  {
    SecondPass(s);
    var p := ParseEvent(s);
    var n := |EncodeDigests(p.value.digests)|;
    var o := Tell(env, st, HeaderCall(s[..p.size]));
    if !o.ok then o
    else
      var o1 := RunDigests(env, o.st, p.value.pcr, s[12..12 + n], |p.value.digests|);
      if !o1.ok then o1 else RunBody(env, o1.st, p.value.typ, p.value.data)
  }

  // The record loop.
  function RunEvents(env: Env, st: State, s: seq<Byte>): (o: Outcome)
    requires Shaped(st)
    ensures Shaped(o.st)
    decreases |s|
  {
    if s == [] then Outcome(true, st)
    else if ParseEvent(s).Fail? then Outcome(false, st)
    else
      EventEncode(s);
      var o := RunEvent(env, st, s);
      if o.ok then RunEvents(env, o.st, s[ParseEvent(s).size..]) else o
  }

  // The same on records instead of bytes.
  function ReplayDigests(env: Env, st: State, pcr: nat, ds: seq<Digest>): (o: Outcome)
    requires Shaped(st) && pcr < MAX_PCRS
    ensures Shaped(o.st)
    decreases |ds|
  {
    if ds == [] then Outcome(true, st)
    else
      var o := ReplayDigest(env, st, pcr, ds[0]);
      if o.ok then ReplayDigests(env, o.st, pcr, ds[1..]) else o
  }

  function ReplayEvent(env: Env, st: State, e: Event): (o: Outcome)
    requires Shaped(st) && e.pcr < MAX_PCRS
    ensures Shaped(o.st)
  {
    var o := Tell(env, st, HeaderCall(EncodeEvent(e)));
    if !o.ok then o
    else
      var o1 := ReplayDigests(env, o.st, e.pcr, e.digests);
      if !o1.ok then o1 else RunBody(env, o1.st, e.typ, e.data)
  }

  predicate WellEvents(es: seq<Event>) {
    forall i :: 0 <= i < |es| ==> WellEvent(es[i])
  }

  function ReplayEvents(env: Env, st: State, es: seq<Event>): (o: Outcome)
    requires Shaped(st) && WellEvents(es)
    ensures Shaped(o.st)
    decreases |es|
  {
    if es == [] then Outcome(true, st)
    else
      var o := ReplayEvent(env, st, es[0]);
      if o.ok then ReplayEvents(env, o.st, es[1..]) else o
  }

  // All records of the bytes.
  function ParseEvents(s: seq<Byte>): (p: Parsed<seq<Event>>)
    decreases |s|
  {
    if s == [] then Got([], 0)
    else match ParseEvent(s)
      case Fail => Fail
      case Got(e, n) =>
        EventEncode(s);
        match ParseEvents(s[n..])
        case Fail => Fail
        case Got(es, m) => Got([e] + es, n + m)
  }

  // Running the bytes of a digest list is replaying the digests parsed from them.
  lemma {:induction false} RunsDigests(env: Env, st: State, pcr: nat, s: seq<Byte>, count: nat)
    requires Shaped(st) && pcr < MAX_PCRS && ParseDigests(s, count).Got?
    ensures RunDigests(env, st, pcr, s, count) == ReplayDigests(env, st, pcr, ParseDigests(s, count).value)
    decreases count
  {
    hide ReplayDigest;
    if count > 0 {
      var n := 2 + HashSize(U16(s, 0));
      var rest := ParseDigests(s[n..], count - 1);
      assert ParseDigests(s, count).value[1..] == rest.value;
      var o := ReplayDigest(env, st, pcr, Digest(U16(s, 0), s[2..n]));
      if o.ok {
        RunsDigests(env, o.st, pcr, s[n..], count - 1);
      }
    }
  }

  // The size of the digests found by a first pass leaves a second pass nothing over.
  lemma SecondPass(s: seq<Byte>)
    requires ParseEvent(s).Got?
    ensures var e := ParseEvent(s).value; var n := |EncodeDigests(e.digests)|;
            && 12 + n + 4 <= |s| && |e.digests| == U32(s, 8)
            && ParseDigests(s[12..12 + n], |e.digests|) == Got(e.digests, n)
            && ParseEvent(s).size == 16 + n + |e.data| && U32(s, 12 + n) == |e.data|
            && s[12 + n + 4..ParseEvent(s).size] == e.data
  {
    hide ParseDigests, EncodeDigests, U32, WellDigest;
    var e := ParseEvent(s).value;
    DigestsEncode(s[12..], U32(s, 8));
    var n := |EncodeDigests(e.digests)|;
    assert s[12..12 + n] == s[12..][..n] == EncodeDigests(e.digests);
    DigestsDecode(e.digests, []);
    assert EncodeDigests(e.digests) + [] == EncodeDigests(e.digests);
  }

  lemma RunsEvent(env: Env, st: State, s: seq<Byte>)
    requires Shaped(st) && ParseEvent(s).Got?
    ensures ParseEvent(s).value.pcr < MAX_PCRS
    ensures RunEvent(env, st, s) == ReplayEvent(env, st, ParseEvent(s).value)
  {
    hide EncodeEvent, RunDigests, ReplayDigests, ParseDigests, EncodeDigests, Tell, RunBody, U32, ParseEvent;
    EventEncode(s);
    SecondPass(s);
    var p := ParseEvent(s);
    var n := |EncodeDigests(p.value.digests)|;
    var o := TellKeeps(env, st, HeaderCall(s[..p.size]));
    RunsDigests(env, o.st, p.value.pcr, s[12..12 + n], |p.value.digests|);
  }

  ghost function TellKeeps(env: Env, st: State, call: Call): (o: Outcome)
    requires Shaped(st)
    ensures o == Tell(env, st, call) && Shaped(o.st)
  {
    Tell(env, st, call)
  }

  // The bytes are a log when every record parses; running them is then replaying it.
  lemma {:induction false} RunsEvents(env: Env, st: State, s: seq<Byte>)
    requires Shaped(st)
    ensures ParseEvents(s).Got? ==>
              && ParseEvents(s).size == |s| && WellEvents(ParseEvents(s).value)
              && EncodeEvents(ParseEvents(s).value) == s
              && RunEvents(env, st, s) == ReplayEvents(env, st, ParseEvents(s).value)
    ensures RunEvents(env, st, s).ok ==> ParseEvents(s).Got?
    decreases |s|
  {
    hide RunEvent, ReplayEvent, ParseEvent, EncodeEvent, WellEvent;
    if s != [] && ParseEvent(s).Got? {
      EventEncode(s);
      var p := ParseEvent(s);
      RunsEvent(env, st, s);
      RunsEvents(env, RunEvent(env, st, s).st, s[p.size..]);
      if ParseEvents(s[p.size..]).Got? {
        var es := ParseEvents(s[p.size..]).value;
        assert ([p.value] + es)[1..] == es;
        assert s == s[..p.size] + s[p.size..];
      }
    }
  }
}
