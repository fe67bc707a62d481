/** The event log parser as the code writes it: pointers advanced in loops and a context
    of PCR banks updated in place.

    A buffer pointer and its remaining size are the bytes from that pointer on.
*/
module TpmEventlog {
  import opened LittleEndian
  import opened TpmRecords
  import opened TpmReplay
  import opened TpmLog
  import opened TpmTheorems

  // A bank as a zeroed context has it.
  function ZeroBank(alg: nat): Bank {
    Bank(seq(MAX_PCRS, i => Zeros(HashSize(alg))), 0)
  }

  class Context {
    const env: Env
    var sha1: Bank
    var sha256: Bank
    var sha384: Bank
    var sha512: Bank
    var sm3: Bank
    var calls: seq<Call>

    ghost function Abs(): State
      reads this
    {
      State(sha1, sha256, sha384, sha512, sm3, calls)
    }

    ghost predicate Valid()
      reads this
    {
      Shaped(Abs())
    }

    constructor (env: Env)
      ensures Valid() && this.env == env && calls == []
      ensures forall alg | HasBank(alg) :: BankOf(Abs(), alg) == ZeroBank(alg)
    {
      this.env := env;
      sha1, sha256 := ZeroBank(SHA1), ZeroBank(SHA256);
      sha384, sha512 := ZeroBank(SHA384), ZeroBank(SHA512);
      sm3 := ZeroBank(SM3_256);
      calls := [];
    }

    method Call(call: Call) returns (ok: bool)
      requires Valid()
      modifies this`calls
      ensures Outcome(ok, Abs()) == Tell(env, old(Abs()), call)
    {
      ok := env.accepts(calls, call);
      calls := calls + [call];
    }

    // Extends the PCR of the digest's bank; false when the bank cannot be extended.
    method ExtendPcr(pcr: nat, alg: nat, digest: seq<Byte>) returns (ok: bool)
      requires Valid() && pcr < MAX_PCRS
      modifies this
      ensures Valid() && Abs() == Extend(env, old(Abs()), pcr, Digest(alg, digest))
      ensures ok <==> alg != SM3_256
    {
      ok := true;
      if alg == SHA1 {
        sha1 := ExtendBank(env, sha1, alg, pcr, digest);
      } else if alg == SHA256 {
        sha256 := ExtendBank(env, sha256, alg, pcr, digest);
      } else if alg == SHA384 {
        sha384 := ExtendBank(env, sha384, alg, pcr, digest);
      } else if alg == SHA512 {
        sha512 := ExtendBank(env, sha512, alg, pcr, digest);
      } else if alg == SM3_256 {
        sm3 := sm3.(used := SetBit(sm3.used, pcr));
        ok := false;
      }
    }

    // The bank update and the digest callback of one digest.
    method HandleDigest(pcr: nat, alg: nat, digest: seq<Byte>) returns (ok: bool)
      requires Valid() && pcr < MAX_PCRS
      modifies this
      ensures Valid() && Outcome(ok, Abs()) == ReplayDigest(env, old(Abs()), pcr, Digest(alg, digest))
    {
      hide Extend;
      ok := ExtendPcr(pcr, alg, digest);
      if ok {
        ok := Call(DigestCall(Digest(alg, digest)));
      }
    }

    method ForeachDigest2(pcr: nat, start: seq<Byte>, count: nat) returns (ok: bool)
      requires Valid()
      modifies this
      ensures Valid() && Outcome(ok, Abs()) == RunDigests(env, old(Abs()), pcr, start, count)
    {
      hide ReplayDigest, Shaped, HashSize;
      if pcr > MAX_PCRS - 1 {
        return false;
      }
      ok := true;
      var s := start;
      var i := 0;
      while i < count
        invariant i <= count && ok && Valid()
        invariant RunDigests(env, Abs(), pcr, s, count - i) == RunDigests(env, old(Abs()), pcr, start, count)
      {
        if |s| < 2 {
          return false;
        }
        var alg := U16(s, 0);
        var size := HashSize(alg);
        if |s| < 2 + size {
          return false;
        }
        ok := HandleDigest(pcr, alg, s[2..2 + size]);
        if !ok {
          return false;
        }
        s := s[2 + size..];
        i := i + 1;
      }
    }

    method ForeachEvent2(start: seq<Byte>) returns (ok: bool)
      requires Valid()
      modifies this
      ensures Valid() && Outcome(ok, Abs()) == RunEvents(env, old(Abs()), start)
    {
      hide ParseEvent, ParseDigests, RunEvent, EncodeDigests, EncodeEvent, WellEvent;
      var s := start;
      while |s| > 0
        invariant Valid()
        invariant RunEvents(env, Abs(), s) == RunEvents(env, old(Abs()), start)
        decreases |s|
      {
        var parsed, eventSize, digestsSize := ParseEvent2(env.hash, s);
        if !parsed {
          return false;
        }
        EventEncode(s);
        ok := HandleEvent(s, eventSize, digestsSize);
        if !ok {
          return false;
        }
        s := s[eventSize..];
      }
      ok := true;
    }

    // The loop body of foreach_event2 once the record is sized.
    method HandleEvent(s: seq<Byte>, eventSize: nat, digestsSize: nat) returns (ok: bool)
      requires Valid() && ParseEvent(s).Got? && eventSize == ParseEvent(s).size
      requires digestsSize == |EncodeDigests(ParseEvent(s).value.digests)|
      modifies this
      ensures Valid() && Outcome(ok, Abs()) == RunEvent(env, old(Abs()), s)
    {
      assert ParseEvent(s).value.pcr == U32(s, 0) && ParseEvent(s).value.typ == U32(s, 4);
      hide ParseEvent, ParseDigests, RunDigests, EncodeDigests, BodyFits, U32;
      SecondPass(s);
      ok := Call(HeaderCall(s[..eventSize]));
      if !ok {
        return false;
      }
      ok := ForeachDigest2(U32(s, 0), s[12..12 + digestsSize], U32(s, 8));
      if !ok {
        return false;
      }
      ok := EventBody(U32(s, 4), s[16 + digestsSize..eventSize]);
      if !ok {
        return false;
      }
    }

    // The body check and the event data callback.
    method EventBody(typ: nat, data: seq<Byte>) returns (ok: bool)
      requires Valid()
      modifies this
      ensures Valid() && Outcome(ok, Abs()) == RunBody(env, old(Abs()), typ, data)
    {
      ok := BodyFits(typ, data);
      if ok {
        ok := Call(DataCall(typ, data));
      }
    }

    method ForeachShaEvent(start: seq<Byte>) returns (ok: bool)
      requires Valid() && PcrsInRange(start)
      modifies this
      ensures Valid() && Outcome(ok, Abs()) == RunShas(env, old(Abs()), start)
    {
      hide BodyFits, Extend;
      var s := start;
      while |s| > 0
        invariant Valid() && PcrsInRange(s)
        invariant RunShas(env, Abs(), s) == RunShas(env, old(Abs()), start)
        decreases |s|
      {
        if |s| < 32 {
          return false;
        }
        var extended := ExtendPcr(U32(s, 0), SHA1, s[8..28]);
        var size := U32(s, 28);
        if |s| < 32 + size {
          return false;
        }
        ok := Call(HeaderCall(s[..32 + size]));
        if !ok {
          return false;
        }
        ok := EventBody(U32(s, 4), s[32..32 + size]);
        if !ok {
          return false;
        }
        s := s[32 + size..];
      }
      ok := true;
    }

    method ParseEventlog(s: seq<Byte>) returns (ok: bool)
      requires Valid() && (IsAgile(s) || PcrsInRange(s))
      modifies this
      ensures Valid() && Outcome(ok, Abs()) == RunLog(env, old(Abs()), s)
    {
      if |s| < 32 {
        return false;
      }
      if U32(s, 4) == EV_NO_ACTION {
        var found, next := FindFirstEvent(s);
        if !found {
          return false;
        }
        ok := Call(SpecIdCall(s[..next]));
        if !ok {
          return false;
        }
        ok := ForeachEvent2(s[next..]);
      } else {
        ok := ForeachShaEvent(s);
      }
    }
  }

  // The size of what the accumulator callback counted.
  function Accumulated(calls: seq<Call>): nat {
    if calls == [] then 0
    else (if calls[0].DigestCall? then 2 + |calls[0].digest.bytes| else 0) + Accumulated(calls[1..])
  }

  // Sizes one record with a scratch context: its digests, its data, and that it fits.
  method ParseEvent2(hash: (nat, seq<Byte>) -> seq<Byte>, s: seq<Byte>)
    returns (ok: bool, eventSize: nat, digestsSize: nat)
    ensures ok <==> ParseEvent(s).Got?
    ensures ok ==> eventSize == ParseEvent(s).size && digestsSize == |EncodeDigests(ParseEvent(s).value.digests)|
  {
    hide ParseDigests, RunDigests, EncodeDigests;
    if |s| < 12 {
      return false, 0, 0;
    }
    var scratch := new Context(Env(hash, (calls, call) => true));
    ghost var st := scratch.Abs();
    ok := scratch.ForeachDigest2(U32(s, 0), s[12..], U32(s, 8));
    ScratchPass(scratch.env, st, U32(s, 0), s[12..], U32(s, 8));
    if !ok {
      return false, 0, 0;
    }
    DigestsEncode(s[12..], U32(s, 8));
    digestsSize := Accumulated(scratch.calls);
    eventSize := 12 + digestsSize;
    if |s| < eventSize + 4 {
      return false, eventSize, digestsSize;
    }
    var size := U32(s, eventSize);
    eventSize := eventSize + 4;
    if |s| < eventSize + size {
      return false, eventSize, digestsSize;
    }
    eventSize := eventSize + size;
  }

  // With a callback that only counts, the digest loop succeeds exactly on digest lists,
  // and the count is their size.
  lemma {:induction false} ScratchPass(env: Env, st: State, pcr: nat, s: seq<Byte>, count: nat)
    requires Shaped(st) && forall calls, call :: env.accepts(calls, call)
    ensures RunDigests(env, st, pcr, s, count).ok <==> pcr < MAX_PCRS && ParseDigests(s, count).Got?
    ensures RunDigests(env, st, pcr, s, count).ok ==>
              Accumulated(RunDigests(env, st, pcr, s, count).st.calls) == Accumulated(st.calls) + ParseDigests(s, count).size
    decreases count
  {
    if pcr < MAX_PCRS && count > 0 && |s| >= 2 && |s| >= 2 + HashSize(U16(s, 0)) {
      var n := 2 + HashSize(U16(s, 0));
      var d := Digest(U16(s, 0), s[2..n]);
      var o := ReplayDigest(env, st, pcr, d);
      if d.alg != SM3_256 {
        ScratchPass(env, o.st, pcr, s[n..], count - 1);
        AccumulatedNext(st.calls, DigestCall(d));
        ExtendWent(env, st, pcr, d, SHA1, 0);
      }
    }
  }

  lemma {:induction false} AccumulatedNext(calls: seq<Call>, c: Call)
    ensures Accumulated(calls + [c]) == Accumulated(calls) + if c.DigestCall? then 2 + |c.digest.bytes| else 0
  {
    if calls == [] {
      assert (calls + [c])[1..] == [];
    } else {
      AccumulatedNext(calls[1..], c);
      assert (calls + [c])[1..] == calls[1..] + [c];
    }
  }

  // Checks the leading record and finds the first record after it.
  method FindFirstEvent(s: seq<Byte>) returns (ok: bool, next: nat)
    ensures ok <==> ParseSpecId(s).Got?
    ensures ok ==> next == ParseSpecId(s).size
  {
    if |s| < 32 || U32(s, 4) != EV_NO_ACTION || U32(s, 0) != 0 {
      return false, 0;
    }
    var i := 0;
    while i < 20
      invariant i <= 20 && forall j :: 8 <= j < 8 + i ==> s[j] == 0
    {
      if s[8 + i] != 0 {
        assert s[8..28][i] != Zeros(20)[i];
        return false, 0;
      }
      i := i + 1;
    }
    assert s[8..28] == Zeros(20);
    if U32(s, 28) < 28 || |s| < 32 + U32(s, 28) || U32(s, 56) == 0 {
      return false, 0;
    }
    var vendor := 60 + 4 * U32(s, 56);
    if |s| < vendor || |s| < vendor + 1 || |s| < vendor + 1 + s[vendor] {
      return false, 0;
    }
    return true, vendor + 1 + s[vendor];
  }
}
