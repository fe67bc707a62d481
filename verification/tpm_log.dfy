/** Whole event logs, in the crypto-agile and in the older format. */
module TpmLog {
  import opened LittleEndian
  import opened TpmRecords
  import opened TpmReplay
  import opened TpmTheorems

  function ParseSha(s: seq<Byte>): Parsed<ShaEvent> {
    if |s| < 32 || |s| < 32 + U32(s, 28) then Fail
    else Got(ShaEvent(U32(s, 0), U32(s, 4), s[8..28], s[32..32 + U32(s, 28)]), 32 + U32(s, 28))
  }

  // The PCR indices of the records reached are valid; the code does not check them.
  predicate PcrsInRange(s: seq<Byte>)
    decreases |s|
  {
    |s| >= 32 ==> U32(s, 0) < MAX_PCRS && (ParseSha(s).Got? ==> PcrsInRange(s[ParseSha(s).size..]))
  }

  // One record of the older format: the PCR is extended before the data size is checked.
  function RunSha(env: Env, st: State, s: seq<Byte>): (o: Outcome)
    requires Shaped(st) && (|s| >= 32 ==> U32(s, 0) < MAX_PCRS)
    ensures Shaped(o.st)
  {
    if |s| < 32 then Outcome(false, st)
    else
      var st1 := Extend(env, st, U32(s, 0), Digest(SHA1, s[8..28]));
      var p := ParseSha(s);
      if p.Fail? then Outcome(false, st1)
      else
        var o := Tell(env, st1, HeaderCall(s[..p.size]));
        if o.ok then RunBody(env, o.st, p.value.typ, p.value.data) else o
  }

  function RunShas(env: Env, st: State, s: seq<Byte>): (o: Outcome)
    requires Shaped(st) && PcrsInRange(s)
    ensures Shaped(o.st)
    decreases |s|
  {
    if s == [] then Outcome(true, st)
    else
      var o := RunSha(env, st, s);
      if o.ok then RunShas(env, o.st, s[ParseSha(s).size..]) else o
  }

  function RunAgile(env: Env, st: State, s: seq<Byte>): (o: Outcome)
    requires Shaped(st)
    ensures Shaped(o.st)
  {
    if ParseSpecId(s).Fail? then Outcome(false, st)
    else
      SpecIdEncode(s);
      var n := ParseSpecId(s).size;
      var o := Tell(env, st, SpecIdCall(s[..n]));
      if o.ok then RunEvents(env, o.st, s[n..]) else o
  }

  predicate IsAgile(s: seq<Byte>) {
    |s| >= 32 && U32(s, 4) == EV_NO_ACTION
  }

  // The whole parser.
  function RunLog(env: Env, st: State, s: seq<Byte>): (o: Outcome)
    requires Shaped(st) && (IsAgile(s) || PcrsInRange(s))
    ensures Shaped(o.st)
  {
    if |s| < 32 then Outcome(false, st)
    else if IsAgile(s) then RunAgile(env, st, s)
    else RunShas(env, st, s)
  }

  function EncodeLog(h: SpecId, es: seq<Event>): seq<Byte> {
    EncodeSpecId(h) + EncodeEvents(es)
  }

  // An accepted crypto-agile log is the encoding of a header and well-formed records.
  lemma AcceptedIsEncoding(env: Env, st: State, s: seq<Byte>)
    requires Shaped(st) && IsAgile(s) && RunLog(env, st, s).ok
    ensures ParseSpecId(s).Got? && ParseSpecId(s).size <= |s| && ParseEvents(s[ParseSpecId(s).size..]).Got?
    ensures var h := ParseSpecId(s).value; var es := ParseEvents(s[ParseSpecId(s).size..]).value;
            WellSpecId(h) && WellEvents(es) && EncodeLog(h, es) == s
  {
    hide RunEvents, ParseEvents, ParseSpecId, EncodeSpecId, EncodeEvents, ReplayEvents, WellEvents, WellSpecId, U32, Shaped;
    SpecIdEncode(s);
    var n := ParseSpecId(s).size;
    var o := Tell(env, st, SpecIdCall(s[..n]));
    assert Shaped(o.st) by { TellShaped(env, st, SpecIdCall(s[..n])); }
    RunsEvents(env, o.st, s[n..]);
    assert s == s[..n] + s[n..];
  }

  lemma TellShaped(env: Env, st: State, call: Call)
    requires Shaped(st)
    ensures Shaped(Tell(env, st, call).st)
  {
  }

  // The encoding of a well-formed header and records is accepted exactly when the event
  // data fits and no callback refuses; then the callbacks were called in log order.
  lemma EncodingAccepted(env: Env, st: State, h: SpecId, es: seq<Event>)
    requires Shaped(st) && WellSpecId(h) && WellEvents(es) && 32 + h.dataSize <= |EncodeLog(h, es)|
    ensures IsAgile(EncodeLog(h, es))
    ensures var calls := [SpecIdCall(EncodeSpecId(h))] + AllCalls(es); var o := RunLog(env, st, EncodeLog(h, es));
            && (o.ok <==> (forall i :: 0 <= i < |es| ==> BodyFits(es[i].typ, es[i].data)) && Accepted(env, st.calls, calls))
            && (o.ok ==> o.st.calls == st.calls + calls)
  {
    hide RunEvents, ReplayEvents, ParseEvents, ParseSpecId, EncodeSpecId, AllCalls, Accepted, BodyFits, EncodeEvents, Went;
    LogDecodes(env, st, h, es);
    var call := SpecIdCall(EncodeSpecId(h));
    var o := Tell(env, st, call);
    AcceptedSplit(env, st.calls, [call], AllCalls(es));
    AcceptedOne(env, st.calls, call);
    EventsAccepted(env, o.st, es);
    EventsWent(env, o.st, es, SHA1, 0);
    assert st.calls + ([call] + AllCalls(es)) == st.calls + [call] + AllCalls(es);
  }

  lemma LogDecodes(env: Env, st: State, h: SpecId, es: seq<Event>)
    requires Shaped(st) && WellSpecId(h) && WellEvents(es) && 32 + h.dataSize <= |EncodeLog(h, es)|
    ensures IsAgile(EncodeLog(h, es))
    ensures var o := Tell(env, st, SpecIdCall(EncodeSpecId(h)));
            && Shaped(o.st)
            && RunLog(env, st, EncodeLog(h, es)) == if o.ok then ReplayEvents(env, o.st, es) else o
  {
    hide RunEvents, ReplayEvents, ParseEvents, EncodeSpecId, EncodeEvents, Zeros;
    var s, n := EncodeLog(h, es), |EncodeSpecId(h)|;
    SpecIdDecode(h, EncodeEvents(es));
    assert s[..n] == EncodeSpecId(h) && s[n..] == EncodeEvents(es);
    var o := Tell(env, st, SpecIdCall(EncodeSpecId(h)));
    EventsDecode(es);
    RunsEvents(env, o.st, EncodeEvents(es));
  }

  // Each bank of an accepted log ends as the fold of extend over its digests in log
  // order, for every record after the header whatever its type, and its used bits are
  // exactly the PCRs that occur (with those set before).
  lemma LogReplayed(env: Env, st: State, h: SpecId, es: seq<Event>, alg: nat, pcr: nat)
    requires Shaped(st) && WellSpecId(h) && WellEvents(es) && 32 + h.dataSize <= |EncodeLog(h, es)|
    requires Real(alg) && pcr < MAX_PCRS
    ensures IsAgile(EncodeLog(h, es))
    ensures var o := RunLog(env, st, EncodeLog(h, es)); o.ok ==> Went(env, st, o.st, alg, pcr, Extended(es, alg, pcr))
  {
    hide RunLog, ReplayEvents, EncodeLog, Bit;
    LogDecodes(env, st, h, es);
    var o := Tell(env, st, SpecIdCall(EncodeSpecId(h)));
    EventsWent(env, o.st, es, alg, pcr);
    Stays(env, st, o.st, alg, pcr);
    var end := RunLog(env, st, EncodeLog(h, es));
    if end.ok {
      WentOn(env, st, o.st, end.st, alg, pcr, [], Extended(es, alg, pcr));
      assert [] + Extended(es, alg, pcr) == Extended(es, alg, pcr);
    }
  }

  lemma {:induction false} NoBits(p: nat)
    ensures !Bit(0, p)
  {
    if p > 0 {
      NoBits(p - 1);
    }
  }

  // From cleared used bits they are exactly the PCRs that occur.
  lemma LogFromCleared(env: Env, st: State, h: SpecId, es: seq<Event>, alg: nat, pcr: nat)
    requires Shaped(st) && WellSpecId(h) && WellEvents(es) && 32 + h.dataSize <= |EncodeLog(h, es)|
    requires Real(alg) && pcr < MAX_PCRS && BankOf(st, alg).used == 0
    ensures IsAgile(EncodeLog(h, es))
    ensures var o := RunLog(env, st, EncodeLog(h, es));
            o.ok ==> (Bit(BankOf(o.st, alg).used, pcr) <==>
                      exists i, j :: 0 <= i < |es| && es[i].pcr == pcr
                                     && 0 <= j < |es[i].digests| && es[i].digests[j].alg == alg)
  {
    hide RunLog, EncodeLog, Bit;
    LogReplayed(env, st, h, es, alg, pcr);
    NoBits(pcr);
    Occurs(es, alg, pcr);
  }

  lemma {:induction false} OccursIn(ds: seq<Digest>, alg: nat)
    ensures OfAlg(ds, alg) != [] <==> exists j :: 0 <= j < |ds| && ds[j].alg == alg
  {
    if ds != [] {
      OccursIn(ds[1..], alg);
      assert forall j | 0 < j < |ds| :: ds[j] == ds[1..][j - 1];
    }
  }

  lemma {:induction false} Occurs(es: seq<Event>, alg: nat, pcr: nat)
    ensures Extended(es, alg, pcr) != [] <==>
            exists i, j :: 0 <= i < |es| && es[i].pcr == pcr && 0 <= j < |es[i].digests| && es[i].digests[j].alg == alg
  {
    hide OfAlg;
    if es != [] {
      Occurs(es[1..], alg, pcr);
      OccursIn(es[0].digests, alg);
      assert forall i | 0 < i < |es| :: es[i] == es[1..][i - 1];
    }
  }

  // Records of the older format.
  predicate WellSha(e: ShaEvent) {
    e.pcr < MAX_PCRS && e.typ < WORD && |e.digest| == 20 && |e.data| < WORD
  }

  predicate WellShas(es: seq<ShaEvent>) {
    forall i :: 0 <= i < |es| ==> WellSha(es[i])
  }

  function EncodeShas(es: seq<ShaEvent>): seq<Byte> {
    if es == [] then [] else EncodeShaEvent(es[0]) + EncodeShas(es[1..])
  }

  function ShaCalls(es: seq<ShaEvent>): seq<Call> {
    if es == [] then []
    else [HeaderCall(EncodeShaEvent(es[0])), DataCall(es[0].typ, es[0].data)] + ShaCalls(es[1..])
  }

  function ShaDigests(es: seq<ShaEvent>, pcr: nat): seq<seq<Byte>> {
    if es == [] then []
    else if es[0].pcr == pcr then [es[0].digest] + ShaDigests(es[1..], pcr)
    else ShaDigests(es[1..], pcr)
  }

  lemma ShaDecode(e: ShaEvent, t: seq<Byte>)
    requires WellSha(e)
    ensures ParseSha(EncodeShaEvent(e) + t) == Got(e, |EncodeShaEvent(e)|) && |EncodeShaEvent(e)| == 32 + |e.data|
    ensures U32(EncodeShaEvent(e) + t, 4) == e.typ
  {
    hide U32, Bytes32;
    var s := EncodeShaEvent(e) + t;
    var size := Bytes32(|e.data|);
    FieldAt([], e.pcr, Bytes32(e.typ) + e.digest + size + e.data + t);
    assert s == [] + Bytes32(e.pcr) + (Bytes32(e.typ) + e.digest + size + e.data + t);
    FieldAt(Bytes32(e.pcr), e.typ, e.digest + size + e.data + t);
    assert s == Bytes32(e.pcr) + Bytes32(e.typ) + (e.digest + size + e.data + t);
    FieldAt(Bytes32(e.pcr) + Bytes32(e.typ) + e.digest, |e.data|, e.data + t);
    assert s == Bytes32(e.pcr) + Bytes32(e.typ) + e.digest + size + (e.data + t);
    assert s[8..28] == e.digest && s[32..32 + |e.data|] == e.data;
  }

  lemma ShaEncode(s: seq<Byte>)
    requires ParseSha(s).Got? && U32(s, 0) < MAX_PCRS
    ensures var p := ParseSha(s);
            WellSha(p.value) && 32 <= p.size <= |s| && EncodeShaEvent(p.value) == s[..p.size]
  {
    hide U32, Bytes32;
    var p := ParseSha(s);
    Bytes32RoundTrip(s, 0);
    Bytes32RoundTrip(s, 4);
    Bytes32RoundTrip(s, 28);
    assert s[..p.size] == s[0..4] + s[4..8] + s[8..28] + (s[28..32] + s[32..p.size]);
  }

  // An accepted log of the older format is the encoding of well-formed records; its SHA-1
  // PCRs are the folds of their digests, and the callbacks were called in log order.
  ghost predicate IsShaLog(env: Env, st: State, s: seq<Byte>, now: State, es: seq<ShaEvent>, pcr: nat)
    requires Shaped(st) && Shaped(now) && pcr < MAX_PCRS
  {
    && WellShas(es) && EncodeShas(es) == s
    && now.calls == st.calls + ShaCalls(es) && Went(env, st, now, SHA1, pcr, ShaDigests(es, pcr))
  }

  lemma RunShaStep(env: Env, st: State, s: seq<Byte>, pcr: nat)
    requires Shaped(st) && |s| >= 32 && U32(s, 0) < MAX_PCRS && pcr < MAX_PCRS && RunSha(env, st, s).ok
    ensures ParseSha(s).Got? && 32 <= ParseSha(s).size <= |s| && WellSha(ParseSha(s).value)
    ensures EncodeShaEvent(ParseSha(s).value) == s[..ParseSha(s).size]
    ensures var e := ParseSha(s).value; var o := RunSha(env, st, s);
            && o.st.calls == st.calls + [HeaderCall(EncodeShaEvent(e)), DataCall(e.typ, e.data)]
            && Went(env, st, o.st, SHA1, pcr, if e.pcr == pcr then [e.digest] else [])
  {
    hide U32, Extend, Went, EncodeShaEvent, BodyFits;
    ShaEncode(s);
    var e, d := ParseSha(s).value, Digest(SHA1, s[8..28]);
    var st1 := Extend(env, st, e.pcr, d);
    ExtendWent(env, st, e.pcr, d, SHA1, pcr);
    SameBanks(env, st, st1, RunSha(env, st, s).st, SHA1, pcr, if e.pcr == pcr then [e.digest] else []);
  }

  lemma {:induction false} ShaLogReplayed(env: Env, st: State, s: seq<Byte>, pcr: nat) returns (es: seq<ShaEvent>)
    requires Shaped(st) && PcrsInRange(s) && pcr < MAX_PCRS && RunShas(env, st, s).ok
    ensures IsShaLog(env, st, s, RunShas(env, st, s).st, es, pcr)
    decreases |s|
  {
    hide RunSha, ParseSha, U32, EncodeShaEvent, Went, WellSha;
    if s == [] {
      es := [];
      Stays(env, st, st, SHA1, pcr);
    } else {
      ShaLongEnough(env, st, s);
      RunShaStep(env, st, s, pcr);
      var e, n, o := ParseSha(s).value, ParseSha(s).size, RunSha(env, st, s);
      var end := RunShas(env, st, s).st;
      assert RunShas(env, o.st, s[n..]).st == end;
      var rest := ShaLogReplayed(env, o.st, s[n..], pcr);
      es := [e] + rest;
      hide RunShas, PcrsInRange;
      assert s == s[..n] + s[n..];
      AddRecord(env, st, o.st, end, s[n..], e, rest, pcr);
    }
  }

  lemma AddRecord(env: Env, st: State, mid: State, now: State, s: seq<Byte>, e: ShaEvent, rest: seq<ShaEvent>, pcr: nat)
    requires Shaped(st) && Shaped(mid) && Shaped(now) && pcr < MAX_PCRS && WellSha(e) && IsShaLog(env, mid, s, now, rest, pcr)
    requires mid.calls == st.calls + [HeaderCall(EncodeShaEvent(e)), DataCall(e.typ, e.data)]
    requires Went(env, st, mid, SHA1, pcr, if e.pcr == pcr then [e.digest] else [])
    ensures IsShaLog(env, st, EncodeShaEvent(e) + s, now, [e] + rest, pcr)
  {
    hide EncodeShaEvent, Went, WellSha, Shaped;
    var es := [e] + rest;
    assert es[1..] == rest;
    var here := if e.pcr == pcr then [e.digest] else [];
    WentOn(env, st, mid, now, SHA1, pcr, here, ShaDigests(rest, pcr));
    assert here + ShaDigests(rest, pcr) == ShaDigests(es, pcr);
    assert st.calls + [HeaderCall(EncodeShaEvent(e)), DataCall(e.typ, e.data)] + ShaCalls(rest) == st.calls + ShaCalls(es);
  }

  lemma ShaLongEnough(env: Env, st: State, s: seq<Byte>)
    requires Shaped(st) && PcrsInRange(s) && RunSha(env, st, s).ok
    ensures |s| >= 32 && U32(s, 0) < MAX_PCRS && ParseSha(s).Got? && PcrsInRange(s[ParseSha(s).size..])
  {
  }

  // The calls of one record.
  function RecordCalls(e: ShaEvent): seq<Call> {
    [HeaderCall(EncodeShaEvent(e)), DataCall(e.typ, e.data)]
  }

  lemma ShaAccepted(env: Env, st: State, e: ShaEvent, s: seq<Byte>)
    requires Shaped(st) && WellSha(e) && |s| >= 32 && U32(s, 0) == e.pcr
    requires ParseSha(s) == Got(e, |EncodeShaEvent(e)|) && EncodeShaEvent(e) <= s
    ensures var o := RunSha(env, st, s);
            && (o.ok <==> BodyFits(e.typ, e.data) && Accepted(env, st.calls, RecordCalls(e)))
            && (o.ok ==> o.st.calls == st.calls + RecordCalls(e))
  {
    hide U32, Extend, ParseSha, EncodeShaEvent, BodyFits, Accepted, Went;
    var a, b, d := HeaderCall(EncodeShaEvent(e)), DataCall(e.typ, e.data), Digest(SHA1, s[8..28]);
    assert RecordCalls(e) == [a] + [b];
    AcceptedSplit(env, st.calls, [a], [b]);
    AcceptedOne(env, st.calls, a);
    AcceptedOne(env, st.calls + [a], b);
    ExtendWent(env, st, e.pcr, d, SHA1, 0);
    assert s[..|EncodeShaEvent(e)|] == EncodeShaEvent(e);
  }

  lemma FirstRecord(e: ShaEvent, t: seq<Byte>)
    requires WellSha(e)
    ensures var s := EncodeShaEvent(e) + t;
            && |s| >= 32 && U32(s, 0) == e.pcr < MAX_PCRS && U32(s, 4) == e.typ
            && ParseSha(s) == Got(e, |EncodeShaEvent(e)|) && s[|EncodeShaEvent(e)|..] == t
  {
    hide U32, EncodeShaEvent;
    ShaDecode(e, t);
  }

  lemma {:induction false} ShasInRange(es: seq<ShaEvent>)
    requires WellShas(es)
    ensures PcrsInRange(EncodeShas(es))
  {
    hide U32, EncodeShaEvent, ParseSha;
    if es != [] {
      assert WellSha(es[0]);
      FirstRecord(es[0], EncodeShas(es[1..]));
      ShasInRange(es[1..]);
    }
  }

  lemma {:induction false} ShasAccepted(env: Env, st: State, es: seq<ShaEvent>)
    requires Shaped(st) && WellShas(es) && PcrsInRange(EncodeShas(es))
    ensures var o := RunShas(env, st, EncodeShas(es));
            && (o.ok <==> (forall i :: 0 <= i < |es| ==> BodyFits(es[i].typ, es[i].data))
                          && Accepted(env, st.calls, ShaCalls(es)))
            && (o.ok ==> o.st.calls == st.calls + ShaCalls(es))
    decreases |es|
  {
    hide U32, RunSha, ParseSha, EncodeShaEvent, BodyFits, Accepted, WellSha, PcrsInRange, RecordCalls;
    if es == [] {
      NoneAccepted(env, st.calls);
    } else {
      var e, rest := es[0], es[1..];
      assert WellSha(e);
      var s := EncodeShas(es);
      FirstRecord(e, EncodeShas(rest));
      ShaAccepted(env, st, e, s);
      assert ShaCalls(es) == RecordCalls(e) + ShaCalls(rest) by { CallsSplit(es); }
      AcceptedSplit(env, st.calls, RecordCalls(e), ShaCalls(rest));
      var o := RunSha(env, st, s);
      if o.ok {
        ShasInRange(rest);
        ShasAccepted(env, o.st, rest);
        assert forall i | 0 < i < |es| :: es[i] == rest[i - 1];
        assert forall i | 0 <= i < |rest| :: rest[i] == es[i + 1];
        assert st.calls + (RecordCalls(e) + ShaCalls(rest)) == st.calls + RecordCalls(e) + ShaCalls(rest);
      }
    }
  }

  lemma CallsSplit(es: seq<ShaEvent>)
    requires es != []
    ensures ShaCalls(es) == RecordCalls(es[0]) + ShaCalls(es[1..])
  {
  }

  // The encoding of well-formed older records, the first not of type EV_NO_ACTION, is
  // accepted exactly when the event data fits and no callback refuses.
  lemma ShaEncodingAccepted(env: Env, st: State, es: seq<ShaEvent>)
    requires Shaped(st) && WellShas(es) && es != [] && es[0].typ != EV_NO_ACTION
    ensures !IsAgile(EncodeShas(es)) && PcrsInRange(EncodeShas(es))
    ensures var o := RunLog(env, st, EncodeShas(es));
            && (o.ok <==> (forall i :: 0 <= i < |es| ==> BodyFits(es[i].typ, es[i].data))
                          && Accepted(env, st.calls, ShaCalls(es)))
            && (o.ok ==> o.st.calls == st.calls + ShaCalls(es))
  {
    hide U32, EncodeShaEvent, BodyFits, Accepted, ParseSha, RunShas, PcrsInRange, ShaCalls;
    assert WellSha(es[0]);
    FirstRecord(es[0], EncodeShas(es[1..]));
    ShasInRange(es);
    ShasAccepted(env, st, es);
  }
}
