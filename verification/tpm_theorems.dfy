/** What accepting a TPM event log means. */
module TpmTheorems {
  import opened LittleEndian
  import opened TpmRecords
  import opened TpmReplay

  // The digests of an algorithm in a digest list, and those a log has for one PCR.
  function OfAlg(ds: seq<Digest>, alg: nat): seq<seq<Byte>> {
    if ds == [] then []
    else if ds[0].alg == alg then [ds[0].bytes] + OfAlg(ds[1..], alg)
    else OfAlg(ds[1..], alg)
  }

  function Extended(es: seq<Event>, alg: nat, pcr: nat): seq<seq<Byte>> {
    if es == [] then []
    else if es[0].pcr == pcr then OfAlg(es[0].digests, alg) + Extended(es[1..], alg, pcr)
    else Extended(es[1..], alg, pcr)
  }

  // Extending a PCR by each digest in turn.
  function Fold(hash: (nat, seq<Byte>) -> seq<Byte>, alg: nat, init: seq<Byte>, ds: seq<seq<Byte>>): seq<Byte>
    decreases |ds|
  {
    if ds == [] then init else Fold(hash, alg, hash(alg, init + ds[0]), ds[1..])
  }

  lemma {:induction false} FoldSplit(hash: (nat, seq<Byte>) -> seq<Byte>, alg: nat, init: seq<Byte>,
                                     a: seq<seq<Byte>>, b: seq<seq<Byte>>)
    ensures Fold(hash, alg, init, a + b) == Fold(hash, alg, Fold(hash, alg, init, a), b)
    decreases |a|
  {
    if a == [] {
      assert a + b == b;
    } else {
      FoldSplit(hash, alg, hash(alg, init + a[0]), a[1..], b);
      assert (a + b)[1..] == a[1..] + b;
    }
  }

  function DigestCalls(ds: seq<Digest>): seq<Call> {
    if ds == [] then [] else [DigestCall(ds[0])] + DigestCalls(ds[1..])
  }

  // The calls one record makes, and those a log makes.
  function CallsOf(e: Event): seq<Call> {
    [HeaderCall(EncodeEvent(e))] + DigestCalls(e.digests) + [DataCall(e.typ, e.data)]
  }

  function AllCalls(es: seq<Event>): seq<Call> {
    if es == [] then [] else CallsOf(es[0]) + AllCalls(es[1..])
  }

  ghost predicate Real(alg: nat) {
    HasBank(alg) && alg != SM3_256
  }

  // PCR pcr of bank alg went through the digests ds, and its bit shows if there were any.
  ghost predicate Went(env: Env, st: State, now: State, alg: nat, pcr: nat, ds: seq<seq<Byte>>)
    requires Shaped(st) && Shaped(now) && Real(alg) && pcr < MAX_PCRS
  {
    && BankOf(now, alg).pcrs[pcr] == Fold(env.hash, alg, BankOf(st, alg).pcrs[pcr], ds)
    && (Bit(BankOf(now, alg).used, pcr) <==> Bit(BankOf(st, alg).used, pcr) || ds != [])
  }

  lemma WentOn(env: Env, st: State, mid: State, now: State, alg: nat, pcr: nat, a: seq<seq<Byte>>, b: seq<seq<Byte>>)
    requires Shaped(st) && Shaped(mid) && Shaped(now) && Real(alg) && pcr < MAX_PCRS
    requires Went(env, st, mid, alg, pcr, a) && Went(env, mid, now, alg, pcr, b)
    ensures Went(env, st, now, alg, pcr, a + b)
  {
    hide Bit;
    FoldSplit(env.hash, alg, BankOf(st, alg).pcrs[pcr], a, b);
  }

  lemma ExtendWent(env: Env, st: State, to: nat, d: Digest, alg: nat, pcr: nat)
    requires Shaped(st) && to < MAX_PCRS && Real(alg) && pcr < MAX_PCRS
    ensures Shaped(Extend(env, st, to, d)) && Extend(env, st, to, d).calls == st.calls
    ensures Went(env, st, Extend(env, st, to, d), alg, pcr, if to == pcr && d.alg == alg then [d.bytes] else [])
  {
    hide Bit, SetBit;
    SetBitSets(BankOf(st, alg).used, to, pcr);
    var init := BankOf(st, alg).pcrs[pcr];
    assert Fold(env.hash, alg, init, [d.bytes]) == env.hash(alg, init + d.bytes) by {
      assert [d.bytes][1..] == [];
    }
  }

  lemma DigestWent(env: Env, st: State, to: nat, d: Digest, alg: nat, pcr: nat)
    requires Shaped(st) && to < MAX_PCRS && Real(alg) && pcr < MAX_PCRS && WellDigest(d)
    ensures var o := ReplayDigest(env, st, to, d);
            && o.st.calls == st.calls + [DigestCall(d)]
            && Went(env, st, o.st, alg, pcr, if to == pcr then OfAlg([d], alg) else [])
  {
    hide Went, Extend;
    var st1 := Extend(env, st, to, d);
    ExtendWent(env, st, to, d, alg, pcr);
    assert OfAlg([d], alg) == if d.alg == alg then [d.bytes] else [] by {
      assert [d][1..] == [];
    }
    SameBanks(env, st, st1, ReplayDigest(env, st, to, d).st, alg, pcr, if to == pcr then OfAlg([d], alg) else []);
  }

  lemma OfAlgFirst(ds: seq<Digest>, alg: nat)
    requires ds != []
    ensures OfAlg(ds, alg) == OfAlg([ds[0]], alg) + OfAlg(ds[1..], alg)
  {
    assert [ds[0]][1..] == [];
  }

  // Replaying a digest list that is not refused.
  lemma {:induction false} DigestsWent(env: Env, st: State, to: nat, ds: seq<Digest>, alg: nat, pcr: nat)
    requires Shaped(st) && to < MAX_PCRS && Real(alg) && pcr < MAX_PCRS
    requires forall i :: 0 <= i < |ds| ==> WellDigest(ds[i])
    ensures var o := ReplayDigests(env, st, to, ds);
            o.ok ==>
              && Went(env, st, o.st, alg, pcr, if to == pcr then OfAlg(ds, alg) else [])
              && o.st.calls == st.calls + DigestCalls(ds)
    decreases |ds|
  {
    hide Went, ReplayDigest, OfAlg, Shaped;
    if ds == [] {
      Stays(env, st, st, alg, pcr);
      assert OfAlg(ds, alg) == [] by { NoneOfAlg(ds, alg); }
    } else {
      assert WellDigest(ds[0]);
      DigestWent(env, st, to, ds[0], alg, pcr);
      OfAlgFirst(ds, alg);
      var o := ReplayDigest(env, st, to, ds[0]);
      if o.ok {
        assert forall i | 0 <= i < |ds| - 1 :: ds[1..][i] == ds[i + 1];
        DigestsWent(env, o.st, to, ds[1..], alg, pcr);
        var o1 := ReplayDigests(env, o.st, to, ds[1..]);
        assert ReplayDigests(env, st, to, ds) == o1;
        hide ReplayDigests;
        if o1.ok {
          var here := if to == pcr then OfAlg([ds[0]], alg) else [];
          var rest := if to == pcr then OfAlg(ds[1..], alg) else [];
          WentOn(env, st, o.st, o1.st, alg, pcr, here, rest);
          assert here + rest == if to == pcr then OfAlg(ds, alg) else [];
          assert DigestCalls(ds) == [DigestCall(ds[0])] + DigestCalls(ds[1..]);
          hide DigestCalls;
          assert st.calls + [DigestCall(ds[0])] + DigestCalls(ds[1..]) == st.calls + DigestCalls(ds);
        }
      }
    }
  }

  lemma NoneOfAlg(ds: seq<Digest>, alg: nat)
    ensures ds == [] ==> OfAlg(ds, alg) == []
  {
  }

  lemma Stays(env: Env, st: State, now: State, alg: nat, pcr: nat)
    requires Shaped(st) && Shaped(now) && Real(alg) && pcr < MAX_PCRS && now == st.(calls := now.calls)
    ensures Went(env, st, now, alg, pcr, [])
  {
  }

  lemma SameBanks(env: Env, st: State, st1: State, now: State, alg: nat, pcr: nat, ds: seq<seq<Byte>>)
    requires Shaped(st) && Shaped(st1) && Shaped(now) && Real(alg) && pcr < MAX_PCRS
    requires Went(env, st, st1, alg, pcr, ds) && now == st1.(calls := now.calls)
    ensures Went(env, st, now, alg, pcr, ds)
  {
  }

  lemma EventWent(env: Env, st: State, e: Event, alg: nat, pcr: nat)
    requires Shaped(st) && WellEvent(e) && Real(alg) && pcr < MAX_PCRS
    ensures var o := ReplayEvent(env, st, e);
            o.ok ==>
              && Went(env, st, o.st, alg, pcr, if e.pcr == pcr then OfAlg(e.digests, alg) else [])
              && o.st.calls == st.calls + CallsOf(e) && BodyFits(e.typ, e.data)
  {
    hide Bit, Went, ReplayDigests, OfAlg, BodyFits;
    var o := Tell(env, st, HeaderCall(EncodeEvent(e)));
    DigestsWent(env, o.st, e.pcr, e.digests, alg, pcr);
    var o1 := ReplayDigests(env, o.st, e.pcr, e.digests);
    var o2 := RunBody(env, o1.st, e.typ, e.data);
    var ds := if e.pcr == pcr then OfAlg(e.digests, alg) else [];
    if o.ok && o1.ok && o2.ok {
      Stays(env, st, o.st, alg, pcr);
      WentOn(env, st, o.st, o1.st, alg, pcr, [], ds);
      assert [] + ds == ds;
      SameBanks(env, st, o1.st, o2.st, alg, pcr, ds);
    }
  }

  // Every PCR of every bank ends as the fold of its digests in log order, its used bit
  // tells whether it occurred, and the callbacks were called in log order.
  lemma {:induction false} EventsWent(env: Env, st: State, es: seq<Event>, alg: nat, pcr: nat)
    requires Shaped(st) && WellEvents(es) && Real(alg) && pcr < MAX_PCRS
    ensures var o := ReplayEvents(env, st, es);
            o.ok ==>
              && Went(env, st, o.st, alg, pcr, Extended(es, alg, pcr))
              && o.st.calls == st.calls + AllCalls(es)
              && forall i :: 0 <= i < |es| ==> BodyFits(es[i].typ, es[i].data)
    decreases |es|
  {
    hide Bit, Went, ReplayEvent, OfAlg, BodyFits, CallsOf, WellEvent;
    if es == [] {
      Stays(env, st, st, alg, pcr);
    } else {
      assert WellEvent(es[0]);
      EventWent(env, st, es[0], alg, pcr);
      var o := ReplayEventOk(env, st, es[0]);
      if o.ok {
        EventsWent(env, o.st, es[1..], alg, pcr);
        var o1 := ReplayEvents(env, o.st, es[1..]);
        if o1.ok {
          var here := if es[0].pcr == pcr then OfAlg(es[0].digests, alg) else [];
          WentOn(env, st, o.st, o1.st, alg, pcr, here, Extended(es[1..], alg, pcr));
          assert here + Extended(es[1..], alg, pcr) == Extended(es, alg, pcr);
          assert forall i | 0 < i < |es| :: es[i] == es[1..][i - 1];
        }
      }
    }
  }

  ghost function ReplayEventOk(env: Env, st: State, e: Event): (o: Outcome)
    requires Shaped(st) && WellEvent(e)
    ensures o == ReplayEvent(env, st, e) && Shaped(o.st)
  {
    ReplayEvent(env, st, e)
  }

  // The callbacks accept these calls, one after the other.
  ghost predicate Accepted(env: Env, calls: seq<Call>, more: seq<Call>)
    decreases |more|
  {
    more == [] || (env.accepts(calls, more[0]) && Accepted(env, calls + [more[0]], more[1..]))
  }

  lemma {:induction false} AcceptedSplit(env: Env, calls: seq<Call>, a: seq<Call>, b: seq<Call>)
    ensures Accepted(env, calls, a + b) <==> Accepted(env, calls, a) && Accepted(env, calls + a, b)
    decreases |a|
  {
    if a == [] {
      assert a + b == b && calls + a == calls;
    } else {
      AcceptedSplit(env, calls + [a[0]], a[1..], b);
      assert (a + b)[1..] == a[1..] + b;
      assert calls + [a[0]] + a[1..] == calls + a;
    }
  }

  lemma AcceptedOne(env: Env, calls: seq<Call>, c: Call)
    ensures Accepted(env, calls, [c]) <==> env.accepts(calls, c)
  {
    assert [c][1..] == [];
  }

  lemma {:induction false} DigestsAccepted(env: Env, st: State, to: nat, ds: seq<Digest>)
    requires Shaped(st) && to < MAX_PCRS && forall i :: 0 <= i < |ds| ==> WellDigest(ds[i])
    ensures ReplayDigests(env, st, to, ds).ok <==> Accepted(env, st.calls, DigestCalls(ds))
    decreases |ds|
  {
    if ds != [] {
      assert WellDigest(ds[0]);
      var c := DigestCall(ds[0]);
      assert DigestCalls(ds)[1..] == DigestCalls(ds[1..]);
      var o := ReplayDigest(env, st, to, ds[0]);
      assert o.st.calls == st.calls + [c] by { ExtendWent(env, st, to, ds[0], SHA1, 0); }
      if o.ok {
        DigestsAccepted(env, o.st, to, ds[1..]);
      }
    }
  }

  lemma EventAccepted(env: Env, st: State, e: Event)
    requires Shaped(st) && WellEvent(e)
    ensures ReplayEvent(env, st, e).ok <==> BodyFits(e.typ, e.data) && Accepted(env, st.calls, CallsOf(e))
  {
    hide Went, ReplayDigests, BodyFits, DigestCalls, Accepted;
    var a, b, c := HeaderCall(EncodeEvent(e)), DigestCalls(e.digests), DataCall(e.typ, e.data);
    AcceptedSplit(env, st.calls, [a] + b, [c]);
    AcceptedSplit(env, st.calls, [a], b);
    AcceptedOne(env, st.calls, a);
    AcceptedOne(env, st.calls + ([a] + b), c);
    var o := Tell(env, st, a);
    DigestsAccepted(env, o.st, e.pcr, e.digests);
    DigestsWent(env, o.st, e.pcr, e.digests, SHA1, 0);
    assert st.calls + ([a] + b) == st.calls + [a] + b;
  }

  // A log is accepted exactly when its event data fits and no callback refuses.
  lemma {:induction false} EventsAccepted(env: Env, st: State, es: seq<Event>)
    requires Shaped(st) && WellEvents(es)
    ensures ReplayEvents(env, st, es).ok <==>
            (forall i :: 0 <= i < |es| ==> BodyFits(es[i].typ, es[i].data)) && Accepted(env, st.calls, AllCalls(es))
    decreases |es|
  {
    hide Went, ReplayEvent, BodyFits, CallsOf, Accepted, WellEvent;
    if es == [] {
      NoneAccepted(env, st.calls);
    } else {
      assert WellEvent(es[0]);
      EventAccepted(env, st, es[0]);
      EventWent(env, st, es[0], SHA1, 0);
      AcceptedSplit(env, st.calls, CallsOf(es[0]), AllCalls(es[1..]));
      var o := ReplayEventOk(env, st, es[0]);
      if o.ok {
        EventsAccepted(env, o.st, es[1..]);
        assert forall i | 0 < i < |es| :: es[i] == es[1..][i - 1];
        assert forall i | 0 <= i < |es| - 1 :: es[1..][i] == es[i + 1];
      }
    }
  }

  lemma NoneAccepted(env: Env, calls: seq<Call>)
    ensures Accepted(env, calls, [])
  {
  }

  lemma {:induction false} EventsDecode(es: seq<Event>)
    requires WellEvents(es)
    ensures ParseEvents(EncodeEvents(es)) == Got(es, |EncodeEvents(es)|)
  {
    hide EncodeEvent, ParseEvent, WellEvent;
    if es != [] {
      var e, rest := es[0], EncodeEvents(es[1..]);
      assert WellEvent(e);
      EventsDecode(es[1..]);
      EventDecode(e, rest);
      assert (EncodeEvent(e) + rest)[|EncodeEvent(e)|..] == rest;
      assert [e] + es[1..] == es;
    }
  }
}
