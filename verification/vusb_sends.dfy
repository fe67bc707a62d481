/** Which sections have to put a request on an empty ring, and where a reset is. */
module VusbSends {
  import opened VusbDevice
  import opened VusbSlots
  import opened VusbInvariants
  import opened VusbKeeps
  import opened VusbCompletion
  import opened VusbSections
  import opened VusbMachine
  import opened VusbRuns
  import opened VusbReach
  import opened VusbTheorems
  import opened VusbWork
  import opened VusbTeardown
  import opened VusbGrants
  import opened VusbLeaks

  function DataPages(urb: Urb): nat {
    if urb.length > 0 then SpanPages(urb.addr, urb.length) else 0
  }

  // A URB that is sent even when no memory is free, given so many grant references.
  predicate SendsWith(env: Env, urb: Urb, refs: nat) {
    && !urb.pipe.Isochronous? && !urb.pipe.Unknown? && !(urb.pipe.Control? && urb.setAddress)
    && DataPages(urb) <= env.maxSegments && DataPages(urb) <= refs
  }

  lemma AttachesWith(env: Env, g: Grants, urb: Urb)
    requires !urb.pipe.Isochronous?
    ensures DataPages(urb) <= env.maxSegments && DataPages(urb) <= |g.pool| ==> Attach(env, g, urb).result.SendOk?
    ensures !env.memory && Attach(env, g, urb).result.SendOk? ==>
              DataPages(urb) <= env.maxSegments && DataPages(urb) <= |g.pool|
  {
    hide SpanPages;
  }

  // ---- one send -----------------------------------------------------------------------------

  // Nothing went on the ring, and as many references are free as before.
  ghost predicate Unsent(v: Vdev, w: Vdev) {
    w.ring == v.ring && |w.slots.grants.pool| == |v.slots.grants.pool| && w.env == v.env
    && |w.slots.shadows| == |v.slots.shadows|
  }

  lemma SubmitUnsent(v: Vdev, t: Vdev, h: Ticket, i: nat, a: Attached)
    requires h in v.urbps && t == v.(slots := t.slots) && t.slots.grants == v.slots.grants && i < |t.slots.shadows|
    requires |t.slots.shadows| == |v.slots.shadows| && t.slots.shadows[i].inUse && !t.slots.shadows[i].directData
    requires Conserves(v.slots.grants, a) && !a.result.SendOk?
    ensures Unsent(v, Submit(t, h, i, a))
  {
    EndAfterAttach(v.slots.grants, a);
    var w := Submit(t, h, i, a);
    assert w.slots.grants == EndGrants(a.grants, a.refs);
    assert |w.slots.grants.pool| == |multiset(w.slots.grants.pool)| == |multiset(v.slots.grants.pool)|;
  }

  // A send with a slot to take does what attaching the data says.
  lemma PutUrbSends(v: Vdev, h: Ticket)
    requires SlotInv(v) && h in v.urbps
    ensures var (w, r) := PutUrb(v, h);
            && (r.SendAgain? <==> |v.slots.free| <= 1)
            && (r.SendOk? <==> |v.slots.free| > 1 && Attach(v.env, v.slots.grants, v.urbps[h].urb).result.SendOk?)
            && (r.SendOk? ==> w.ring.reqs != [])
            && (!r.SendOk? ==> Unsent(v, w))
  {
    if |v.slots.free| > 1 {
      var i := TopIsFree(v);
      var t := v.(slots := GetShadow(v.slots).0);
      var a := Attach(v.env, v.slots.grants, v.urbps[h].urb);
      AttachConserves(v.env, v.slots.grants, v.urbps[h].urb);
      hide Attach;
      if !a.result.SendOk? {
        SubmitUnsent(v, t, h, i, a);
      }
    }
  }

  // A new urbp of h is sent.
  predicate Sends(v: Vdev, h: Ticket) {
    && h in v.urbps && v.urbps[h].state.New? && |v.slots.free| > 1
    && !v.urbps[h].urb.pipe.Unknown? && !(v.urbps[h].urb.pipe.Control? && v.urbps[h].urb.setAddress)
    && Attach(v.env, v.slots.grants, v.urbps[h].urb).result.SendOk?
  }

  lemma SendUrbSends(v: Vdev, h: Ticket)
    requires SlotInv(v) && h in v.urbps
    ensures Sends(v, h) ==> SendUrb(v, h).ring.reqs != []
    ensures !Sends(v, h) ==> Unsent(v, SendUrb(v, h))
  {
    DispatchSends(v, h);
    hide Dispatch, Attach, Without, Sends;
  }

  lemma DispatchSends(v: Vdev, h: Ticket)
    requires SlotInv(v) && h in v.urbps
    ensures Sends(v, h) ==> Dispatch(v, h).ring.reqs != []
    ensures !Sends(v, h) ==> Unsent(v, Dispatch(v, h))
  {
    PutUrbSends(v, h);
    hide SlotInv, Attach;
    DispatchIs(v, h);
    hide PutUrb, Dispatch, Sends;
  }

  // Everything but a send leaves the ring and the slots alone.
  lemma DispatchIs(v: Vdev, h: Ticket)
    requires h in v.urbps
    ensures var d := Dispatch(v, h); var w := PutUrb(v, h).0;
            var u := v.urbps[h];
            if u.state.New? && !u.urb.pipe.Unknown? && !(u.urb.pipe.Control? && u.urb.setAddress) then
              d.ring == w.ring && d.slots == w.slots && d.env == w.env
            else d.ring == v.ring && d.slots == v.slots && d.env == v.env
  {
    hide PutUrb;
  }

  // ---- finishing frees every slot and reference -----------------------------------------------

  function RefCount(g: Grants): nat {
    |g.pool| + |g.active|
  }

  lemma EndCounts(g: Grants, refs: seq<Gref>)
    requires multiset(refs) <= g.active
    ensures RefCount(EndGrants(g, refs)) == RefCount(g)
  {
    EndConserves(g, refs);
    var e := EndGrants(g, refs);
    assert |e.active| + |refs| == |e.active + multiset(refs)| == |g.active|;
  }

  lemma PutShadowCounts(s: Slots, i: nat)
    requires GrantInv(s) && i < |s.shadows|
    ensures RefCount(PutShadow(s, i).grants) == RefCount(s.grants) && |PutShadow(s, i).shadows| == |s.shadows|
  {
    GrantsWithin(s.shadows, i);
    var x := s.shadows[i];
    if x.inUse {
      EndCounts(s.grants, if x.directData then [] else x.grefs);
    }
  }

  // What finishing urbps keeps.
  ghost predicate FinishFrees(v: Vdev, w: Vdev) {
    && RefCount(w.slots.grants) == RefCount(v.slots.grants) && |w.slots.shadows| == |v.slots.shadows|
    && (forall h :: h in v.urbps ==> h in w.urbps && w.urbps[h].urb == v.urbps[h].urb)
  }

  lemma {:induction false} FinishEachFrees(v: Vdev)
    requires Inv(v)
    ensures FinishFrees(v, FinishEach(v, v.lists.finish))
    decreases |v.lists.finish|
  {
    if v.lists.finish != [] {
      FinishHead(v);
      var w := FinishUrb(v, v.lists.finish[0]);
      FinishUrbFrees(v, v.lists.finish[0]);
      hide Inv, FinishUrb, FinishFrees;
      FinishEachFrees(w);
      FreesTransitive(v, w, FinishEach(w, w.lists.finish));
    }
  }

  lemma FreesTransitive(u: Vdev, v: Vdev, w: Vdev)
    requires FinishFrees(u, v) && FinishFrees(v, w)
    ensures FinishFrees(u, w)
  {
    hide RefCount;
  }

  lemma FinishUrbFrees(v: Vdev, h: Ticket)
    requires GrantInv(v.slots) && h in v.urbps && v.urbps[h].rspId < |v.slots.shadows|
    ensures FinishFrees(v, FinishUrb(v, h))
  {
    PutShadowCounts(v.slots, v.urbps[h].rspId);
    hide RefCount, PutShadow, Without, GrantInv;
  }

  // With the ring and the finish list empty every slot is free, and every reference too.
  lemma AllFree(v: Vdev)
    requires Inv(v) && RingEmpty(v.ring) && v.lists.finish == []
    ensures |v.slots.free| == |v.slots.shadows| && v.slots.grants.active == multiset{}
  {
    SlotConservation(v);
    NoneInUse(v);
  }

  // ---- a section that has to send ---------------------------------------------------------------

  // Pending urbp h is sent with so many references, if there are two slots.
  predicate SendsAlone(v: Vdev, h: Ticket, refs: nat) {
    && h in v.lists.pending && h in v.urbps && v.urbps[h].state.New? && SendsWith(v.env, v.urbps[h].urb, refs)
    && |v.slots.shadows| >= 2
  }

  lemma {:induction false} SendEachSends(v: Vdev, hs: seq<Ticket>, h: Ticket)
    requires Inv(v) && Remaining(v, hs) && h in hs && v.lists.finish == [] && RingEmpty(v.ring)
    requires SendsAlone(v, h, |v.slots.grants.pool|)
    ensures SendEach(v, hs).ring.reqs != []
    decreases |hs|
  {
    SendHead(v, hs);
    SendUrbSends(v, hs[0]);
    SendUrbAdds(v, hs[0]);
    var w := SendUrb(v, hs[0]);
    if Sends(v, hs[0]) {
      SendEachAdds(w, hs[1..]);
    } else {
      if hs[0] == h {
        AllFree(v);
        AttachesWith(v.env, v.slots.grants, v.urbps[h].urb);
      } else {
        StillAlone(v, hs, h);
        hide Inv, Remaining, SendUrb, SendsAlone, Sends;
        SendEachSends(w, hs[1..], h);
      }
    }
  }

  lemma StillAlone(v: Vdev, hs: seq<Ticket>, h: Ticket)
    requires Inv(v) && Remaining(v, hs) && hs != [] && h in hs && h != hs[0] && hs[0] in v.urbps
    requires SendsAlone(v, h, |v.slots.grants.pool|) && Unsent(v, SendUrb(v, hs[0]))
    ensures h in hs[1..] && SendsAlone(SendUrb(v, hs[0]), h, |SendUrb(v, hs[0]).slots.grants.pool|)
  {
    assert hs == [hs[0]] + hs[1..];
    assert hs[0] in hs;
    SendUrbKeeps(v, hs[0]);
    OtherAlone(v, SendUrb(v, hs[0]), hs[0], h);
  }

  lemma OtherAlone(v: Vdev, w: Vdev, k: Ticket, h: Ticket)
    requires SendsAlone(v, h, |v.slots.grants.pool|) && Unsent(v, w) && h != k && OnlyUrbp(v.urbps, w.urbps, k)
    requires w.lists == v.lists || w.lists.pending == Without(v.lists.pending, k)
    ensures SendsAlone(w, h, |w.slots.grants.pool|)
  {
    OtherStays(v.lists.pending, k, h);
  }

  lemma OtherStays(s: seq<Ticket>, k: Ticket, h: Ticket)
    requires h != k
    ensures h in Without(s, k) <==> h in s
  {
    WithoutCounts(s, k);
    assert h in s <==> h in multiset(s);
    assert h in Without(s, k) <==> h in multiset(Without(s, k));
  }

  // A pending urbp that the references in use would pay for is sent by any section.
  lemma ProcessSends(v: Vdev, arrival: Option<Ticket>, h: Ticket)
    requires Inv(v) && Settled(v) && MayArrive(v, arrival) && RingEmpty(v.ring)
    requires SendsAlone(v, h, |v.slots.grants.active|)
    ensures ProcessSection(v, arrival).0.ring.reqs != []
  {
    FinishThenAppend(v, arrival);
    FinishEachKeeps(v);
    FinishEachFrees(v);
    var f := FinishEach(v, v.lists.finish);
    var v1 := Append(f, arrival);
    hide FinishEach, Inv, Remaining, Settled, MayArrive;
    AllFree(f);
    assert StateOf(f, h) == StateOf(v, h);
    assert SendsAlone(v1, h, |v1.slots.grants.pool|) && h in v1.lists.pending;
    SendEachSends(v1, v1.lists.pending, h);
  }

  // ---- a section that need not send ---------------------------------------------------------------

  // Without memory, and with no more references than are in use, no pending urbp is sent.
  ghost predicate Silent(v: Vdev) {
    forall h :: !SendsAlone(v, h, |v.slots.grants.active|)
  }

  // The same for a section that has finished what there was to finish.
  ghost predicate SilentNow(v: Vdev) {
    forall h :: !SendsAlone(v, h, |v.slots.grants.pool|)
  }

  lemma SilentDoesNotSend(v: Vdev, h: Ticket)
    requires SilentNow(v) && !v.env.memory && h in v.lists.pending && h in v.urbps && Inv(v)
    ensures !Sends(v, h)
  {
    SlotConservation(v);
    if Sends(v, h) {
      if v.urbps[h].urb.pipe.Isochronous? {
        assert false;
      } else {
        AttachesWith(v.env, v.slots.grants, v.urbps[h].urb);
        assert SendsAlone(v, h, |v.slots.grants.pool|);
      }
    }
  }

  // w has no new urbp that v has not.
  ghost predicate NoNewer(v: Vdev, w: Vdev) {
    forall h :: h in w.lists.pending && h in w.urbps && w.urbps[h].state.New? ==>
      h in v.lists.pending && h in v.urbps && v.urbps[h].state.New? && w.urbps[h].urb == v.urbps[h].urb
  }

  lemma NoNewerTransitive(u: Vdev, v: Vdev, w: Vdev)
    requires NoNewer(u, v) && NoNewer(v, w)
    ensures NoNewer(u, w)
  {
  }

  lemma SendHeadNoNewer(v: Vdev, hs: seq<Ticket>)
    requires Inv(v) && hs != [] && Remaining(v, hs)
    ensures hs[0] in v.urbps && NoNewer(v, SendUrb(v, hs[0]))
  {
    var h := hs[0];
    assert h in hs && PendingLinked(v, h);
    SendUrbKeeps(v, h);
    SendUrbNotNew(v, h);
    hide Inv, SendUrb, Without;
    OneNoNewer(v, SendUrb(v, h), h);
  }

  lemma OneNoNewer(v: Vdev, w: Vdev, h: Ticket)
    requires h in v.lists.pending && OnlyUrbp(v.urbps, w.urbps, h)
    requires w.lists == v.lists || w.lists.pending == Without(v.lists.pending, h)
    requires w.urbps[h].state.New? ==> v.urbps[h].state.New?
    ensures NoNewer(v, w)
  {
    hide Without;
    forall k | k in w.lists.pending && k != h ensures k in v.lists.pending {
      OtherStays(v.lists.pending, h, k);
    }
  }

  lemma SendUrbNotNew(v: Vdev, h: Ticket)
    requires Inv(v) && h in v.lists.pending && h in v.urbps
    ensures StateOf(SendUrb(v, h), h).New? ==> v.urbps[h].state.New?
  {
    hide PutUrb, Attach, Without;
  }

  lemma {:induction false} SendEachSilent(v: Vdev, hs: seq<Ticket>)
    requires Inv(v) && Remaining(v, hs) && !v.env.memory && SilentNow(v)
    ensures Unsent(v, SendEach(v, hs)) && NoNewer(v, SendEach(v, hs))
    decreases |hs|
  {
    if hs != [] {
      SendHead(v, hs);
      SendHeadNoNewer(v, hs);
      assert hs[0] in v.lists.pending && !Sends(v, hs[0]) by {
        assert hs[0] in hs;
        SilentDoesNotSend(v, hs[0]);
      }
      SendUrbSends(v, hs[0]);
      var w := SendUrb(v, hs[0]);
      StillSilent(v, w);
      hide Inv, Remaining, SendUrb, Sends, SilentNow, NoNewer;
      SendEachSilent(w, hs[1..]);
      NoNewerTransitive(v, w, SendEach(w, hs[1..]));
    }
  }

  lemma StillSilent(v: Vdev, w: Vdev)
    requires SilentNow(v) && Unsent(v, w) && NoNewer(v, w)
    ensures SilentNow(w)
  {
    forall h ensures !SendsAlone(w, h, |w.slots.grants.pool|) {
      assert !SendsAlone(v, h, |v.slots.grants.pool|);
    }
  }

  lemma ProcessSilent(v: Vdev)
    requires Inv(v) && Settled(v) && RingEmpty(v.ring) && !v.env.memory && v.slots.grants.pool == [] && Silent(v)
    ensures var w := ProcessSection(v, None).0;
            RingEmpty(w.ring) && Silent(w) && w.env == v.env && |w.slots.shadows| == |v.slots.shadows|
  {
    FinishThenAppend(v, None);
    FinishEachKeeps(v);
    FinishEachFrees(v);
    var f := FinishEach(v, v.lists.finish);
    hide FinishEach, Inv, Settled, Remaining, Silent, SendEach;
    assert f.slots.grants.active == multiset{} by { AllFree(f); }
    FinishedSilent(v, f);
    SentSilent(f);
    var w := SendEach(f, f.lists.pending);
    ReleasedSilent(w, w.(lists := w.lists.(release := [])));
  }

  lemma SentSilent(f: Vdev)
    requires Inv(f) && Remaining(f, f.lists.pending) && f.lists.finish == [] && RingEmpty(f.ring)
    requires !f.env.memory && SilentNow(f)
    ensures var w := SendEach(f, f.lists.pending); Unsent(f, w) && Silent(w)
  {
    SendEachSilent(f, f.lists.pending);
    SendEachKeeps(f, f.lists.pending);
    var w := SendEach(f, f.lists.pending);
    hide Inv, Remaining, SendEach;
    AllFree(w);
    StillSilent(f, w);
    forall h ensures !SendsAlone(w, h, |w.slots.grants.active|) {
      assert !SendsAlone(w, h, |w.slots.grants.pool|);
    }
  }

  lemma ReleasedSilent(v: Vdev, w: Vdev)
    requires Silent(v) && w == v.(lists := w.lists) && w.lists.pending == v.lists.pending
    ensures Silent(w)
  {
    forall h ensures !SendsAlone(w, h, |w.slots.grants.active|) {
      assert !SendsAlone(v, h, |v.slots.grants.active|);
    }
  }

  lemma FinishedSilent(v: Vdev, f: Vdev)
    requires Silent(v) && FinishFrees(v, f) && v.slots.grants.pool == [] && f.slots.grants.active == multiset{}
    requires f.lists.pending == v.lists.pending && f.env == v.env && f.urbps.Keys == v.urbps.Keys
    requires forall k: Ticket :: k in v.lists.pending ==> StateOf(f, k) == StateOf(v, k)
    ensures SilentNow(f)
  {
    forall h ensures !SendsAlone(f, h, |f.slots.grants.pool|) {
      assert !SendsAlone(v, h, |v.slots.grants.active|);
      assert h in f.lists.pending ==> StateOf(f, h) == StateOf(v, h);
    }
  }
}
