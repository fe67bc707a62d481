/** Each routine of the device keeps the invariant. */
module VusbKeeps {
  import opened VusbDevice
  import opened VusbSlots
  import opened VusbInvariants

  // ---- slots ------------------------------------------------------------------

  lemma LaunchedSlots(v: Vdev, w: Vdev, i: nat, x: Shadow)
    requires SlotInv(v) && Launched(v, w, i, x)
    requires FinishIds(w.urbps, w.lists.finish) == FinishIds(v.urbps, v.lists.finish)
    ensures SlotInv(w)
    ensures forall k: nat :: InFlight(w.ring, k) == InFlight(v.ring, k) + if k == i then 1 else 0
    ensures InFlight(v.ring, i) == 0 && !v.slots.shadows[i].inUse
  {
    var top := TopIsFree(v);
    forall k: nat ensures InFlight(w.ring, k) == InFlight(v.ring, k) + if k == i then 1 else 0 {
      assert multiset(w.ring.reqs) == multiset(v.ring.reqs) + multiset{i};
    }
    forall k: nat ensures PlaceCount(w, k) == if k < |w.slots.shadows| then 1 else 0 {
      assert PlaceCount(v, k) == if k < |v.slots.shadows| then 1 else 0;
    }
    forall k | 0 <= k < |w.slots.shadows| ensures w.slots.shadows[k].inUse <==> k !in w.slots.free {
      assert v.slots.shadows[k].inUse <==> k !in v.slots.free;
      assert k in multiset(v.slots.free) <==> k in v.slots.free;
    }
  }

  lemma AbandonedSlots(v: Vdev, w: Vdev, i: nat, x: Shadow)
    requires SlotInv(v) && Abandoned(v, w, i, x)
    requires FinishIds(w.urbps, w.lists.finish) == FinishIds(v.urbps, v.lists.finish)
    ensures SlotInv(w) && InFlight(v.ring, i) == 0 && !v.slots.shadows[i].inUse
  {
    var top := TopIsFree(v);
    forall k: nat ensures PlaceCount(w, k) == if k < |w.slots.shadows| then 1 else 0 {
      assert PlaceCount(v, k) == if k < |v.slots.shadows| then 1 else 0;
    }
  }

  // ---- sending ----------------------------------------------------------------

  // Only urbp h differs, and neither its URB nor its response id does.
  ghost predicate OnlyUrbp(u: map<Ticket, Urbp>, w: map<Ticket, Urbp>, h: Ticket) {
    && h in u && h in w
    && w == u[h := w[h]]
    && w[h].urb == u[h].urb && w[h].rspId == u[h].rspId && w[h].iso == u[h].iso
  }

  lemma NotOnTwoLists(v: Vdev, h: Ticket)
    requires LinkInv(v)
    ensures h in v.lists.pending ==> h !in v.lists.finish && h !in v.lists.release
    ensures h in v.lists.finish ==> h !in v.lists.pending && h !in v.lists.release
  {
    assert ListCount(v.lists, h) <= 1;
    assert h in v.lists.pending <==> h in multiset(v.lists.pending);
    assert h in v.lists.finish <==> h in multiset(v.lists.finish);
    assert h in v.lists.release <==> h in multiset(v.lists.release);
  }

  lemma LaunchedLinks(v: Vdev, w: Vdev, h: Ticket, i: nat, x: Shadow)
    requires SlotInv(v) && LinkInv(v) && SlotInv(w) && Launched(v, w, i, x)
    requires h in v.lists.pending && OnlyUrbp(v.urbps, w.urbps, h)
    requires v.urbps[h].state.New? && w.urbps[h].state.Sent? && w.urbps[h].id == Some(i)
    requires x.kind.UrbRequest? && x.urbp == Some(h) && (v.urbps[h].urb.pipe.Isochronous? ==> x.iso)
    requires forall k: nat :: InFlight(w.ring, k) == InFlight(v.ring, k) + if k == i then 1 else 0
    requires InFlight(v.ring, i) == 0 && !v.slots.shadows[i].inUse
    ensures LinkInv(w)
  {
    NotOnTwoLists(v, h);
    forall k | k in w.lists.pending ensures PendingLinked(w, k) {
      assert PendingLinked(v, k);
    }
    forall k | 0 <= k < |w.slots.shadows| ensures SlotLinked(w, k) {
      assert SlotLinked(v, k);
    }
    forall k | k in w.lists.finish ensures FinishLinked(w, k) {
      assert FinishLinked(v, k);
    }
    forall k: Ticket ensures ListCount(w.lists, k) <= 1 {
      assert ListCount(v.lists, k) <= 1;
    }
  }

  lemma AbandonedLinks(v: Vdev, w: Vdev, h: Ticket, i: nat, x: Shadow)
    requires SlotInv(v) && LinkInv(v) && Abandoned(v, w, i, x)
    requires h in v.lists.pending && OnlyUrbp(v.urbps, w.urbps, h)
    requires v.urbps[h].state.New? && !Outstanding(w.urbps[h])
    requires InFlight(v.ring, i) == 0 && !v.slots.shadows[i].inUse
    ensures LinkInv(w)
  {
    NotOnTwoLists(v, h);
    forall k | k in w.lists.pending ensures PendingLinked(w, k) {
      assert PendingLinked(v, k);
    }
    forall k | 0 <= k < |w.slots.shadows| ensures SlotLinked(w, k) {
      assert SlotLinked(v, k);
    }
    forall k | k in w.lists.finish ensures FinishLinked(w, k) {
      assert FinishLinked(v, k);
    }
    forall k: Ticket ensures ListCount(w.lists, k) <= 1 {
      assert ListCount(v.lists, k) <= 1;
    }
  }

  lemma SentKeeps(v: Vdev, w: Vdev, h: Ticket, i: nat, x: Shadow)
    requires Inv(v) && h in v.lists.pending && OnlyUrbp(v.urbps, w.urbps, h)
    requires v.urbps[h].state.New? && w.urbps[h].state.Sent? && w.urbps[h].id == Some(i)
    requires GrantInv(w.slots) && Launched(v, w, i, x)
    requires x.kind.UrbRequest? && x.urbp == Some(h) && (v.urbps[h].urb.pipe.Isochronous? ==> x.iso)
    ensures Inv(w)
  {
    FinishIdsFrame(v.urbps, w.urbps, v.lists.finish);
    LaunchedSlots(v, w, i, x);
    LaunchedLinks(v, w, h, i, x);
  }

  lemma UnsentKeeps(v: Vdev, w: Vdev, h: Ticket, i: nat, x: Shadow)
    requires Inv(v) && h in v.lists.pending && OnlyUrbp(v.urbps, w.urbps, h)
    requires v.urbps[h].state.New? && !Outstanding(w.urbps[h])
    requires GrantInv(w.slots) && Abandoned(v, w, i, x)
    ensures Inv(w)
  {
    FinishIdsFrame(v.urbps, w.urbps, v.lists.finish);
    AbandonedSlots(v, w, i, x);
    AbandonedLinks(v, w, h, i, x);
  }

  ghost predicate SendKept(v: Vdev, w: Vdev, h: Ticket) {
    && Inv(w) && w.lists == v.lists && OnlyUrbp(v.urbps, w.urbps, h)
    && w.urbps[h].state in {New, Sent, Drop}
  }

  lemma OutcomeSent(v: Vdev, h: Ticket, w0: Vdev, w: Vdev, i: nat, x: Shadow)
    requires Inv(v) && h in v.lists.pending && h in v.urbps && v.urbps[h].state.New?
    requires PutOutcome(v, h, w0, SendOk, i, x) && w == SetState(w0, h, Sent)
    ensures SendKept(v, w, h)
  {
    SentKeeps(v, w, h, i, x);
  }

  lemma OutcomeUnsent(v: Vdev, h: Ticket, w0: Vdev, r: SendResult, w: Vdev, i: nat, x: Shadow)
    requires Inv(v) && h in v.lists.pending && h in v.urbps && v.urbps[h].state.New?
    requires PutOutcome(v, h, w0, r, i, x)
    requires (r.SendBusy? && w == w0) || (r.SendFailed? && w == SetState(w0, h, Drop))
    ensures SendKept(v, w, h)
  {
    hide Inv, Abandoned, GrantInv;
    assert !Outstanding(w.urbps[h]) && OnlyUrbp(v.urbps, w.urbps, h);
    SameDevice(v, w0, w, i, x);
    UnsentKeeps(v, w, h, i, x);
  }

  // Being abandoned says nothing about the urbps.
  lemma SameDevice(v: Vdev, w0: Vdev, w: Vdev, i: nat, x: Shadow)
    requires GrantInv(w0.slots) && Abandoned(v, w0, i, x) && w == w0.(urbps := w.urbps)
    ensures GrantInv(w.slots) && Abandoned(v, w, i, x) && w.lists == v.lists
  {
    hide GrantInv;
  }

  lemma OutcomeKeeps(v: Vdev, h: Ticket, w0: Vdev, r: SendResult, i: nat, x: Shadow)
    requires Inv(v) && h in v.lists.pending && h in v.urbps && v.urbps[h].state.New?
    requires PutOutcome(v, h, w0, r, i, x)
    ensures SendKept(v, RecordResult(w0, h, r), h)
  {
    var w := RecordResult(w0, h, r);
    match r
    case SendAgain => OutcomeAgain(v, w, h);
    case SendOk => OutcomeSent(v, h, w0, w, i, x);
    case SendBusy =>
      OutcomeUnsent(v, h, w0, r, w0, i, x);
      KeptFlags(v, w0, w, h);
    case SendFailed => OutcomeUnsent(v, h, w0, r, w, i, x);
  }

  lemma OutcomeAgain(v: Vdev, w: Vdev, h: Ticket)
    requires Inv(v) && h in v.urbps && v.urbps[h].state.New? && w == v.(flags := v.flags.(workQueued := true))
    ensures SendKept(v, w, h)
  {
    FlagsKeep(v, w);
  }

  lemma KeptFlags(v: Vdev, w0: Vdev, w: Vdev, h: Ticket)
    requires h in v.urbps && SendKept(v, w0, h) && w == w0.(flags := w0.flags.(armed := true))
    ensures SendKept(v, w, h)
  {
    FlagsKeep(w0, w);
    hide Inv;
  }

  lemma SendKeeps(v: Vdev, h: Ticket)
    requires Inv(v) && h in v.lists.pending && h in v.urbps && v.urbps[h].state.New?
    ensures SendKept(v, Send(v, h), h)
  {
    var i, x := PutUrbEffect(v, h);
    OutcomeKeeps(v, h, PutUrb(v, h).0, PutUrb(v, h).1, i, x);
  }

  lemma FlagsKeep(v: Vdev, w: Vdev)
    requires Inv(v)
    requires w == v.(flags := w.flags, env := w.env) && !w.flags.bug
    ensures Inv(w)
  {
    forall k: nat ensures PlaceCount(w, k) == if k < |w.slots.shadows| then 1 else 0 {
      assert PlaceCount(v, k) == if k < |v.slots.shadows| then 1 else 0;
    }
    forall k | k in w.lists.pending ensures PendingLinked(w, k) {
      assert PendingLinked(v, k);
    }
    forall k | 0 <= k < |w.slots.shadows| ensures SlotLinked(w, k) {
      assert SlotLinked(v, k);
    }
    forall k | k in w.lists.finish ensures FinishLinked(w, k) {
      assert FinishLinked(v, k);
    }
    forall k: Ticket ensures ListCount(w.lists, k) <= 1 {
      assert ListCount(v.lists, k) <= 1;
    }
  }

  // A change of state that keeps an urbp outstanding, or keeps it not so.
  lemma StateKeeps(v: Vdev, w: Vdev, h: Ticket, state: UrbpState)
    requires Inv(v) && h in v.urbps && w == SetState(v, h, state)
    requires Outstanding(v.urbps[h]) <==> Outstanding(w.urbps[h])
    ensures Inv(w)
  {
    hide GrantInv, InFlight;
    FinishIdsFrame(v.urbps, w.urbps, v.lists.finish);
    forall k: nat ensures PlaceCount(w, k) == if k < |w.slots.shadows| then 1 else 0 {
      assert PlaceCount(v, k) == if k < |v.slots.shadows| then 1 else 0;
    }
    forall k | k in w.lists.pending ensures PendingLinked(w, k) {
      assert PendingLinked(v, k);
    }
    forall k | 0 <= k < |w.slots.shadows| ensures SlotLinked(w, k) {
      assert SlotLinked(v, k);
    }
    forall k | k in w.lists.finish ensures FinishLinked(w, k) {
      assert FinishLinked(v, k);
    }
    forall k: Ticket ensures ListCount(w.lists, k) <= 1 {
      assert ListCount(v.lists, k) <= 1;
    }
  }

  lemma QueueReleaseKeeps(v: Vdev, w: Vdev, h: Ticket)
    requires Inv(v) && h in v.lists.pending && h in v.urbps && !Outstanding(v.urbps[h])
    requires w == QueueRelease(v, h)
    ensures Inv(w)
    ensures w.lists == Lists(Without(v.lists.pending, h), v.lists.finish, v.lists.release + [h])
  {
    hide SlotInv, LinkInv, GrantInv, Outstanding, Without;
    NotOnTwoLists(v, h);
    WithoutAbsent(v.lists.finish, h);
    ReleasedSlots(v, w);
    ReleasedLinks(v, w, h);
  }

  lemma ReleasedSlots(v: Vdev, w: Vdev)
    requires SlotInv(v) && w == v.(lists := w.lists, flags := w.flags) && w.lists.finish == v.lists.finish
    ensures SlotInv(w)
  {
    hide InFlight, FinishIds;
    forall k: nat ensures PlaceCount(w, k) == if k < |w.slots.shadows| then 1 else 0 {
      assert PlaceCount(v, k) == if k < |v.slots.shadows| then 1 else 0;
    }
  }

  lemma ReleasedLinks(v: Vdev, w: Vdev, h: Ticket)
    requires LinkInv(v) && h in v.lists.pending && h in v.urbps && !Outstanding(v.urbps[h])
    requires w == v.(lists := w.lists, flags := w.flags)
    requires w.lists == Lists(Without(v.lists.pending, h), v.lists.finish, v.lists.release + [h])
    ensures LinkInv(w)
  {
    hide Without;
    WithoutCounts(v.lists.pending, h);
    forall k: Ticket ensures k in w.lists.pending <==> k in v.lists.pending && k != h {
      assert ListCount(v.lists, h) <= 1;
      assert k in w.lists.pending <==> k in multiset(w.lists.pending);
      assert k in v.lists.pending <==> k in multiset(v.lists.pending);
    }
    forall k | k in w.lists.pending ensures PendingLinked(w, k) {
      assert PendingLinked(v, k);
    }
    forall k | 0 <= k < |w.slots.shadows| ensures SlotLinked(w, k) {
      assert SlotLinked(v, k);
    }
    forall k | k in w.lists.finish ensures FinishLinked(w, k) {
      assert FinishLinked(v, k);
    }
    forall k: Ticket ensures ListCount(w.lists, k) <= 1 {
      assert ListCount(v.lists, k) <= 1;
    }
  }

  /** Sending keeps the invariant, and the pending list loses h exactly when h is released. */
  lemma SendUrbKeeps(v: Vdev, h: Ticket)
    requires Inv(v) && h in v.lists.pending && h in v.urbps
    ensures var w := SendUrb(v, h);
            && Inv(w) && w.urbps.Keys == v.urbps.Keys && OnlyUrbp(v.urbps, w.urbps, h)
            && w.lists.finish == v.lists.finish
            && (|| (w.lists == v.lists && w.urbps[h].state in {New, Sent, Cancel})
                || (w.lists == Lists(Without(v.lists.pending, h), v.lists.finish, v.lists.release + [h])
                    && w.urbps[h].state in {Done, Drop}))
  {
    hide Inv, Dispatch, Without;
    var d := Dispatch(v, h);
    DispatchKeeps(v, d, h);
    if d.urbps[h].state.Done? || d.urbps[h].state.Drop? {
      QueueReleaseKeeps(d, QueueRelease(d, h), h);
    }
  }

  lemma DispatchKeeps(v: Vdev, d: Vdev, h: Ticket)
    requires Inv(v) && h in v.lists.pending && h in v.urbps && d == Dispatch(v, h)
    ensures Inv(d) && d.lists == v.lists && OnlyUrbp(v.urbps, d.urbps, h)
  {
    var urb := v.urbps[h].urb;
    if v.urbps[h].state.New? {
      if urb.pipe.Unknown? {
        StateKeeps(v, d, h, Drop);
      } else if urb.pipe.Control? && urb.setAddress {
        StateKeeps(v, d, h, Done);
      } else {
        SendKeeps(v, h);
      }
    } else {
      assert d == v;
    }
  }
}
