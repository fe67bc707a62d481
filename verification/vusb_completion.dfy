/** Completing, cancelling and answering requests keeps the invariant. */
module VusbCompletion {
  import opened VusbDevice
  import opened VusbSlots
  import opened VusbInvariants
  import opened VusbKeeps

  lemma GrantsRemoved(shadows: seq<Shadow>, i: nat, x: Shadow)
    requires i < |shadows| && GrantsOf(x) == multiset{}
    ensures AllGrants(shadows[i := x]) == AllGrants(shadows) - GrantsOf(shadows[i])
    ensures GrantsOf(shadows[i]) <= AllGrants(shadows)
  {
    AllGrantsUpdate(shadows, i, x);
    GrantsWithin(shadows, i);
    var p, q, d := AllGrants(shadows[i := x]), AllGrants(shadows), GrantsOf(shadows[i]);
    assert p == (p + d) - d;
  }

  lemma EndedGrants(s: Slots, t: Slots, i: nat, ended: seq<Gref>)
    requires GrantInv(s) && i < |s.shadows| && multiset(ended) == GrantsOf(s.shadows[i])
    requires |t.shadows| == |s.shadows| && t.shadows == s.shadows[i := t.shadows[i]] && !t.shadows[i].inUse
    requires t.grants == EndGrants(s.grants, ended)
    ensures GrantInv(t)
  {
    GrantsRemoved(s.shadows, i, t.shadows[i]);
    EndConserves(s.grants, ended);
    assert multiset(t.grants.pool) + t.grants.active == multiset(s.grants.pool) + s.grants.active;
  }

  lemma GrantPut(s: Slots, i: nat)
    requires GrantInv(s) && i < |s.shadows|
    ensures GrantInv(PutShadow(s, i))
  {
    var x := s.shadows[i];
    if x.inUse {
      EndedGrants(s, PutShadow(s, i), i, if x.directData then [] else x.grefs);
    }
  }

  /** A slot in use that is given back goes on top of the free stack. */
  lemma PutShadowPushes(v: Vdev, i: nat)
    requires SlotInv(v) && i < |v.slots.shadows| && v.slots.shadows[i].inUse
    ensures PutShadow(v.slots, i).free == v.slots.free + [i]
    ensures PutShadow(v.slots, i).shadows ==
              v.slots.shadows[i := v.slots.shadows[i].(inUse := false, urbp := None, iso := false)]
  {
    SlotConservation(v);
    assert PlaceCount(v, i) == 1;
    if |v.slots.free| >= |v.slots.shadows| {
      assert false;
    }
  }

  // Slot i moves from where w no longer counts it to the top of the free stack.
  lemma ReturnedSlots(v: Vdev, w: Vdev, i: nat)
    requires SlotInv(v) && i < |v.slots.shadows| && v.slots.shadows[i].inUse
    requires w.slots.free == v.slots.free + [i] && |w.slots.shadows| == |v.slots.shadows|
    requires w.slots.shadows == v.slots.shadows[i := w.slots.shadows[i]]
    requires !w.slots.shadows[i].inUse && w.slots.shadows[i].id == i
    requires forall k: nat :: InFlight(w.ring, k) + FinishIds(w.urbps, w.lists.finish)[k] + (if k == i then 1 else 0)
                              == InFlight(v.ring, k) + FinishIds(v.urbps, v.lists.finish)[k]
    ensures SlotInv(w)
  {
    forall k: nat ensures PlaceCount(w, k) == if k < |w.slots.shadows| then 1 else 0 {
      assert PlaceCount(v, k) == if k < |v.slots.shadows| then 1 else 0;
      assert multiset(w.slots.free) == multiset(v.slots.free) + multiset{i};
    }
  }

  // ---- finishing an urbp --------------------------------------------------------

  ghost predicate Finished(v: Vdev, w: Vdev, h: Ticket, i: nat) {
    && h in v.lists.finish && h in v.urbps && i == v.urbps[h].rspId && i < |v.slots.shadows|
    && |w.slots.shadows| == |v.slots.shadows|
    && w.slots.shadows == v.slots.shadows[i := w.slots.shadows[i]]
    && !w.slots.shadows[i].inUse && w.slots.shadows[i].id == i
    && w.slots.free == v.slots.free + [i]
    && w.ring == v.ring && w.env == v.env
    && w.lists == Lists(v.lists.pending, Without(v.lists.finish, h), v.lists.release + [h])
    && w.urbps == v.urbps[h := v.urbps[h].(state := Done)]
    && w.flags.bug == v.flags.bug
  }

  lemma FinishEffect(v: Vdev, h: Ticket)
    requires Inv(v) && h in v.lists.finish && h in v.urbps
    ensures v.urbps[h].rspId < |v.slots.shadows|
    ensures Finished(v, FinishUrb(v, h), h, v.urbps[h].rspId)
    ensures GrantInv(FinishUrb(v, h).slots)
  {
    assert FinishLinked(v, h);
    NotOnTwoLists(v, h);
    WithoutAbsent(v.lists.pending, h);
    PutShadowPushes(v, v.urbps[h].rspId);
    GrantPut(v.slots, v.urbps[h].rspId);
  }

  lemma FinishedSlots(v: Vdev, w: Vdev, h: Ticket, i: nat)
    requires Inv(v) && Finished(v, w, h, i)
    ensures SlotInv(w) && InFlight(v.ring, i) == 0
  {
    assert FinishLinked(v, h);
    FinishIdsWithout(v.urbps, v.lists.finish, h);
    WithoutCounts(v.lists.finish, h);
    FinishIdsFrame(v.urbps, w.urbps, w.lists.finish);
    assert PlaceCount(v, i) == 1;
    ReturnedSlots(v, w, i);
  }

  lemma FinishedLinks(v: Vdev, w: Vdev, h: Ticket, i: nat)
    requires Inv(v) && Finished(v, w, h, i) && InFlight(v.ring, i) == 0
    ensures LinkInv(w)
  {
    assert FinishLinked(v, h);
    NotOnTwoLists(v, h);
    WithoutCounts(v.lists.finish, h);
    forall k: Ticket ensures k in w.lists.finish <==> k in v.lists.finish && k != h {
      assert ListCount(v.lists, h) <= 1;
      assert k in w.lists.finish <==> k in multiset(w.lists.finish);
      assert k in v.lists.finish <==> k in multiset(v.lists.finish);
    }
    forall k | k in w.lists.pending ensures PendingLinked(w, k) {
      assert PendingLinked(v, k);
    }
    forall k | 0 <= k < |w.slots.shadows| ensures SlotLinked(w, k) {
      assert SlotLinked(v, k);
    }
    forall k | k in w.lists.finish ensures FinishLinked(w, k) {
      assert FinishLinked(v, k);
    }
    forall k: Ticket ensures ListCount(w.lists, k) <= 1 {
      assert ListCount(v.lists, k) <= 1;
    }
  }

  lemma FinishUrbKeeps(v: Vdev, h: Ticket)
    requires Inv(v) && h in v.lists.finish && h in v.urbps
    ensures v.urbps[h].rspId < |v.slots.shadows|
    ensures Inv(FinishUrb(v, h)) && Finished(v, FinishUrb(v, h), h, v.urbps[h].rspId)
  {
    FinishEffect(v, h);
    var w, i := FinishUrb(v, h), v.urbps[h].rspId;
    FinishedSlots(v, w, h, i);
    FinishedLinks(v, w, h, i);
  }

  // ---- consuming a response -------------------------------------------------------

  lemma ResponseIsLinked(v: Vdev)
    requires Inv(v) && v.ring.rsps != []
    ensures v.ring.rsps[0] < |v.slots.shadows| && v.slots.shadows[v.ring.rsps[0]].inUse
    ensures InFlight(v.ring, v.ring.rsps[0]) == 1 && FinishIds(v.urbps, v.lists.finish)[v.ring.rsps[0]] == 0
    ensures SlotLinked(v, v.ring.rsps[0])
    ensures v.ring.rsps == [v.ring.rsps[0]] + v.ring.rsps[1..]
  {
    var i := v.ring.rsps[0];
    assert i in multiset(v.ring.rsps);
    assert PlaceCount(v, i) <= 1;
  }

  ghost predicate Popped(v: Vdev, w: Vdev, i: nat) {
    && v.ring.rsps != [] && i == v.ring.rsps[0] && i < |v.slots.shadows|
    && w.ring == v.ring.(rsps := v.ring.rsps[1..]) && w.env == v.env
    && |w.slots.shadows| == |v.slots.shadows|
    && w.slots.shadows == v.slots.shadows[i := w.slots.shadows[i]]
    && w.slots.shadows[i].id == i
    && w.flags.bug == v.flags.bug
  }

  ghost predicate Completed(v: Vdev, w: Vdev, i: nat, h: Ticket) {
    && Popped(v, w, i)
    && h in v.urbps && v.slots.shadows[i].urbp == Some(h)
    && w.slots.shadows[i] == v.slots.shadows[i].(iso := false)
    && w.slots.free == v.slots.free && w.slots.grants == v.slots.grants
    && w.urbps == v.urbps[h := v.urbps[h].(rspId := i, iso := v.slots.shadows[i].iso)]
    && w.lists == Lists(Without(v.lists.pending, h), v.lists.finish + [h], v.lists.release)
  }

  lemma PoppedFlight(v: Vdev, w: Vdev, i: nat)
    requires Popped(v, w, i)
    ensures forall k: nat :: InFlight(w.ring, k) + (if k == i then 1 else 0) == InFlight(v.ring, k)
  {
    forall k: nat ensures InFlight(w.ring, k) + (if k == i then 1 else 0) == InFlight(v.ring, k) {
      assert v.ring.rsps == [i] + w.ring.rsps;
    }
  }

  lemma CompletedIds(v: Vdev, w: Vdev, i: nat, h: Ticket)
    requires Completed(v, w, i, h) && h !in v.lists.finish
    ensures FinishIds(w.urbps, w.lists.finish) == FinishIds(v.urbps, v.lists.finish) + multiset{i}
  {
    FinishIdsAppend(w.urbps, v.lists.finish, h);
    FinishIdsFrame(v.urbps, w.urbps, v.lists.finish);
  }

  lemma CompletedSlots(v: Vdev, w: Vdev, i: nat, h: Ticket)
    requires Inv(v) && Completed(v, w, i, h) && h !in v.lists.finish
    ensures SlotInv(w)
  {
    CompletedPlaces(v, w, i, h);
    hide PlaceCount, LinkInv, GrantInv, Without;
    forall k: nat ensures PlaceCount(w, k) == if k < |w.slots.shadows| then 1 else 0 {
      assert PlaceCount(v, k) == if k < |v.slots.shadows| then 1 else 0;
    }
  }

  lemma CompletedPlaces(v: Vdev, w: Vdev, i: nat, h: Ticket)
    requires Completed(v, w, i, h) && h !in v.lists.finish
    ensures forall k: nat :: PlaceCount(w, k) == PlaceCount(v, k)
  {
    hide InFlight, FinishIds, Without;
    PoppedFlight(v, w, i);
    CompletedIds(v, w, i, h);
  }

  lemma CompletedLists(v: Vdev, w: Vdev, i: nat, h: Ticket)
    requires LinkInv(v) && Completed(v, w, i, h) && h in v.lists.pending
    ensures forall k :: k in w.lists.pending <==> k in v.lists.pending && k != h
    ensures forall k :: k in w.lists.finish <==> k in v.lists.finish || k == h
    ensures forall k: Ticket :: ListCount(w.lists, k) <= 1
  {
    WithoutCounts(v.lists.pending, h);
    forall k: Ticket ensures (k in w.lists.pending <==> k in v.lists.pending && k != h) && ListCount(w.lists, k) <= 1 {
      assert ListCount(v.lists, h) <= 1 && ListCount(v.lists, k) <= 1;
      assert k in w.lists.pending <==> k in multiset(w.lists.pending);
      assert k in v.lists.pending <==> k in multiset(v.lists.pending);
    }
  }

  lemma CompletedLinks(v: Vdev, w: Vdev, i: nat, h: Ticket)
    requires Inv(v) && Completed(v, w, i, h) && Carries(v, i, h) && h in v.lists.pending
    requires v.urbps[h].urb.pipe.Isochronous? ==> v.slots.shadows[i].iso
    requires InFlight(v.ring, i) == 1
    ensures LinkInv(w)
  {
    PoppedFlight(v, w, i);
    NotOnTwoLists(v, h);
    CompletedLists(v, w, i, h);
    assert SlotLinked(v, i);
    forall k | k in w.lists.pending ensures PendingLinked(w, k) {
      assert PendingLinked(v, k);
    }
    forall k | 0 <= k < |w.slots.shadows| ensures SlotLinked(w, k) {
      assert SlotLinked(v, k);
    }
    forall k | k in w.lists.finish ensures FinishLinked(w, k) {
      assert k != h ==> FinishLinked(v, k);
    }
  }

  ghost predicate Retired(v: Vdev, w: Vdev, i: nat) {
    && Popped(v, w, i)
    && !w.slots.shadows[i].inUse
    && w.slots.free == v.slots.free + [i]
    && w.urbps == v.urbps && w.lists == v.lists
  }

  lemma RetiredKeeps(v: Vdev, w: Vdev, i: nat)
    requires Inv(v) && Retired(v, w, i) && GrantInv(w.slots)
    requires v.slots.shadows[i].inUse && !v.slots.shadows[i].kind.UrbRequest?
    ensures Inv(w)
  {
    PoppedFlight(v, w, i);
    ReturnedSlots(v, w, i);
    forall k | k in w.lists.pending ensures PendingLinked(w, k) {
      assert PendingLinked(v, k);
    }
    forall k | 0 <= k < |w.slots.shadows| ensures SlotLinked(w, k) {
      assert SlotLinked(v, k);
      assert k == i ==> InFlight(w.ring, k) == 0 by {
        assert PlaceCount(v, i) == 1;
      }
    }
    forall k | k in w.lists.finish ensures FinishLinked(w, k) {
      assert FinishLinked(v, k);
    }
    forall k: Ticket ensures ListCount(w.lists, k) <= 1 {
      assert ListCount(v.lists, k) <= 1;
    }
  }

  ghost predicate Consumed(v: Vdev, w: Vdev, x: Shadow)
    requires v.ring.rsps != []
  {
    && Inv(w) && w.urbps.Keys == v.urbps.Keys
    && w.ring == v.ring.(rsps := v.ring.rsps[1..])
    && (if x.kind.UrbRequest? then
          && x.urbp.Some? && x.urbp.value in v.lists.pending
          && w.lists == Lists(Without(v.lists.pending, x.urbp.value), v.lists.finish + [x.urbp.value], v.lists.release)
          && (forall h :: h in v.urbps ==> w.urbps[h].state == v.urbps[h].state)
        else
          w.lists == v.lists && w.urbps == v.urbps)
  }

  /** One response: an internal slot goes back; a URB moves from pending to finish. */
  lemma ConsumeKeeps(v: Vdev)
    requires Inv(v) && v.ring.rsps != []
    ensures v.ring.rsps[0] < |v.slots.shadows|
    ensures Consumed(v, ConsumeResponse(v), v.slots.shadows[v.ring.rsps[0]])
  {
    ResponseIsLinked(v);
    if v.slots.shadows[v.ring.rsps[0]].kind.UrbRequest? {
      ConsumeUrb(v);
    } else {
      ConsumeInternal(v);
    }
  }

  lemma UrbIsCompleted(v: Vdev, i: nat, h: Ticket)
    requires v.ring.rsps != [] && i == v.ring.rsps[0] < |v.slots.shadows|
    requires v.slots.shadows[i].kind.UrbRequest? && v.slots.shadows[i].urbp == Some(h) && h in v.urbps
    requires v.slots.shadows[i].id == i && v.slots.shadows[i].inUse
    ensures Completed(v, ConsumeResponse(v), i, h)
    ensures var w := ConsumeResponse(v);
            w.urbps.Keys == v.urbps.Keys && forall k :: k in v.urbps ==> w.urbps[k].state == v.urbps[k].state
  {
  }

  lemma ConsumeUrb(v: Vdev)
    requires Inv(v) && v.ring.rsps != [] && v.ring.rsps[0] < |v.slots.shadows|
    requires v.slots.shadows[v.ring.rsps[0]].kind.UrbRequest?
    ensures Consumed(v, ConsumeResponse(v), v.slots.shadows[v.ring.rsps[0]])
  {
    hide ConsumeResponse, PlaceCount, FinishIds, ListCount, AllGrants, Without, PendingLinked, FinishLinked, InFlight;
    ResponseIsLinked(v);
    var i := v.ring.rsps[0];
    var h, w := v.slots.shadows[i].urbp.value, ConsumeResponse(v);
    NotOnTwoLists(v, h);
    UrbIsCompleted(v, i, h);
    SameGrants(v.slots.shadows, i, w.slots.shadows[i]);
    CompletedSlots(v, w, i, h);
    CompletedLinks(v, w, i, h);
    hide SlotInv, LinkInv;
  }

  lemma ConsumeInternal(v: Vdev)
    requires Inv(v) && v.ring.rsps != [] && v.ring.rsps[0] < |v.slots.shadows|
    requires !v.slots.shadows[v.ring.rsps[0]].kind.UrbRequest?
    ensures Consumed(v, ConsumeResponse(v), v.slots.shadows[v.ring.rsps[0]])
  {
    ResponseIsLinked(v);
    var i := v.ring.rsps[0];
    PutShadowPushes(v, i);
    GrantPut(v.slots, i);
    RetiredKeeps(v, ConsumeResponse(v), i);
    hide SlotInv, LinkInv;
  }

  // ---- internal requests and cancellation -------------------------------------------

  lemma InternalLinks(v: Vdev, w: Vdev, i: nat, x: Shadow)
    requires Inv(v) && Launched(v, w, i, x) && w.urbps == v.urbps && SlotInv(w)
    requires !x.kind.UrbRequest? && !v.slots.shadows[i].inUse
    requires forall k: nat :: InFlight(w.ring, k) == InFlight(v.ring, k) + if k == i then 1 else 0
    ensures LinkInv(w)
  {
    forall k | k in w.lists.pending ensures PendingLinked(w, k) {
      assert PendingLinked(v, k);
    }
    forall k | 0 <= k < |w.slots.shadows| ensures SlotLinked(w, k) {
      assert SlotLinked(v, k);
    }
    forall k | k in w.lists.finish ensures FinishLinked(w, k) {
      assert FinishLinked(v, k);
    }
    forall k: Ticket ensures ListCount(w.lists, k) <= 1 {
      assert ListCount(v.lists, k) <= 1;
    }
  }

  lemma InternalEffect(v: Vdev, kind: RequestKind) returns (i: nat, x: Shadow)
    requires Inv(v) && v.slots.free != []
    ensures var (w, sent) := PutInternal(v, kind);
            && sent && Launched(v, w, i, x) && x.kind == kind && x.urbp.None? && w.urbps == v.urbps
            && GrantInv(w.slots)
  {
    i := TopIsFree(v);
    var w := PutInternal(v, kind).0;
    x := w.slots.shadows[i];
    assert w.slots.shadows == v.slots.shadows[i := x];
    GrantLaunched(v.slots, w.slots, i, x, Attached(v.slots.grants, [], false, SendOk));
  }

  /** An internal request takes the top slot, even the last one, or fails when there is none. */
  lemma PutInternalKeeps(v: Vdev, kind: RequestKind)
    requires Inv(v) && !kind.UrbRequest?
    ensures var (w, sent) := PutInternal(v, kind);
            && Inv(w) && (sent <==> v.slots.free != [])
            && w.lists == v.lists && w.urbps == v.urbps && w.env == v.env && w.flags == v.flags
            && (sent ==> exists i, x :: Launched(v, w, i, x) && x.kind == kind)
  {
    if v.slots.free != [] {
      var i, x := InternalEffect(v, kind);
      var w := PutInternal(v, kind).0;
      LaunchedSlots(v, w, i, x);
      InternalLinks(v, w, i, x);
    }
  }

  /** Cancelling a urbp that has not been cancelled before: one that is not
      sent is released at once; one that is sent stays until its answer comes. */
  lemma DequeueKeeps(v: Vdev, h: Ticket)
    requires Inv(v) && StateOf(v, h) != Cancel
    ensures var w := DequeueSection(v, h);
            && Inv(w) && w.urbps.Keys == v.urbps.Keys
            && (forall k :: k in v.urbps && k != h ==> w.urbps[k] == v.urbps[k])
            && (if h in v.lists.pending && StateOf(v, h) != Sent then
                  && w.lists == Lists(Without(v.lists.pending, h), v.lists.finish, v.lists.release + [h])
                  && w.urbps == v.urbps
                else
                  && w.lists == v.lists
                  && (h in v.urbps ==> w.urbps[h].state == if h in v.lists.pending then Cancel else v.urbps[h].state))
  {
    if h in v.lists.pending {
      assert PendingLinked(v, h);
      if !v.urbps[h].state.Sent? {
        QueueReleaseKeeps(v, QueueRelease(v, h), h);
      } else {
        var c := SetState(v, h, Cancel);
        StateKeeps(v, c, h, Cancel);
        PutInternalKeeps(c, CancelRequest(v.urbps[h].id));
      }
    }
  }

  // ---- arrival and the backend --------------------------------------------------------

  lemma ArrivalKeeps(v: Vdev, h: Ticket)
    requires Inv(v) && h in v.urbps && !Outstanding(v.urbps[h]) && ListCount(v.lists, h) == 0
    ensures Inv(Append(v, Some(h)))
  {
    var w := Append(v, Some(h));
    forall k: nat ensures PlaceCount(w, k) == if k < |w.slots.shadows| then 1 else 0 {
      assert PlaceCount(v, k) == if k < |v.slots.shadows| then 1 else 0;
    }
    forall k | k in w.lists.pending ensures PendingLinked(w, k) {
      assert k != h ==> k in v.lists.pending && PendingLinked(v, k);
    }
    forall k | 0 <= k < |w.slots.shadows| ensures SlotLinked(w, k) {
      assert SlotLinked(v, k);
    }
    forall k | k in w.lists.finish ensures FinishLinked(w, k) {
      assert FinishLinked(v, k);
    }
    forall k: Ticket ensures ListCount(w.lists, k) <= 1 {
      assert ListCount(v.lists, k) <= 1;
    }
  }

  lemma RingKeeps(v: Vdev, w: Vdev)
    requires Inv(v) && w == v.(ring := w.ring)
    requires forall k: nat :: InFlight(w.ring, k) == InFlight(v.ring, k)
    ensures Inv(w)
  {
    forall k: nat ensures PlaceCount(w, k) == if k < |w.slots.shadows| then 1 else 0 {
      assert PlaceCount(v, k) == if k < |v.slots.shadows| then 1 else 0;
    }
    forall k | k in w.lists.pending ensures PendingLinked(w, k) {
      assert PendingLinked(v, k);
    }
    forall k | 0 <= k < |w.slots.shadows| ensures SlotLinked(w, k) {
      assert SlotLinked(v, k);
    }
    forall k | k in w.lists.finish ensures FinishLinked(w, k) {
      assert FinishLinked(v, k);
    }
  }

  lemma BackendReadKeeps(v: Vdev)
    requires Inv(v) && v.ring.reqs != []
    ensures Inv(BackendRead(v))
  {
    assert v.ring.reqs == [v.ring.reqs[0]] + v.ring.reqs[1..];
    RingKeeps(v, BackendRead(v));
  }

  lemma BackendAnswerKeeps(v: Vdev, id: nat)
    requires Inv(v) && id in v.ring.held
    ensures Inv(BackendAnswer(v, id))
  {
    RingKeeps(v, BackendAnswer(v, id));
  }
}
