/** What a whole lock section does to the lists. */
module VusbSections {
  import opened VusbDevice
  import opened VusbSlots
  import opened VusbInvariants
  import opened VusbKeeps
  import opened VusbCompletion

  ghost function One(arrival: Option<Ticket>, h: Ticket): nat {
    if arrival == Some(h) then 1 else 0
  }

  // No urbp is gained or lost, and only a cancelled one is in state Cancel.
  ghost predicate Balanced(v: Vdev, w: Vdev) {
    && w.urbps.Keys == v.urbps.Keys
    && (forall h: Ticket :: ListCount(w.lists, h) == ListCount(v.lists, h))
    && (forall h: Ticket :: StateOf(w, h).Cancel? ==> StateOf(v, h).Cancel?)
    && (forall h: Ticket :: ListCount(v.lists, h) == 0 ==> StateOf(w, h) == StateOf(v, h))
  }

  lemma BalancedTransitive(u: Vdev, v: Vdev, w: Vdev)
    requires Balanced(u, v) && Balanced(v, w)
    ensures Balanced(u, w)
  {
    forall h: Ticket ensures ListCount(w.lists, h) == ListCount(u.lists, h) {
      assert ListCount(w.lists, h) == ListCount(v.lists, h);
    }
    forall h: Ticket ensures StateOf(w, h).Cancel? ==> StateOf(u, h).Cancel? {
      assert StateOf(w, h).Cancel? ==> StateOf(v, h).Cancel?;
    }
    forall h: Ticket | ListCount(u.lists, h) == 0 ensures StateOf(w, h) == StateOf(u, h) {
      assert ListCount(v.lists, h) == 0;
    }
  }

  lemma MovedToRelease(l: Lists, m: Lists, h: Ticket)
    requires || (h in l.pending && m == Lists(Without(l.pending, h), l.finish, l.release + [h]))
             || (h in l.finish && m == Lists(l.pending, Without(l.finish, h), l.release + [h]))
    ensures forall k: Ticket :: ListCount(m, k) == ListCount(l, k)
  {
    WithoutCounts(l.pending, h);
    WithoutCounts(l.finish, h);
    assert h in l.pending <==> h in multiset(l.pending);
    assert h in l.finish <==> h in multiset(l.finish);
  }

  // ---- vusb_process -------------------------------------------------------------

  lemma FinishHead(v: Vdev)
    requires Inv(v) && v.lists.finish != []
    ensures var h := v.lists.finish[0];
            && h in v.urbps && v.urbps[h].rspId < |v.slots.shadows|
            && var w := FinishUrb(v, h);
               && Inv(w) && Balanced(v, w)
               && w.lists.finish == v.lists.finish[1..] && w.lists.pending == v.lists.pending
               && (forall k: Ticket :: k in v.lists.pending ==> StateOf(w, k) == StateOf(v, k))
               && w.ring == v.ring && w.env == v.env
  {
    var h := v.lists.finish[0];
    assert FinishLinked(v, h);
    FinishUrbKeeps(v, h);
    NotOnTwoLists(v, h);
    MovedToRelease(v.lists, FinishUrb(v, h).lists, h);
  }

  lemma {:induction false} FinishEachKeeps(v: Vdev)
    requires Inv(v)
    ensures var w := FinishEach(v, v.lists.finish);
            && Inv(w) && Balanced(v, w)
            && w.lists.finish == [] && w.lists.pending == v.lists.pending
            && (forall k: Ticket :: k in v.lists.pending ==> StateOf(w, k) == StateOf(v, k))
            && w.ring == v.ring && w.env == v.env
    decreases |v.lists.finish|
  {
    if v.lists.finish != [] {
      FinishHead(v);
      var w := FinishUrb(v, v.lists.finish[0]);
      FinishEachKeeps(w);
      BalancedTransitive(v, w, FinishEach(w, w.lists.finish));
    }
  }

  // The urbps of hs are pending and still to be sent; all others are settled.
  ghost predicate Remaining(v: Vdev, hs: seq<Ticket>) {
    && (forall h :: h in hs ==> h in v.lists.pending)
    && (forall h :: h in v.lists.pending && h !in hs ==> StateOf(v, h) in {New, Sent, Cancel})
    && (forall h: Ticket :: multiset(hs)[h] <= 1)
  }

  // The pending list has lost h, or the lists have not changed.
  ghost predicate SentOne(l: Lists, m: Lists, h: Ticket) {
    m == l || m == Lists(Without(l.pending, h), l.finish, l.release + [h])
  }

  lemma SentOneMembers(l: Lists, m: Lists, h: Ticket)
    requires SentOne(l, m, h) && h in l.pending && ListCount(l, h) <= 1
    ensures forall k: Ticket :: ListCount(m, k) == ListCount(l, k)
    ensures forall k: Ticket :: k in m.pending <==> k in l.pending && (m == l || k != h)
  {
    if m != l {
      MovedToRelease(l, m, h);
      WithoutCounts(l.pending, h);
    }
    forall k: Ticket ensures k in m.pending <==> k in l.pending && (m == l || k != h) {
      assert k in m.pending <==> k in multiset(m.pending);
      assert k in l.pending <==> k in multiset(l.pending);
    }
  }

  lemma RemainingTail(v: Vdev, w: Vdev, hs: seq<Ticket>)
    requires hs != [] && Remaining(v, hs)
    requires forall k: Ticket :: k in w.lists.pending <==> k in v.lists.pending && (w.lists == v.lists || k != hs[0])
    requires w.lists == v.lists ==> StateOf(w, hs[0]) in {New, Sent, Cancel}
    requires forall k: Ticket :: k != hs[0] ==> StateOf(w, k) == StateOf(v, k)
    ensures Remaining(w, hs[1..])
  {
    var h := hs[0];
    assert hs == [h] + hs[1..];
    assert multiset(hs)[h] <= 1;
    assert h in hs[1..] <==> h in multiset(hs[1..]);
    forall k | k in hs[1..] ensures k in w.lists.pending {
      assert k in hs;
    }
    forall k: Ticket ensures multiset(hs[1..])[k] <= 1 {
      assert multiset(hs)[k] <= 1;
    }
  }

  lemma SendHead(v: Vdev, hs: seq<Ticket>)
    requires Inv(v) && hs != [] && Remaining(v, hs)
    ensures hs[0] in v.urbps
    ensures var w := SendUrb(v, hs[0]);
            Inv(w) && Balanced(v, w) && Remaining(w, hs[1..]) && w.lists.finish == v.lists.finish
  {
    var h := hs[0];
    assert h in hs && PendingLinked(v, h);
    SendUrbKeeps(v, h);
    var w := SendUrb(v, h);
    assert ListCount(v.lists, h) <= 1;
    SentOneMembers(v.lists, w.lists, h);
    SendNeverCancels(v, h);
    RemainingTail(v, w, hs);
    assert ListCount(v.lists, h) > 0 by {
      assert h in multiset(v.lists.pending);
    }
  }

  lemma SendNeverCancels(v: Vdev, h: Ticket)
    requires h in v.urbps
    ensures forall k: Ticket :: StateOf(SendUrb(v, h), k).Cancel? ==> StateOf(v, k).Cancel?
  {
    hide PutUrb;
    PutUrbStates(v, h);
  }

  lemma PutUrbStates(v: Vdev, h: Ticket)
    requires h in v.urbps
    ensures h in PutUrb(v, h).0.urbps && forall k: Ticket :: StateOf(PutUrb(v, h).0, k) == StateOf(v, k)
  {
    hide Attach, PutShadow;
  }

  lemma {:induction false} SendEachKeeps(v: Vdev, hs: seq<Ticket>)
    requires Inv(v) && Remaining(v, hs)
    ensures var w := SendEach(v, hs);
            && Inv(w) && Balanced(v, w) && Settled(w)
            && w.lists.finish == v.lists.finish
    decreases |hs|
  {
    if hs != [] {
      SendHead(v, hs);
      var w := SendUrb(v, hs[0]);
      SendEachKeeps(w, hs[1..]);
      BalancedTransitive(v, w, SendEach(w, hs[1..]));
    }
  }

  ghost predicate MayArrive(v: Vdev, arrival: Option<Ticket>) {
    arrival.Some? ==> arrival.value in v.urbps && v.urbps[arrival.value].state.New?
                      && ListCount(v.lists, arrival.value) == 0
  }

  lemma FinishThenAppend(v: Vdev, arrival: Option<Ticket>)
    requires Inv(v) && Settled(v) && MayArrive(v, arrival)
    ensures var v1 := Append(FinishEach(v, v.lists.finish), arrival);
            && Inv(v1) && Remaining(v1, v1.lists.pending) && v1.lists.finish == []
            && v1.urbps.Keys == v.urbps.Keys
            && (forall h: Ticket :: ListCount(v1.lists, h) == ListCount(v.lists, h) + One(arrival, h))
            && (forall h: Ticket :: StateOf(v1, h).Cancel? ==> StateOf(v, h).Cancel?)
            && (forall h: Ticket :: ListCount(v.lists, h) == 0 ==> StateOf(v1, h) == StateOf(v, h))
  {
    var f := FinishEach(v, v.lists.finish);
    FinishEachKeeps(v);
    var v1 := Append(f, arrival);
    if arrival.Some? {
      assert ListCount(f.lists, arrival.value) == 0;
      ArrivalStateKept(v, f, arrival.value);
      ArrivalKeeps(f, arrival.value);
    }
    forall h: Ticket ensures ListCount(v1.lists, h) == ListCount(v.lists, h) + One(arrival, h) {
      assert ListCount(f.lists, h) == ListCount(v.lists, h);
    }
    forall h: Ticket ensures multiset(v1.lists.pending)[h] <= 1 {
      assert ListCount(v1.lists, h) <= 1;
    }
    forall h: Ticket ensures StateOf(v1, h).Cancel? ==> StateOf(v, h).Cancel? {
      assert StateOf(f, h).Cancel? ==> StateOf(v, h).Cancel?;
    }
  }

  lemma SpliceRelease(v: Vdev)
    requires Inv(v) && Settled(v) && v.lists.finish == []
    ensures var w := v.(lists := v.lists.(release := []));
            && Inv(w) && Settled(w)
            && (forall h: Ticket :: ListCount(w.lists, h) + multiset(v.lists.release)[h] == ListCount(v.lists, h))
            && (forall h: Ticket :: h in v.lists.release ==> h in v.urbps)
  {
    EmptyReleaseKeeps(v);
  }

  ghost predicate Processed(v: Vdev, w: Vdev, out: seq<Ticket>, arrival: Option<Ticket>) {
    && Inv(w) && Settled(w) && w.urbps.Keys == v.urbps.Keys
    && w.lists.finish == [] && w.lists.release == []
    && (forall h: Ticket :: ListCount(w.lists, h) + multiset(out)[h] == ListCount(v.lists, h) + One(arrival, h))
    && (forall h: Ticket :: StateOf(w, h).Cancel? ==> StateOf(v, h).Cancel?)
    && (forall h: Ticket :: h in out ==> h in v.urbps)
    && (forall h: Ticket :: ListCount(v.lists, h) == 0 && arrival != Some(h) ==> StateOf(w, h) == StateOf(v, h))
  }

  // v1 is v with arrival on a list, and v2 follows from it without loss.
  lemma SentAndSpliced(v: Vdev, v1: Vdev, v2: Vdev, arrival: Option<Ticket>)
    requires v1.urbps.Keys == v.urbps.Keys
    requires forall h: Ticket :: ListCount(v1.lists, h) == ListCount(v.lists, h) + One(arrival, h)
    requires forall h: Ticket :: StateOf(v1, h).Cancel? ==> StateOf(v, h).Cancel?
    requires forall h: Ticket :: ListCount(v.lists, h) == 0 ==> StateOf(v1, h) == StateOf(v, h)
    requires Balanced(v1, v2) && Inv(v2) && Settled(v2) && v2.lists.finish == []
    ensures Processed(v, v2.(lists := v2.lists.(release := [])), v2.lists.release, arrival)
  {
    hide Inv, ListCount;
    SpliceRelease(v2);
    forall h: Ticket ensures ListCount(v2.lists, h) == ListCount(v.lists, h) + One(arrival, h) {
      assert ListCount(v2.lists, h) == ListCount(v1.lists, h);
    }
    forall h: Ticket ensures StateOf(v2, h).Cancel? ==> StateOf(v, h).Cancel? {
      assert StateOf(v2, h).Cancel? ==> StateOf(v1, h).Cancel?;
    }
    forall h: Ticket | ListCount(v.lists, h) == 0 && arrival != Some(h) ensures StateOf(v2, h) == StateOf(v, h) {
      assert ListCount(v1.lists, h) == 0;
    }
  }

  /** vusb_process: what it gives back and what it keeps are together what was
      there and what arrived; nothing is left on the finish or release list. */
  lemma ProcessKeeps(v: Vdev, arrival: Option<Ticket>)
    requires Inv(v) && Settled(v) && MayArrive(v, arrival)
    ensures Processed(v, ProcessSection(v, arrival).0, ProcessSection(v, arrival).1, arrival)
  {
    FinishThenAppend(v, arrival);
    var v1 := Append(FinishEach(v, v.lists.finish), arrival);
    SendEachKeeps(v1, v1.lists.pending);
    SentAndSpliced(v, v1, SendEach(v1, v1.lists.pending), arrival);
  }

  // An urbp on no list is not touched while the finish list is completed.
  lemma {:induction false} ArrivalStateKept(v: Vdev, f: Vdev, h: Ticket)
    requires Inv(v) && f == FinishEach(v, v.lists.finish) && h in v.urbps && h !in v.lists.finish
    ensures h in f.urbps && f.urbps[h] == v.urbps[h]
    decreases |v.lists.finish|
  {
    if v.lists.finish != [] {
      FinishHead(v);
      var w := FinishUrb(v, v.lists.finish[0]);
      assert h !in w.lists.finish;
      ArrivalStateKept(w, f, h);
    }
  }

  lemma EmptyReleaseKeeps(v: Vdev)
    requires Inv(v)
    ensures Inv(v.(lists := v.lists.(release := [])))
  {
    var w := v.(lists := v.lists.(release := []));
    forall k: nat ensures PlaceCount(w, k) == if k < |w.slots.shadows| then 1 else 0 {
      assert PlaceCount(v, k) == if k < |v.slots.shadows| then 1 else 0;
    }
    forall k | k in w.lists.pending ensures PendingLinked(w, k) {
      assert PendingLinked(v, k);
    }
    forall k | 0 <= k < |w.slots.shadows| ensures SlotLinked(w, k) {
      assert SlotLinked(v, k);
    }
    forall k | k in w.lists.finish ensures FinishLinked(w, k) {
      assert FinishLinked(v, k);
    }
    forall k: Ticket ensures ListCount(w.lists, k) <= 1 {
      assert ListCount(v.lists, k) <= 1;
    }
  }

  // ---- vusb_interrupt -----------------------------------------------------------

  lemma MovedToFinish(l: Lists, m: Lists, h: Ticket)
    requires h in l.pending && m == Lists(Without(l.pending, h), l.finish + [h], l.release)
    ensures forall k: Ticket :: ListCount(m, k) == ListCount(l, k)
    ensures forall k :: k in m.pending ==> k in l.pending
  {
    WithoutCounts(l.pending, h);
    WithoutWithin(l.pending, h);
    assert h in multiset(l.pending);
  }

  lemma ConsumedBalanced(v: Vdev, w: Vdev, x: Shadow)
    requires Inv(v) && v.ring.rsps != [] && Consumed(v, w, x)
    ensures Balanced(v, w) && w.lists.release == v.lists.release && (Settled(v) ==> Settled(w))
  {
    if x.kind.UrbRequest? {
      MovedToFinish(v.lists, w.lists, x.urbp.value);
    }
  }

  lemma ConsumeHead(v: Vdev)
    requires Inv(v) && v.ring.rsps != []
    ensures v.ring.rsps[0] < |v.slots.shadows|
    ensures var w := ConsumeResponse(v);
            && Inv(w) && Balanced(v, w) && w.ring == v.ring.(rsps := v.ring.rsps[1..])
            && w.lists.release == v.lists.release && (Settled(v) ==> Settled(w))
  {
    ConsumeKeeps(v);
    ConsumedBalanced(v, ConsumeResponse(v), v.slots.shadows[v.ring.rsps[0]]);
  }

  lemma {:induction false} ConsumeEachKeeps(v: Vdev)
    requires Inv(v)
    ensures var w := ConsumeEach(v);
            && Inv(w) && Balanced(v, w) && w.ring == v.ring.(rsps := [])
            && w.lists.release == v.lists.release && (Settled(v) ==> Settled(w))
    decreases |v.ring.rsps|
  {
    if v.ring.rsps != [] {
      ConsumeHead(v);
      var w := ConsumeResponse(v);
      ConsumeEachKeeps(w);
      BalancedTransitive(v, w, ConsumeEach(w));
    }
  }

  lemma WithoutWithin(s: seq<Ticket>, h: Ticket)
    ensures forall k :: k in Without(s, h) ==> k in s
  {
    WithoutCounts(s, h);
    forall k | k in Without(s, h) ensures k in s {
      assert k in multiset(Without(s, h));
    }
  }

  /** The interrupt handler consumes every response, unless the port is closing
      and no final flush is wanted. */
  lemma InterruptKeeps(v: Vdev, processing: bool)
    requires Inv(v) && Settled(v)
    ensures var w := InterruptSection(v, processing);
            && Inv(w) && Settled(w) && Balanced(v, w)
            && w.lists.release == v.lists.release
            && (if processing || v.flags.rflush then w.ring == v.ring.(rsps := []) && !w.flags.rflush else w == v)
  {
    ConsumeEachKeeps(v);
    var v1, w := ConsumeEach(v), InterruptSection(v, processing);
    if processing || v.flags.rflush {
      FlagsKeep(v1, w);
    }
  }

  // ---- giving back --------------------------------------------------------------

  lemma FreeKeeps(v: Vdev, h: Ticket)
    requires Inv(v) && ListCount(v.lists, h) == 0
    ensures Inv(v.(urbps := v.urbps - {h}))
  {
    var w := v.(urbps := v.urbps - {h});
    assert h !in multiset(v.lists.pending) && h !in multiset(v.lists.finish) && h !in multiset(v.lists.release);
    FinishIdsFrame(v.urbps, w.urbps, v.lists.finish);
    forall k: nat ensures PlaceCount(w, k) == if k < |w.slots.shadows| then 1 else 0 {
      assert PlaceCount(v, k) == if k < |v.slots.shadows| then 1 else 0;
    }
    forall k | k in w.lists.pending ensures PendingLinked(w, k) {
      assert PendingLinked(v, k) && k in multiset(v.lists.pending);
    }
    forall k | 0 <= k < |w.slots.shadows| ensures SlotLinked(w, k) {
      assert SlotLinked(v, k);
      assert InFlight(w.ring, k) > 0 && w.slots.shadows[k].kind.UrbRequest? ==>
          v.slots.shadows[k].urbp.value in multiset(v.lists.pending);
    }
    forall k | k in w.lists.finish ensures FinishLinked(w, k) {
      assert FinishLinked(v, k) && k in multiset(v.lists.finish);
    }
    forall k | k in w.lists.release ensures k in w.urbps {
      assert k in multiset(v.lists.release);
    }
  }
}
