/** The order in which URBs wait, reach the backend and are given back. */
module VusbOrder {
  import opened VusbDevice
  import opened VusbSlots
  import opened VusbInvariants
  import opened VusbKeeps
  import opened VusbCompletion
  import opened VusbSections

  // ---- parts of a list ------------------------------------------------------------

  // The members of m, in the order of s.
  ghost function Select(s: seq<Ticket>, m: set<Ticket>): seq<Ticket> {
    if s == [] then [] else (if s[0] in m then [s[0]] else []) + Select(s[1..], m)
  }

  lemma {:induction false} SelectMembers(s: seq<Ticket>, m: set<Ticket>)
    ensures forall h :: h in Select(s, m) <==> h in s && h in m
  {
    if s != [] {
      SelectMembers(s[1..], m);
      assert s == [s[0]] + s[1..];
    }
  }

  /** Select leaves elements out and moves none: of two that remain, the earlier was earlier. */
  lemma {:induction false} SelectKeepsOrder(s: seq<Ticket>, m: set<Ticket>, i: nat, j: nat) returns (p: nat, q: nat)
    requires i < j < |Select(s, m)|
    ensures p < q < |s| && s[p] == Select(s, m)[i] && s[q] == Select(s, m)[j]
  {
    var r := Select(s[1..], m);
    if s[0] !in m {
      p, q := SelectKeepsOrder(s[1..], m, i, j);
    } else if i > 0 {
      p, q := SelectKeepsOrder(s[1..], m, i - 1, j - 1);
    } else {
      assert r[j - 1] in r;
      SelectMembers(s[1..], m);
      p, q :| p == 0 && q < |s[1..]| && s[1..][q] == r[j - 1];
      p, q := 0, q + 1;
      return;
    }
    p, q := p + 1, q + 1;
  }

  lemma {:induction false} SelectAppend(s: seq<Ticket>, t: seq<Ticket>, m: set<Ticket>)
    ensures Select(s + t, m) == Select(s, m) + Select(t, m)
  {
    if s == [] {
      assert s + t == t;
    } else {
      var one := if s[0] in m then [s[0]] else [];
      assert (s + t)[1..] == s[1..] + t && (s + t)[0] == s[0];
      assert Select(s + t, m) == one + Select(s[1..] + t, m);
      assert Select(s, m) == one + Select(s[1..], m);
      hide Select;
      SelectAppend(s[1..], t, m);
    }
  }

  lemma {:induction false} SelectAgree(s: seq<Ticket>, m: set<Ticket>, n: set<Ticket>)
    requires forall h :: h in s ==> (h in m <==> h in n)
    ensures Select(s, m) == Select(s, n)
  {
    if s != [] {
      assert forall h :: h in s[1..] ==> h in s;
      SelectAgree(s[1..], m, n);
    }
  }

  lemma {:induction false} SelectAll(s: seq<Ticket>, m: set<Ticket>)
    requires forall h :: h in s ==> h in m
    ensures Select(s, m) == s
  {
    if s != [] {
      assert forall h :: h in s[1..] ==> h in s;
      SelectAll(s[1..], m);
    }
  }

  lemma {:induction false} SelectTwice(s: seq<Ticket>, m: set<Ticket>, n: set<Ticket>)
    ensures Select(Select(s, m), n) == Select(s, m * n)
  {
    if s != [] {
      SelectTwice(s[1..], m, n);
      var one := if s[0] in m then [s[0]] else [];
      SelectAppend(one, Select(s[1..], m), n);
    }
  }

  lemma {:induction false} SelectWithout(s: seq<Ticket>, h: Ticket, m: set<Ticket>)
    requires h !in m
    ensures Select(Without(s, h), m) == Select(s, m)
  {
    if s != [] && s[0] != h {
      SelectWithout(s[1..], h, m);
      var w := Without(s, h);
      assert w[1..] == Without(s[1..], h);
    }
  }

  // ---- what one send puts on the ring -----------------------------------------------

  // The urbps whose requests these slots carry; internal requests carry none.
  ghost function UrbpsOf(shadows: seq<Shadow>, ids: seq<nat>): seq<Ticket> {
    if ids == [] then []
    else
      (if ids[0] < |shadows| && shadows[ids[0]].kind.UrbRequest? && shadows[ids[0]].urbp.Some? then
         [shadows[ids[0]].urbp.value]
       else []) + UrbpsOf(shadows, ids[1..])
  }

  // No slot in use has changed.
  ghost predicate UsedKept(v: Vdev, w: Vdev) {
    && |w.slots.shadows| == |v.slots.shadows|
    && forall i :: 0 <= i < |v.slots.shadows| && v.slots.shadows[i].inUse ==> w.slots.shadows[i] == v.slots.shadows[i]
  }

  // One request has gone on the ring, and its slot carries h.
  ghost predicate Puts(v: Vdev, w: Vdev, h: Ticket) {
    && |w.ring.reqs| == |v.ring.reqs| + 1
    && w.ring.reqs == v.ring.reqs + [w.ring.reqs[|v.ring.reqs|]]
    && var i := w.ring.reqs[|v.ring.reqs|];
       && i < |w.slots.shadows| && w.slots.shadows[i].inUse
       && w.slots.shadows[i].kind.UrbRequest? && w.slots.shadows[i].urbp == Some(h)
  }

  ghost predicate IsSent(v: Vdev, w: Vdev, h: Ticket) {
    StateOf(v, h).New? && StateOf(w, h).Sent?
  }

  // A urbp that becomes sent puts one request on the ring; any other puts none.
  ghost predicate SendsOne(v: Vdev, w: Vdev, h: Ticket) {
    UsedKept(v, w) && if IsSent(v, w, h) then Puts(v, w, h) else w.ring.reqs == v.ring.reqs
  }

  // A new urbp that is handed to the ring.
  ghost predicate Dispatches(v: Vdev, h: Ticket)
    requires h in v.urbps
  {
    && v.urbps[h].state.New? && !v.urbps[h].urb.pipe.Unknown?
    && !(v.urbps[h].urb.pipe.Control? && v.urbps[h].urb.setAddress)
  }

  lemma OutcomePuts(v: Vdev, h: Ticket, w0: Vdev, r: SendResult, i: nat, x: Shadow)
    requires SlotInv(v) && h in v.urbps && v.urbps[h].state.New? && PutOutcome(v, h, w0, r, i, x)
    ensures SendsOne(v, RecordResult(w0, h, r), h)
  {
    hide GrantInv, PlaceCount;
    if !r.SendAgain? {
      assert !v.slots.shadows[i].inUse by {
        assert i in v.slots.free;
      }
    }
  }

  lemma DispatchPuts(v: Vdev, h: Ticket)
    requires Inv(v) && h in v.urbps
    ensures SendsOne(v, Dispatch(v, h), h)
  {
    if Dispatches(v, h) {
      var i, x := PutUrbEffect(v, h);
      OutcomePuts(v, h, PutUrb(v, h).0, PutUrb(v, h).1, i, x);
      hide Inv, PutOutcome, PutUrb, SendsOne, RecordResult;
    } else {
      hide Inv, PutUrb;
    }
  }

  lemma SendUrbPuts(v: Vdev, h: Ticket)
    requires Inv(v) && h in v.urbps
    ensures SendsOne(v, SendUrb(v, h), h)
  {
    DispatchPuts(v, h);
    hide Dispatch, Inv, Without;
  }

  // ---- what a section puts on the ring ------------------------------------------------

  // The urbps that are sent in w and were new in v.
  ghost function NewlySent(v: Vdev, w: Vdev): set<Ticket> {
    set h | h in w.urbps && IsSent(v, w, h)
  }

  // The urbps with nothing left to do but to be given back.
  ghost function Over(w: Vdev): set<Ticket> {
    set h | h in w.urbps && (w.urbps[h].state.Done? || w.urbps[h].state.Drop?)
  }

  ghost function Unfinished(w: Vdev): set<Ticket> {
    w.urbps.Keys - Over(w)
  }

  // The new requests carry, in the order of hs, the urbps that were new and are sent.
  ghost predicate SentInOrder(v: Vdev, w: Vdev, hs: seq<Ticket>) {
    && v.ring.reqs <= w.ring.reqs
    && var news := w.ring.reqs[|v.ring.reqs|..];
       && UrbpsOf(w.slots.shadows, news) == Select(hs, NewlySent(v, w))
       && |news| == |Select(hs, NewlySent(v, w))|
  }

  // What is over has left the pending list for the release list, in the order of hs.
  ghost predicate ReleasedInOrder(v: Vdev, w: Vdev, hs: seq<Ticket>) {
    && w.lists.pending == Select(v.lists.pending, Unfinished(w))
    && w.lists.release == v.lists.release + Select(hs, Over(w))
  }

  // Only urbps of hs have changed their states.
  ghost predicate StatesKept(v: Vdev, w: Vdev, hs: seq<Ticket>) {
    && w.urbps.Keys == v.urbps.Keys
    && forall k :: k in v.urbps && k !in hs ==> w.urbps[k].state == v.urbps[k].state
  }

  ghost predicate InOrder(v: Vdev, w: Vdev, hs: seq<Ticket>) {
    SentInOrder(v, w, hs) && ReleasedInOrder(v, w, hs) && StatesKept(v, w, hs) && UsedKept(v, w)
  }

  // The head of hs has been sent or not, and released or not.
  ghost predicate HeadSent(v: Vdev, u: Vdev, h: Ticket) {
    && SendsOne(v, u, h) && OnlyUrbp(v.urbps, u.urbps, h)
    && (if h in Over(u) then
          u.lists.pending == Without(v.lists.pending, h) && u.lists.release == v.lists.release + [h]
        else u.lists == v.lists)
  }

  lemma HeadIsSent(v: Vdev, hs: seq<Ticket>)
    requires Inv(v) && hs != [] && Remaining(v, hs)
    ensures hs[0] in v.urbps && HeadSent(v, SendUrb(v, hs[0]), hs[0])
  {
    var h := hs[0];
    assert h in hs && PendingLinked(v, h);
    SendUrbKeeps(v, h);
    SendUrbPuts(v, h);
    hide Inv, SendUrb, SendsOne, Without;
  }

  lemma TailReleased(v: Vdev, u: Vdev, w: Vdev, hs: seq<Ticket>)
    requires hs != [] && hs[0] in v.urbps && HeadSent(v, u, hs[0]) && ReleasedInOrder(u, w, hs[1..])
    requires StatesKept(u, w, hs[1..]) && hs[0] !in hs[1..]
    ensures ReleasedInOrder(v, w, hs)
  {
    hide SendsOne;
    var h := hs[0];
    assert h in Over(w) <==> h in Over(u);
    if h in Over(u) {
      SelectWithout(v.lists.pending, h, Unfinished(w));
    }
  }

  lemma TailStates(v: Vdev, u: Vdev, w: Vdev, hs: seq<Ticket>)
    requires hs != [] && hs[0] in v.urbps && HeadSent(v, u, hs[0]) && StatesKept(u, w, hs[1..]) && UsedKept(u, w)
    ensures StatesKept(v, w, hs) && UsedKept(v, w)
  {
    hide Puts, IsSent, Over, Without;
    assert hs == [hs[0]] + hs[1..];
  }

  lemma TailSent(v: Vdev, u: Vdev, w: Vdev, hs: seq<Ticket>)
    requires hs != [] && hs[0] in v.urbps && HeadSent(v, u, hs[0]) && SentInOrder(u, w, hs[1..])
    requires StatesKept(u, w, hs[1..]) && UsedKept(u, w) && hs[0] !in hs[1..]
    ensures SentInOrder(v, w, hs)
  {
    hide Over, Without;
    var h, rest := hs[0], w.ring.reqs[|u.ring.reqs|..];
    assert h in NewlySent(v, w) <==> IsSent(v, u, h);
    forall k | k in hs[1..] ensures k in NewlySent(u, w) <==> k in NewlySent(v, w) {
      assert k != h;
    }
    SelectAgree(hs[1..], NewlySent(u, w), NewlySent(v, w));
    var news := w.ring.reqs[|v.ring.reqs|..];
    if IsSent(v, u, h) {
      var i := u.ring.reqs[|v.ring.reqs|];
      assert u.ring.reqs <= w.ring.reqs;
      assert news == [i] + rest;
      assert news[1..] == rest;
    } else {
      assert news == rest;
    }
  }

  lemma {:induction false} SendEachOrder(v: Vdev, hs: seq<Ticket>)
    requires Inv(v) && Remaining(v, hs)
    ensures InOrder(v, SendEach(v, hs), hs)
    decreases |hs|
  {
    if hs == [] {
      NothingSent(v);
    } else {
      SendHead(v, hs);
      HeadIsSent(v, hs);
      var u := SendUrb(v, hs[0]);
      var w := SendEach(u, hs[1..]);
      assert hs[0] !in hs[1..] by { HeadOnce(v, hs); }
      hide Inv, Remaining, SendUrb, HeadSent, InOrder, Balanced;
      SendEachOrder(u, hs[1..]);
      AllInOrder(v, u, w, hs);
    }
  }

  lemma HeadOnce(v: Vdev, hs: seq<Ticket>)
    requires hs != [] && Remaining(v, hs)
    ensures hs[0] !in hs[1..]
  {
    assert hs == [hs[0]] + hs[1..];
    assert multiset(hs)[hs[0]] <= 1;
    assert hs[0] in hs[1..] <==> hs[0] in multiset(hs[1..]);
  }

  lemma AllInOrder(v: Vdev, u: Vdev, w: Vdev, hs: seq<Ticket>)
    requires hs != [] && hs[0] in v.urbps && HeadSent(v, u, hs[0]) && InOrder(u, w, hs[1..]) && hs[0] !in hs[1..]
    ensures InOrder(v, w, hs)
  {
    hide HeadSent, SentInOrder, ReleasedInOrder, StatesKept, UsedKept;
    TailReleased(v, u, w, hs);
    TailStates(v, u, w, hs);
    TailSent(v, u, w, hs);
  }

  lemma NothingSent(v: Vdev)
    requires Inv(v) && Remaining(v, [])
    ensures InOrder(v, v, [])
  {
    forall h | h in v.lists.pending ensures h in Unfinished(v) {
      assert PendingLinked(v, h) && h !in [];
    }
    SelectAll(v.lists.pending, Unfinished(v));
  }

  // ---- who may be passed over --------------------------------------------------------------

  // A urbp that stays new was refused for slots, or for grant references; a retry is due.
  ghost predicate Refused(v: Vdev, w: Vdev, h: Ticket) {
    StateOf(v, h).New? && StateOf(w, h).New? ==> (|v.slots.free| <= 1 && w.flags.workQueued) || w.flags.armed
  }

  // A send takes no more than one slot, and cancels no retry.
  ghost predicate NoMoreFree(v: Vdev, w: Vdev) {
    && |w.slots.free| <= |v.slots.free|
    && (v.flags.workQueued ==> w.flags.workQueued) && (v.flags.armed ==> w.flags.armed)
  }

  lemma OutcomeRefused(v: Vdev, h: Ticket, w0: Vdev, r: SendResult, i: nat, x: Shadow)
    requires h in v.urbps && v.urbps[h].state.New? && PutOutcome(v, h, w0, r, i, x)
    ensures var w := RecordResult(w0, h, r);
            Refused(v, w, h) && NoMoreFree(v, w) && (|v.slots.free| <= 1 ==> !IsSent(v, w, h))
  {
    hide GrantInv;
  }

  lemma DispatchRefused(v: Vdev, h: Ticket)
    requires Inv(v) && h in v.urbps
    ensures var w := Dispatch(v, h);
            Refused(v, w, h) && NoMoreFree(v, w) && (|v.slots.free| <= 1 ==> !IsSent(v, w, h))
  {
    if Dispatches(v, h) {
      var i, x := PutUrbEffect(v, h);
      OutcomeRefused(v, h, PutUrb(v, h).0, PutUrb(v, h).1, i, x);
      hide Inv, PutOutcome, PutUrb, RecordResult, Refused, NoMoreFree, IsSent;
    } else {
      hide Inv, PutUrb;
    }
  }

  lemma SendUrbRefused(v: Vdev, h: Ticket)
    requires Inv(v) && h in v.urbps
    ensures var w := SendUrb(v, h);
            Refused(v, w, h) && NoMoreFree(v, w) && (|v.slots.free| <= 1 ==> !IsSent(v, w, h))
  {
    DispatchRefused(v, h);
    hide Dispatch, Inv, Without;
  }

  // With one slot left nothing more is sent.
  lemma {:induction false} NothingMoreSent(v: Vdev, hs: seq<Ticket>)
    requires Inv(v) && Remaining(v, hs)
    ensures NoMoreFree(v, SendEach(v, hs))
    ensures |v.slots.free| <= 1 ==> forall h :: h in hs ==> !IsSent(v, SendEach(v, hs), h)
    decreases |hs|
  {
    if hs != [] {
      SendHead(v, hs);
      HeadIsSent(v, hs);
      SendUrbRefused(v, hs[0]);
      var u := SendUrb(v, hs[0]);
      var w := SendEach(u, hs[1..]);
      HeadOnce(v, hs);
      SendEachOrder(u, hs[1..]);
      NothingMoreSent(u, hs[1..]);
      hide Inv, Remaining, SendUrb, SendEach, SendsOne, Balanced, Refused, SentInOrder, ReleasedInOrder;
      forall h | h in hs && |v.slots.free| <= 1 ensures !IsSent(v, w, h) {
        assert h == hs[0] || h in hs[1..];
      }
    }
  }

  // The later of two urbps was sent, and the earlier stays new.
  ghost predicate Passed(v: Vdev, w: Vdev, earlier: Ticket, later: Ticket) {
    StateOf(v, earlier).New? && StateOf(w, earlier).New? && IsSent(v, w, later)
  }

  lemma HeadPassed(v: Vdev, u: Vdev, w: Vdev, hs: seq<Ticket>, h: Ticket)
    requires hs != [] && h in hs[1..] && hs[0] !in hs[1..] && hs[0] in v.urbps
    requires OnlyUrbp(v.urbps, u.urbps, hs[0]) && Refused(v, u, hs[0]) && NoMoreFree(v, u)
    requires StatesKept(u, w, hs[1..]) && NoMoreFree(u, w)
    requires |u.slots.free| <= 1 ==> forall k :: k in hs[1..] ==> !IsSent(u, w, k)
    ensures Passed(v, w, hs[0], h) ==> w.flags.armed
  {
    assert StateOf(u, h) == StateOf(v, h);
    assert StateOf(w, hs[0]) == StateOf(u, hs[0]);
  }

  lemma {:induction false} EachPassedForGrants(v: Vdev, hs: seq<Ticket>, i: nat, j: nat)
    requires Inv(v) && Remaining(v, hs) && i < j < |hs|
    ensures Passed(v, SendEach(v, hs), hs[i], hs[j]) ==> SendEach(v, hs).flags.armed
    decreases |hs|
  {
    if i > 0 {
      SendHead(v, hs);
      var u, rest := SendUrb(v, hs[0]), hs[1..];
      assert hs[i] == rest[i - 1] && hs[j] == rest[j - 1];
      OthersSame(v, hs, hs[i]);
      OthersSame(v, hs, hs[j]);
      hide Inv, Remaining, SendUrb, Balanced;
      PassedSame(v, u, SendEach(u, rest), hs[i], hs[j]);
      hide Passed, StateOf;
      EachPassedForGrants(u, rest, i - 1, j - 1);
    } else {
      assert hs[j] == hs[1..][j - 1];
      FirstPassedForGrants(v, hs, hs[j]);
    }
  }

  lemma PassedSame(v: Vdev, u: Vdev, w: Vdev, a: Ticket, b: Ticket)
    requires StateOf(u, a) == StateOf(v, a) && StateOf(u, b) == StateOf(v, b)
    ensures Passed(u, w, a, b) == Passed(v, w, a, b)
  {
    hide StateOf;
  }

  lemma OthersSame(v: Vdev, hs: seq<Ticket>, h: Ticket)
    requires Inv(v) && hs != [] && Remaining(v, hs) && h in hs[1..]
    ensures hs[0] in v.urbps && StateOf(SendUrb(v, hs[0]), h) == StateOf(v, h)
  {
    HeadIsSent(v, hs);
    HeadOnce(v, hs);
    hide Inv, Remaining, SendUrb, SendsOne;
  }

  lemma FirstPassedForGrants(v: Vdev, hs: seq<Ticket>, h: Ticket)
    requires Inv(v) && Remaining(v, hs) && hs != [] && h in hs[1..]
    ensures Passed(v, SendEach(v, hs), hs[0], h) ==> SendEach(v, hs).flags.armed
  {
    SendHead(v, hs);
    HeadIsSent(v, hs);
    HeadOnce(v, hs);
    var u := SendUrb(v, hs[0]);
    SendUrbRefused(v, hs[0]);
    SendEachOrder(u, hs[1..]);
    NothingMoreSent(u, hs[1..]);
    var w := SendEach(u, hs[1..]);
    assert SendEach(v, hs) == w;
    hide Inv, Remaining, SendUrb, SendEach, SendsOne, Balanced, SentInOrder, ReleasedInOrder, Passed, IsSent;
    HeadPassed(v, u, w, hs, h);
  }

  lemma {:induction false} FinishEachOrder(v: Vdev)
    requires Inv(v)
    ensures FinishEach(v, v.lists.finish).lists.release == v.lists.release + v.lists.finish
    decreases |v.lists.finish|
  {
    if v.lists.finish != [] {
      FinishHead(v);
      var h := v.lists.finish[0];
      var w, rest := FinishUrb(v, h), v.lists.finish[1..];
      assert w.lists.release == v.lists.release + [h] by {
        hide Inv, PutShadow, Without, Balanced;
      }
      hide Inv, FinishUrb, Balanced;
      FinishEachOrder(w);
      HeadThenRest(v.lists.release, v.lists.finish);
    }
  }

  lemma HeadThenRest(s: seq<Ticket>, t: seq<Ticket>)
    requires t != []
    ensures s + [t[0]] + t[1..] == s + t
  {
    assert t == [t[0]] + t[1..];
  }

  ghost function Arrivals(arrival: Option<Ticket>): seq<Ticket> {
    match arrival
    case None => []
    case Some(h) => [h]
  }

  lemma WaitingStatesKept(v: Vdev, arrival: Option<Ticket>)
    requires Inv(v) && Settled(v) && MayArrive(v, arrival)
    ensures var v1 := Append(FinishEach(v, v.lists.finish), arrival); var hs := v.lists.pending + Arrivals(arrival);
            && v1.lists.pending == hs && v1.ring == v.ring && v1.urbps.Keys == v.urbps.Keys
            && v1.lists.release == v.lists.release + v.lists.finish
            && forall h :: h in hs ==> StateOf(v1, h) == StateOf(v, h)
  {
    FinishEachKeeps(v);
    FinishEachOrder(v);
    FinishThenAppend(v, arrival);
  }

  /** The section works on the urbps that were pending, in their order, and then on the one
      that arrives. The new requests carry, in that order, those that are sent; those that
      are done or dropped are given back in that order, after what was to be given back
      before; the others stay pending in that order. */
  lemma ProcessOrder(v: Vdev, arrival: Option<Ticket>)
    requires Inv(v) && Settled(v) && MayArrive(v, arrival)
    ensures var (w, out) := ProcessSection(v, arrival); var hs := v.lists.pending + Arrivals(arrival);
            && SentInOrder(v, w, hs)
            && w.lists == Lists(Select(hs, Unfinished(w)), [], [])
            && out == v.lists.release + v.lists.finish + Select(hs, Over(w))
  {
    FinishThenAppend(v, arrival);
    WaitingStatesKept(v, arrival);
    var v1, hs := Append(FinishEach(v, v.lists.finish), arrival), v.lists.pending + Arrivals(arrival);
    var w := SendEach(v1, hs);
    SendEachOrder(v1, hs);
    SendEachKeeps(v1, hs);
    hide Inv, Settled, Remaining, SendEach, FinishEach, Balanced, MayArrive, Append;
    var w1 := ProcessSection(v, arrival).0;
    assert ProcessSection(v, arrival) == (w.(lists := w.lists.(release := [])), w.lists.release);
    ProcessedOrder(v, v1, w, w1, hs);
  }

  lemma ProcessedOrder(v: Vdev, v1: Vdev, w: Vdev, w1: Vdev, hs: seq<Ticket>)
    requires v1.lists.pending == hs && v1.ring == v.ring && v1.urbps.Keys == v.urbps.Keys
    requires forall h :: h in hs ==> StateOf(v1, h) == StateOf(v, h)
    requires InOrder(v1, w, hs) && w1 == w.(lists := w.lists.(release := []))
    ensures SentInOrder(v, w1, hs)
    ensures w1.lists.pending == Select(hs, Unfinished(w1))
    ensures w.lists.release == v1.lists.release + Select(hs, Over(w1))
  {
    assert Over(w1) == Over(w);
    SelectAgree(hs, NewlySent(v1, w), NewlySent(v, w1));
  }

  /** A section sends a urbp past an earlier one that stays new only when grant references
      were short; the grant callback is then registered, and will ask for another section. */
  lemma PassedForGrants(v: Vdev, arrival: Option<Ticket>, i: nat, j: nat)
    requires Inv(v) && Settled(v) && MayArrive(v, arrival)
    requires i < j < |v.lists.pending + Arrivals(arrival)|
    ensures var w := ProcessSection(v, arrival).0; var hs := v.lists.pending + Arrivals(arrival);
            Passed(v, w, hs[i], hs[j]) ==> w.flags.armed
  {
    FinishThenAppend(v, arrival);
    WaitingStatesKept(v, arrival);
    var v1, hs := Append(FinishEach(v, v.lists.finish), arrival), v.lists.pending + Arrivals(arrival);
    EachPassedForGrants(v1, hs, i, j);
    hide Inv, Settled, Remaining, SendEach, FinishEach, MayArrive, Append;
    var w, w1 := SendEach(v1, hs), ProcessSection(v, arrival).0;
    assert w1 == w.(lists := w.lists.(release := []));
    assert hs[i] in hs && hs[j] in hs;
  }

  // Two references are asked for, and there is at most one.
  lemma StaysNew(v: Vdev, h: Ticket)
    requires Inv(v) && h in v.lists.pending && h in v.urbps && v.urbps[h].state.New?
    requires v.urbps[h].urb == Urb(Bulk, 0, 2 * PAGE_SIZE, false) && |v.slots.grants.pool| == 1
    requires v.env.maxSegments >= 2 && |v.slots.free| > 1
    ensures var w := SendUrb(v, h);
            && w == v.(slots := w.slots, urbps := w.urbps, flags := w.flags) && StateOf(w, h).New?
            && |w.slots.free| == |v.slots.free| && |w.slots.grants.pool| == 1 && OnlyUrbp(v.urbps, w.urbps, h)
  {
    var top := TopIsFree(v);
    SlotConservation(v);
    assert Attach(v.env, v.slots.grants, v.urbps[h].urb) == Attached(v.slots.grants, [], false, SendBusy);
    hide Attach, Inv;
  }

  // Nothing to grant, and a slot to take.
  lemma GoesOut(v: Vdev, h: Ticket)
    requires Inv(v) && h in v.lists.pending && h in v.urbps && v.urbps[h].state.New?
    requires v.urbps[h].urb == Urb(Bulk, 0, 0, false) && |v.slots.free| > 1
    ensures IsSent(v, SendUrb(v, h), h)
  {
    var top := TopIsFree(v);
    assert Attach(v.env, v.slots.grants, v.urbps[h].urb) == Attached(v.slots.grants, [], false, SendOk);
    hide Attach, Inv;
  }

  // ---- responses ------------------------------------------------------------------------

  ghost function Members(s: seq<Ticket>): set<Ticket> {
    set h | h in s
  }

  lemma {:induction false} UrbpsAgree(shadows: seq<Shadow>, other: seq<Shadow>, ids: seq<nat>)
    requires |shadows| == |other| && forall i :: i in ids && i < |shadows| ==> shadows[i] == other[i]
    ensures UrbpsOf(shadows, ids) == UrbpsOf(other, ids)
  {
    if ids != [] {
      assert forall i :: i in ids[1..] ==> i in ids;
      UrbpsAgree(shadows, other, ids[1..]);
    }
  }

  // Of the slots, a response concerns the one it names.
  lemma OnlySlot(v: Vdev)
    requires v.ring.rsps != [] && v.ring.rsps[0] < |v.slots.shadows|
    ensures var w := ConsumeResponse(v);
            && |w.slots.shadows| == |v.slots.shadows|
            && forall k :: 0 <= k < |v.slots.shadows| && k != v.ring.rsps[0] ==> w.slots.shadows[k] == v.slots.shadows[k]
  {
  }

  lemma ResponseOnce(v: Vdev)
    requires Inv(v) && v.ring.rsps != []
    ensures v.ring.rsps[0] !in v.ring.rsps[1..]
  {
    ResponseIsLinked(v);
    var i := v.ring.rsps[0];
    assert multiset(v.ring.rsps) == multiset{i} + multiset(v.ring.rsps[1..]);
    assert i in v.ring.rsps[1..] <==> i in multiset(v.ring.rsps[1..]);
  }

  // The urbps that are answered join the finish list in the order of the responses.
  ghost predicate Answered(v: Vdev, w: Vdev) {
    && w.urbps.Keys == v.urbps.Keys
    && w.lists.finish == v.lists.finish + UrbpsOf(v.slots.shadows, v.ring.rsps)
    && w.lists.pending == Select(v.lists.pending, v.urbps.Keys - Members(w.lists.finish))
    && w.lists.release == v.lists.release
  }

  lemma {:induction false} ConsumeEachOrder(v: Vdev)
    requires Inv(v)
    ensures Answered(v, ConsumeEach(v))
    decreases |v.ring.rsps|
  {
    if v.ring.rsps == [] {
      NothingAnswered(v);
    } else {
      ConsumeKeeps(v);
      ConsumeHead(v);
      var u := ConsumeResponse(v);
      var rest := v.ring.rsps[1..];
      OnlySlot(v);
      ResponseOnce(v);
      ResponseIsLinked(v);
      hide Inv, ConsumeResponse, Answered, Balanced, SlotLinked;
      UrbpsAgree(u.slots.shadows, v.slots.shadows, rest);
      ConsumeEachOrder(u);
      HeadAnswered(v, u, ConsumeEach(u));
    }
  }

  lemma NothingAnswered(v: Vdev)
    requires Inv(v) && v.ring.rsps == []
    ensures Answered(v, v)
  {
    forall h | h in v.lists.pending ensures h in v.urbps.Keys - Members(v.lists.finish) {
      assert PendingLinked(v, h);
      NotOnTwoLists(v, h);
    }
    SelectAll(v.lists.pending, v.urbps.Keys - Members(v.lists.finish));
  }

  lemma HeadAnswered(v: Vdev, u: Vdev, w: Vdev)
    requires v.ring.rsps != [] && v.ring.rsps[0] < |v.slots.shadows| && Answered(u, w)
    requires Consumed(v, u, v.slots.shadows[v.ring.rsps[0]])
    requires UrbpsOf(u.slots.shadows, u.ring.rsps) == UrbpsOf(v.slots.shadows, u.ring.rsps)
    ensures Answered(v, w)
  {
    hide Inv, Without, Select;
    var x, rest := v.slots.shadows[v.ring.rsps[0]], UrbpsOf(v.slots.shadows, v.ring.rsps[1..]);
    if x.kind.UrbRequest? {
      var h := x.urbp.value;
      assert UrbpsOf(v.slots.shadows, v.ring.rsps) == [h] + rest;
      assert v.lists.finish + [h] + rest == v.lists.finish + ([h] + rest);
      assert h in w.lists.finish by {
        assert w.lists.finish[|v.lists.finish|] == h;
      }
      SelectWithout(v.lists.pending, h, v.urbps.Keys - Members(w.lists.finish));
    } else {
      assert UrbpsOf(v.slots.shadows, v.ring.rsps) == rest;
    }
  }

  /** The handler moves the urbps that are answered to the back of the finish list, in the
      order of the responses; the others stay pending in their order. */
  lemma InterruptOrder(v: Vdev, processing: bool)
    requires Inv(v) && (processing || v.flags.rflush)
    ensures Answered(v, InterruptSection(v, processing))
  {
    ConsumeEachOrder(v);
    hide Inv, ConsumeEach;
  }
}
