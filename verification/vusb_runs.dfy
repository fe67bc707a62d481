/** What holds in every state a port can reach. */
module VusbRuns {
  import opened VusbDevice
  import opened VusbSlots
  import opened VusbInvariants
  import opened VusbKeeps
  import opened VusbCompletion
  import opened VusbSections
  import opened VusbMachine

  // ---- threads ----------------------------------------------------------------------

  ghost function Holds(t: Thread): multiset<Ticket> {
    match t
    case Submitting(h) => multiset{h}
    case GivingBack(out) => multiset(out)
    case _ => multiset{}
  }

  ghost function Held(ts: seq<Thread>): multiset<Ticket> {
    if ts == [] then multiset{} else Holds(ts[0]) + Held(ts[1..])
  }

  // Between vusb_start_processing and vusb_stop_processing.
  predicate Inside(t: Thread) {
    !t.Gone? && t != InHandler(false)
  }

  ghost function InsideCount(ts: seq<Thread>): nat {
    if ts == [] then 0 else (if Inside(ts[0]) then 1 else 0) + InsideCount(ts[1..])
  }

  lemma {:induction false} ThreadsUpdate(ts: seq<Thread>, t: nat, pc: Thread)
    requires t < |ts|
    ensures forall h :: Held(ts[t := pc])[h] + Holds(ts[t])[h] == Held(ts)[h] + Holds(pc)[h]
    ensures InsideCount(ts[t := pc]) + (if Inside(ts[t]) then 1 else 0)
            == InsideCount(ts) + (if Inside(pc) then 1 else 0)
  {
    hide Holds, Inside;
    if t == 0 {
      assert ts[t := pc][1..] == ts[1..];
    } else {
      assert ts[t := pc][1..] == ts[1..][t - 1 := pc] && ts[t := pc][0] == ts[0];
      ThreadsUpdate(ts[1..], t - 1, pc);
    }
  }

  lemma {:induction false} ThreadsAppend(ts: seq<Thread>, pc: Thread)
    ensures forall h :: Held(ts + [pc])[h] == Held(ts)[h] + Holds(pc)[h]
    ensures InsideCount(ts + [pc]) == InsideCount(ts) + (if Inside(pc) then 1 else 0)
  {
    if ts == [] {
      assert ts + [pc] == [pc] && [pc][1..] == [];
    } else {
      assert (ts + [pc])[1..] == ts[1..] + [pc] && (ts + [pc])[0] == ts[0];
      ThreadsAppend(ts[1..], pc);
    }
  }

  lemma {:induction false} ThreadMember(ts: seq<Thread>, t: nat)
    requires t < |ts|
    ensures forall h :: Holds(ts[t])[h] <= Held(ts)[h]
    ensures Inside(ts[t]) ==> InsideCount(ts) > 0
  {
    if t > 0 {
      ThreadMember(ts[1..], t - 1);
    }
  }

  lemma {:induction false} NoneInside(ts: seq<Thread>)
    requires InsideCount(ts) == 0
    ensures forall t :: 0 <= t < |ts| ==> !Inside(ts[t])
    ensures Held(ts) == multiset{}
  {
    if ts != [] {
      NoneInside(ts[1..]);
      assert forall t :: 0 < t < |ts| ==> ts[t] == ts[1..][t - 1];
    }
  }

  // ---- the invariant of the port ------------------------------------------------------

  // In how many places ticket h is: a list, a thread, or given back.
  ghost function TicketCount(s: State, h: Ticket): nat {
    ListCount(s.v.lists, h) + Held(s.threads)[h] + multiset(s.givenBack)[h]
  }

  ghost predicate TicketInv(s: State) {
    && (forall h: Ticket :: TicketCount(s, h) == if h < s.accepted then 1 else 0)
    && (forall h: Ticket :: h in s.v.urbps <==> h < s.accepted && h !in s.givenBack)
  }

  ghost predicate DeviceGone(s: State) {
    s.teardown.Freed? || s.teardown.Returned?
  }

  ghost predicate DeviceInv(s: State) {
    !DeviceGone(s) ==> Inv(s.v) && Settled(s.v)
  }

  // A urbp that is still on its way to vusb_process has not been sent.
  ghost predicate SubmitInv(s: State) {
    forall t :: 0 <= t < |s.threads| && s.threads[t].Submitting? ==> StateOf(s.v, s.threads[t].urbp).New?
  }

  // A ticket is cancelled by the one thread that unlinked it.
  ghost predicate CancelInv(s: State) {
    && (forall h: Ticket :: StateOf(s.v, h).Cancel? ==> h in s.unlinked)
    && (forall t :: 0 <= t < |s.threads| && s.threads[t].Cancelling? ==>
          s.threads[t].target in s.unlinked && !StateOf(s.v, s.threads[t].target).Cancel?)
    && (forall t, k :: 0 <= t < k < |s.threads| && s.threads[t].Cancelling? && s.threads[k].Cancelling? ==>
          s.threads[t].target != s.threads[k].target)
  }

  // processing counts the threads inside; a closing port lets no thread in.
  ghost predicate CountInv(s: State) {
    && s.processing == InsideCount(s.threads)
    && (s.closing <==> !s.teardown.Alive? && !s.teardown.Returned?)
    && (s.teardown.Returned? ==> !s.present)
    && (s.teardown in {Quiet, Finished, Freed, Returned} ==> s.processing == 0)
    && (DeviceGone(s) ==> !HandlerRunning(s))
  }

  ghost predicate PortInv(s: State) {
    TicketInv(s) && DeviceInv(s) && SubmitInv(s) && CancelInv(s) && CountInv(s)
  }

  lemma NotHeldNotListed(s: State, t: nat)
    requires TicketInv(s) && t < |s.threads| && s.threads[t].Submitting?
    ensures s.threads[t].urbp in s.v.urbps && ListCount(s.v.lists, s.threads[t].urbp) == 0
  {
    var h := s.threads[t].urbp;
    ThreadMember(s.threads, t);
    assert Holds(s.threads[t])[h] == 1;
    assert TicketCount(s, h) <= 1;
    assert h in s.givenBack <==> h in multiset(s.givenBack);
  }

  // ---- steps that leave the device alone ----------------------------------------------

  lemma SameTickets(s: State, w: State)
    requires TicketInv(s) && w.accepted == s.accepted && w.givenBack == s.givenBack
    requires w.v.urbps.Keys == s.v.urbps.Keys
    requires forall h: Ticket :: ListCount(w.v.lists, h) + Held(w.threads)[h] == ListCount(s.v.lists, h) + Held(s.threads)[h]
    ensures TicketInv(w)
  {
    forall h: Ticket ensures TicketCount(w, h) == if h < w.accepted then 1 else 0 {
      assert TicketCount(s, h) == if h < s.accepted then 1 else 0;
    }
  }

  ghost predicate MayCancel(s: State, pc: Thread) {
    pc.Cancelling? ==>
      && pc.target in s.unlinked && !StateOf(s.v, pc.target).Cancel?
      && (forall t :: 0 <= t < |s.threads| && s.threads[t].Cancelling? ==> s.threads[t].target != pc.target)
  }

  lemma AddThreadCancels(s: State, pc: Thread, w: State)
    requires CancelInv(s) && MayCancel(s, pc)
    requires w == s.(threads := s.threads + [pc], processing := w.processing)
    ensures CancelInv(w)
  {
    forall t | 0 <= t < |w.threads| && w.threads[t].Cancelling?
      ensures w.threads[t].target in w.unlinked && !StateOf(w.v, w.threads[t].target).Cancel?
    {
      assert w.threads[t] == if t < |s.threads| then s.threads[t] else pc;
    }
    forall t, k | 0 <= t < k < |w.threads| && w.threads[t].Cancelling? && w.threads[k].Cancelling?
      ensures w.threads[t].target != w.threads[k].target
    {
      assert w.threads[t] == s.threads[t];
      assert w.threads[k] == if k < |s.threads| then s.threads[k] else pc;
    }
  }

  lemma AddThreadKeeps(s: State, pc: Thread, w: State)
    requires TicketInv(s) && SubmitInv(s) && CancelInv(s)
    requires Holds(pc) == multiset{} && !pc.Submitting? && MayCancel(s, pc)
    requires w == s.(threads := s.threads + [pc], processing := w.processing)
    ensures TicketInv(w) && SubmitInv(w) && CancelInv(w)
  {
    ThreadsAppend(s.threads, pc);
    SameTickets(s, w);
    AddThreadCancels(s, pc, w);
  }

  lemma SpawnKeeps(s: State, pc: Thread)
    requires PortInv(s) && MayStart(s) && Holds(pc) == multiset{} && Inside(pc)
    requires !pc.Submitting? && MayCancel(s, pc)
    ensures PortInv(Spawn(s, pc))
  {
    ThreadsAppend(s.threads, pc);
    AddThreadKeeps(s, pc, Spawn(s, pc));
  }

  lemma IdleHandlerKeeps(s: State)
    requires PortInv(s)
    ensures !DeviceGone(s) ==> PortInv(s.(threads := s.threads + [InHandler(false)]))
  {
    ThreadsAppend(s.threads, InHandler(false));
    AddThreadKeeps(s, InHandler(false), s.(threads := s.threads + [InHandler(false)]));
  }

  lemma AcceptKeeps(v: Vdev, h: Ticket, u: Urbp)
    requires Inv(v) && Settled(v) && h !in v.urbps && u.state.New?
    ensures Inv(v.(urbps := v.urbps[h := u])) && Settled(v.(urbps := v.urbps[h := u]))
    ensures ListCount(v.lists, h) == 0
  {
    var w := v.(urbps := v.urbps[h := u]);
    assert h in v.lists.pending ==> PendingLinked(v, h);
    assert h in v.lists.finish ==> FinishLinked(v, h);
    FinishIdsFrame(v.urbps, w.urbps, v.lists.finish);
    forall k: nat ensures PlaceCount(w, k) == if k < |w.slots.shadows| then 1 else 0 {
      assert PlaceCount(v, k) == if k < |v.slots.shadows| then 1 else 0;
    }
    forall k | k in w.lists.pending ensures PendingLinked(w, k) {
      assert PendingLinked(v, k);
    }
    forall k | 0 <= k < |w.slots.shadows| ensures SlotLinked(w, k) {
      assert SlotLinked(v, k);
    }
    forall k | k in w.lists.finish ensures FinishLinked(w, k) {
      assert FinishLinked(v, k);
    }
    forall k: Ticket ensures ListCount(w.lists, k) <= 1 {
      assert ListCount(v.lists, k) <= 1;
    }
    forall k | k in w.lists.pending ensures StateOf(w, k) in {New, Sent, Cancel} {
      assert StateOf(v, k) in {New, Sent, Cancel};
    }
  }

  lemma NewTicket(s: State)
    requires TicketInv(s)
    ensures s.accepted !in s.v.urbps && s.accepted !in s.givenBack
  {
    assert TicketCount(s, s.accepted) == 0;
    assert s.accepted in s.givenBack <==> s.accepted in multiset(s.givenBack);
  }

  lemma AcceptTickets(s: State, w: State, u: Urbp)
    requires TicketInv(s) && w.accepted == s.accepted + 1 && w.givenBack == s.givenBack && w.v.lists == s.v.lists
    requires w.v.urbps == s.v.urbps[s.accepted := u] && w.threads == s.threads + [Submitting(s.accepted)]
    ensures TicketInv(w)
  {
    NewTicket(s);
    ThreadsAppend(s.threads, Submitting(s.accepted));
    forall k: Ticket ensures TicketCount(w, k) == if k < w.accepted then 1 else 0 {
      assert TicketCount(s, k) == if k < s.accepted then 1 else 0;
    }
  }

  lemma AcceptThreads(s: State, w: State, u: Urbp)
    requires TicketInv(s) && SubmitInv(s) && CancelInv(s) && u.state.New?
    requires w.v.urbps == s.v.urbps[s.accepted := u] && w.threads == s.threads + [Submitting(s.accepted)]
    requires w.unlinked == s.unlinked
    ensures SubmitInv(w) && CancelInv(w)
  {
    NewTicket(s);
    forall t | 0 <= t < |w.threads| && w.threads[t].Submitting? ensures StateOf(w.v, w.threads[t].urbp).New? {
      if t < |s.threads| {
        NotHeldNotListed(s, t);
      }
    }
    forall t | 0 <= t < |w.threads| && w.threads[t].Cancelling? ensures w.threads[t] == s.threads[t] {}
  }

  lemma EnqueueKeeps(s: State, urb: Urb, linked: bool)
    requires PortInv(s)
    ensures PortInv(EnqueueStep(s, urb, linked))
  {
    if MayStart(s) && linked {
      var u, w := Urbp(urb, New, None, 0, false), EnqueueStep(s, urb, linked);
      NewTicket(s);
      ThreadsAppend(s.threads, Submitting(s.accepted));
      AcceptKeeps(s.v, s.accepted, u);
      AcceptTickets(s, w, u);
      AcceptThreads(s, w, u);
    }
  }

  lemma DequeueKeepsPort(s: State, h: Ticket)
    requires PortInv(s)
    ensures PortInv(DequeueStep(s, h))
  {
    if !(h in s.unlinked || h >= s.accepted || h in s.givenBack) {
      var s1 := s.(unlinked := s.unlinked + {h});
      assert PortInv(s1) by {
        forall k: Ticket ensures TicketCount(s1, k) == if k < s1.accepted then 1 else 0 {
          assert TicketCount(s, k) == if k < s.accepted then 1 else 0;
        }
      }
      if MayStart(s1) {
        SpawnKeeps(s1, Cancelling(h));
      }
    }
  }

  // ---- one thread moves on --------------------------------------------------------------

  // Thread t has moved to pc and the device to v; nothing else has changed.
  ghost predicate Moved(s: State, w: State, t: nat, pc: Thread) {
    && t < |s.threads|
    && w == s.(v := w.v, threads := s.threads[t := pc], givenBack := w.givenBack, processing := w.processing,
               work := w.work)
    && w.processing == s.processing - (if Inside(s.threads[t]) then 1 else 0) + (if Inside(pc) then 1 else 0)
    && !pc.Submitting? && !pc.Cancelling?
  }

  lemma MovedCount(s: State, w: State, t: nat, pc: Thread)
    requires CountInv(s) && Moved(s, w, t, pc) && (Inside(pc) ==> Inside(s.threads[t])) && !pc.InHandler?
    ensures CountInv(w)
  {
    ThreadsUpdate(s.threads, t, pc);
    ThreadMember(s.threads, t);
  }

  lemma MovedTickets(s: State, w: State, t: nat, pc: Thread)
    requires TicketInv(s) && Moved(s, w, t, pc) && w.givenBack == s.givenBack && w.v.urbps.Keys == s.v.urbps.Keys
    requires forall h: Ticket :: ListCount(w.v.lists, h) + Holds(pc)[h] == ListCount(s.v.lists, h) + Holds(s.threads[t])[h]
    ensures TicketInv(w)
  {
    ThreadsUpdate(s.threads, t, pc);
    SameTickets(s, w);
  }

  lemma MovedSubmits(s: State, w: State, t: nat, pc: Thread)
    requires TicketInv(s) && SubmitInv(s) && Moved(s, w, t, pc)
    requires forall k :: 0 <= k < |s.threads| && k != t && s.threads[k].Submitting? ==>
               StateOf(w.v, s.threads[k].urbp) == StateOf(s.v, s.threads[k].urbp)
    ensures SubmitInv(w)
  {
  }

  lemma MovedCancels(s: State, w: State, t: nat, pc: Thread)
    requires CancelInv(s) && Moved(s, w, t, pc)
    requires forall h: Ticket :: StateOf(w.v, h).Cancel? ==> StateOf(s.v, h).Cancel? || s.threads[t] == Cancelling(h)
    ensures CancelInv(w)
  {
    forall k | 0 <= k < |w.threads| && w.threads[k].Cancelling?
      ensures w.threads[k].target in w.unlinked && !StateOf(w.v, w.threads[k].target).Cancel?
    {
      assert w.threads[k] == s.threads[k] && k != t;
    }
  }

  lemma OthersSubmit(s: State, t: nat, k: nat)
    requires TicketInv(s) && t < |s.threads| && k < |s.threads| && t != k && s.threads[k].Submitting?
    ensures Holds(s.threads[t])[s.threads[k].urbp] == 0
  {
    hide Held, Inside, InsideCount, ListCount;
    var h := s.threads[k].urbp;
    ThreadsUpdate(s.threads, t, Gone);
    ThreadMember(s.threads[t := Gone], k);
    assert TicketCount(s, h) <= 1;
    assert Holds(s.threads[t := Gone][k])[h] == 1;
  }

  lemma InsideMeansAlive(s: State, t: nat)
    requires PortInv(s) && t < |s.threads| && (Inside(s.threads[t]) || s.threads[t].InHandler?)
    ensures !DeviceGone(s) && Inv(s.v) && Settled(s.v)
  {
    ThreadMember(s.threads, t);
  }

  lemma ProcessedKeeps(s: State, s1: State, t: nat, arrival: Option<Ticket>, out: seq<Ticket>)
    requires PortInv(s) && Moved(s, s1, t, GivingBack(out)) && s1.givenBack == s.givenBack
    requires s.threads[t] == match arrival case Some(h) => Submitting(h) case None => Working
    requires Processed(s.v, s1.v, out, arrival)
    ensures PortInv(s1)
  {
    hide Inv, Settled, TicketInv, CountInv, SubmitInv, CancelInv, ListCount, StateOf;
    InsideMeansAlive(s, t);
    MovedCount(s, s1, t, GivingBack(out));
    MovedTickets(s, s1, t, GivingBack(out));
    forall k | 0 <= k < |s.threads| && k != t && s.threads[k].Submitting?
      ensures StateOf(s1.v, s.threads[k].urbp) == StateOf(s.v, s.threads[k].urbp)
    {
      NotHeldNotListed(s, k);
      OthersSubmit(s, t, k);
    }
    MovedSubmits(s, s1, t, GivingBack(out));
    MovedCancels(s, s1, t, GivingBack(out));
  }

  lemma ProcessStepKeeps(s: State, t: nat, arrival: Option<Ticket>)
    requires PortInv(s) && t < |s.threads|
    requires s.threads[t] == match arrival case Some(h) => Submitting(h) case None => Working
    ensures PortInv(ProcessStep(s, t, arrival))
  {
    hide Inv, Settled, TicketInv, CancelInv, CountInv, Processed, ProcessSection, ListCount;
    InsideMeansAlive(s, t);
    if arrival.Some? {
      NotHeldNotListed(s, t);
    }
    ProcessKeeps(s.v, arrival);
    ProcessedKeeps(s, ProcessStep(s, t, arrival), t, arrival, ProcessSection(s.v, arrival).1);
  }

  lemma CancelStepKeeps(s: State, t: nat)
    requires PortInv(s) && t < |s.threads| && s.threads[t].Cancelling?
    ensures PortInv(AdvanceThread(s, t))
  {
    InsideMeansAlive(s, t);
    var h := s.threads[t].target;
    DequeueKeeps(s.v, h);
    var w := DequeueSection(s.v, h);
    var s1 := AdvanceThread(s, t);
    DequeueBalanced(s.v, h);
    assert Moved(s, s1, t, Working);
    MovedCount(s, s1, t, Working);
    MovedTickets(s, s1, t, Working);
    forall k | 0 <= k < |s.threads| && k != t && s.threads[k].Submitting?
      ensures StateOf(s1.v, s.threads[k].urbp) == StateOf(s.v, s.threads[k].urbp)
    {
      NotHeldNotListed(s, k);
    }
    MovedSubmits(s, s1, t, Working);
    MovedCancels(s, s1, t, Working);
  }

  // Cancelling moves one urbp to the release list or marks it, and nothing else.
  lemma DequeueBalanced(v: Vdev, h: Ticket)
    requires Inv(v) && Settled(v) && StateOf(v, h) != Cancel
    ensures var w := DequeueSection(v, h);
            && Settled(w) && w.urbps.Keys == v.urbps.Keys
            && (forall k: Ticket :: ListCount(w.lists, k) == ListCount(v.lists, k))
            && (forall k: Ticket :: StateOf(w, k).Cancel? ==> StateOf(v, k).Cancel? || k == h)
            && (forall k: Ticket :: ListCount(v.lists, k) == 0 ==> StateOf(w, k) == StateOf(v, k))
  {
    hide Inv, PutInternal;
    DequeueKeeps(v, h);
    var w := DequeueSection(v, h);
    if h in v.lists.pending {
      assert ListCount(v.lists, h) > 0 by {
        assert h in multiset(v.lists.pending);
      }
      if StateOf(v, h) != Sent {
        MovedToRelease(v.lists, w.lists, h);
        WithoutWithin(v.lists.pending, h);
      }
    }
    forall k: Ticket | k != h ensures StateOf(w, k) == StateOf(v, k) {
      assert k in v.urbps <==> k in w.urbps;
    }
  }

  lemma HeldOnce(s: State, t: nat, h: Ticket)
    requires TicketInv(s) && t < |s.threads| && Holds(s.threads[t])[h] > 0
    ensures h < s.accepted && ListCount(s.v.lists, h) == 0 && Holds(s.threads[t])[h] == 1
    ensures forall k :: 0 <= k < |s.threads| && k != t && s.threads[k].Submitting? ==> s.threads[k].urbp != h
  {
    ThreadMember(s.threads, t);
    assert TicketCount(s, h) == if h < s.accepted then 1 else 0;
    forall k | 0 <= k < |s.threads| && k != t && s.threads[k].Submitting? ensures s.threads[k].urbp != h {
      OthersSubmit(s, t, k);
    }
  }

  lemma GaveBackTickets(s: State, s1: State, t: nat, h: Ticket, rest: seq<Ticket>)
    requires TicketInv(s) && Moved(s, s1, t, GivingBack(rest)) && s.threads[t] == GivingBack([h] + rest)
    requires s1.givenBack == s.givenBack + [h] && s1.v == s.v.(urbps := s.v.urbps - {h})
    ensures TicketInv(s1) && h < s.accepted && ListCount(s.v.lists, h) == 0
    ensures forall k :: 0 <= k < |s.threads| && k != t && s.threads[k].Submitting? ==> s.threads[k].urbp != h
  {
    assert multiset([h] + rest) == multiset{h} + multiset(rest);
    HeldOnce(s, t, h);
    ThreadsUpdate(s.threads, t, GivingBack(rest));
    GivenBackTickets(s, s1, h);
  }

  lemma GaveBackKeeps(s: State, s1: State, t: nat, h: Ticket, rest: seq<Ticket>)
    requires PortInv(s) && Moved(s, s1, t, GivingBack(rest)) && s.threads[t] == GivingBack([h] + rest)
    requires s1.givenBack == s.givenBack + [h] && s1.v == s.v.(urbps := s.v.urbps - {h})
    ensures PortInv(s1)
  {
    InsideMeansAlive(s, t);
    GaveBackTickets(s, s1, t, h, rest);
    FreeKeeps(s.v, h);
    MovedCount(s, s1, t, GivingBack(rest));
    MovedSubmits(s, s1, t, GivingBack(rest));
    MovedCancels(s, s1, t, GivingBack(rest));
  }

  lemma GiveBackKeeps(s: State, t: nat)
    requires PortInv(s) && t < |s.threads| && s.threads[t].GivingBack? && s.threads[t].out != []
    ensures PortInv(AdvanceThread(s, t))
  {
    var out := s.threads[t].out;
    assert out == [out[0]] + out[1..];
    GaveBackKeeps(s, AdvanceThread(s, t), t, out[0], out[1..]);
  }

  lemma GivenBackTickets(s: State, w: State, h: Ticket)
    requires TicketInv(s) && w.accepted == s.accepted && h < s.accepted
    requires w.givenBack == s.givenBack + [h] && w.v.urbps == s.v.urbps - {h}
    requires forall k: Ticket :: ListCount(w.v.lists, k) + Held(w.threads)[k] + (if k == h then 1 else 0)
                                 == ListCount(s.v.lists, k) + Held(s.threads)[k]
    ensures TicketInv(w)
  {
    forall k: Ticket ensures TicketCount(w, k) == if k < w.accepted then 1 else 0 {
      assert TicketCount(s, k) == if k < s.accepted then 1 else 0;
    }
  }

  lemma HandlerStepKeeps(s: State, t: nat)
    requires PortInv(s) && t < |s.threads| && s.threads[t].InHandler?
    ensures PortInv(AdvanceThread(s, t))
  {
    InsideMeansAlive(s, t);
    var processing := s.threads[t].processing;
    InterruptKeeps(s.v, processing);
    var pc, s1 := if processing then Leaving else Gone, AdvanceThread(s, t);
    assert Moved(s, s1, t, pc);
    MovedCount(s, s1, t, pc);
    MovedTickets(s, s1, t, pc);
    forall k | 0 <= k < |s.threads| && k != t && s.threads[k].Submitting?
      ensures StateOf(s1.v, s.threads[k].urbp) == StateOf(s.v, s.threads[k].urbp)
    {
      NotHeldNotListed(s, k);
    }
    MovedSubmits(s, s1, t, pc);
    MovedCancels(s, s1, t, pc);
  }

  // A step that changes no urbp and no list.
  lemma QuietMoveKeeps(s: State, s1: State, t: nat, pc: Thread)
    requires PortInv(s) && Moved(s, s1, t, pc) && s1.givenBack == s.givenBack
    requires Inside(s.threads[t]) && !pc.InHandler?
    requires Holds(s.threads[t]) == Holds(pc)
    requires Inv(s1.v) && s1.v.lists == s.v.lists && s1.v.urbps == s.v.urbps
    ensures PortInv(s1)
  {
    InsideMeansAlive(s, t);
    MovedCount(s, s1, t, pc);
    MovedTickets(s, s1, t, pc);
    MovedSubmits(s, s1, t, pc);
    MovedCancels(s, s1, t, pc);
  }

  lemma StopKeeps(s: State, t: nat)
    requires PortInv(s) && t < |s.threads| && (s.threads[t].Leaving? || s.threads[t] == GivingBack([]))
    ensures PortInv(StopProcessing(s, t))
  {
    InsideMeansAlive(s, t);
    QuietMoveKeeps(s, StopProcessing(s, t), t, Gone);
  }

  lemma ResetStepKeeps(s: State, t: nat)
    requires PortInv(s) && t < |s.threads| && s.threads[t].Resetting?
    ensures PortInv(ResetStep(s, t))
  {
    InsideMeansAlive(s, t);
    PutInternalKeeps(s.v, ResetRequest);
    hide PortInv, PutInternal, Inv, ResetStep, Moved;
    var (v, sent) := PutInternal(s.v, ResetRequest);
    ResetMoves(s, t);
    QuietMoveKeeps(s, ResetStep(s, t), t, if sent then AwaitingReset else Leaving);
  }

  lemma ResetMoves(s: State, t: nat)
    requires t < |s.threads| && s.threads[t].Resetting?
    ensures var (v, sent) := PutInternal(s.v, ResetRequest); var w := ResetStep(s, t);
            Moved(s, w, t, if sent then AwaitingReset else Leaving) && w.v == v && w.givenBack == s.givenBack
  {
    hide PutInternal;
  }

  lemma ResetDoneKeeps(s: State, t: nat)
    requires PortInv(s) && t < |s.threads| && s.threads[t].AwaitingReset?
    ensures PortInv(AdvanceThread(s, t))
  {
    if s.v.flags.resetDone {
      var s1 := AdvanceThread(s, t);
      InsideMeansAlive(s, t);
      FlagsKeep(s.v, s1.v);
      QuietMoveKeeps(s, s1, t, Leaving);
    }
  }

  lemma AdvanceKeeps(s: State, t: nat)
    requires PortInv(s)
    ensures PortInv(AdvanceThread(s, t))
  {
    if t < |s.threads| {
      match s.threads[t]
      case Submitting(h) => ProcessStepKeeps(s, t, Some(h));
      case Working => ProcessStepKeeps(s, t, None);
      case Cancelling(_) => CancelStepKeeps(s, t);
      case GivingBack(out) => if out == [] { StopKeeps(s, t); } else { GiveBackKeeps(s, t); }
      case InHandler(_) => HandlerStepKeeps(s, t);
      case Resetting => ResetStepKeeps(s, t);
      case AwaitingReset => ResetDoneKeeps(s, t);
      case Leaving => StopKeeps(s, t);
      case Gone =>
    }
  }
}
