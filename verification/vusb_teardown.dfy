/** When tearing the device down gives every urbp back, and when it cannot.

    vusb_usbif_halt first waits for the ring to drain and only then for the
    threads inside to leave. A thread that was already inside can send between
    the two waits, so the ring may be loaded again when the teardown goes on.
*/
module VusbTeardown {
  import opened VusbDevice
  import opened VusbSlots
  import opened VusbInvariants
  import opened VusbKeeps
  import opened VusbCompletion
  import opened VusbSections
  import opened VusbMachine
  import opened VusbRuns
  import opened VusbReach
  import opened VusbTheorems

  // An answer to a URB may still come, and the handler would still take it.
  ghost predicate LateAnswerPossible(v: Vdev) {
    v.flags.rflush && UrbSlotsInFlight(v) != {}
  }

  // From here on no answer can be taken after the finish list was completed.
  ghost predicate Safe(s: State) {
    match s.teardown
    case Alive => false
    case Closing => s.processing == 0
    case Flushing => s.processing == 0
    case FlushingWork => s.processing == 0
    case Draining => s.processing == 0
    case Drained => s.processing == 0 && RingEmpty(s.v.ring)
    case Quiet => !LateAnswerPossible(s.v)
    case Finished => !LateAnswerPossible(s.v) && s.v.lists.finish == []
    case Freed => s.v.lists.finish == []
    case Returned => s.v.lists == Lists([], [], [])
  }

  // ---- safe states stay safe -------------------------------------------------------------

  lemma InternalConsumed(v: Vdev)
    requires Inv(v) && UrbSlotsInFlight(v) == {} && v.ring.rsps != []
    ensures v.ring.rsps[0] < |v.slots.shadows|
    ensures var w := ConsumeResponse(v); Inv(w) && UrbSlotsInFlight(w) == {} && w.lists == v.lists
    ensures |ConsumeResponse(v).ring.rsps| < |v.ring.rsps|
  {
    var i := v.ring.rsps[0];
    ResponseIsLinked(v);
    ConsumeKeeps(v);
    var w := ConsumeResponse(v);
    assert v.slots.shadows[i].kind.UrbRequest? ==> i in UrbSlotsInFlight(v);
    forall k | k in UrbSlotsInFlight(w) ensures k in UrbSlotsInFlight(v) {
      assert Retired(v, w, i) by { PutShadowPushes(v, i); }
      PoppedFlight(v, w, i);
    }
  }

  lemma {:induction false} ConsumeInternalsOnly(v: Vdev)
    requires Inv(v) && UrbSlotsInFlight(v) == {}
    ensures ConsumeEach(v).lists == v.lists && UrbSlotsInFlight(ConsumeEach(v)) == {}
    decreases |v.ring.rsps|
  {
    hide Inv, UrbSlotsInFlight, ConsumeResponse;
    if v.ring.rsps != [] {
      InternalConsumed(v);
      ConsumeInternalsOnly(ConsumeResponse(v));
    }
  }

  lemma {:induction false} FinishEachFlags(v: Vdev, hs: seq<Ticket>)
    ensures FinishEach(v, hs).flags.rflush == v.flags.rflush
    decreases |hs|
  {
    if hs != [] {
      if hs[0] in v.urbps && v.urbps[hs[0]].rspId < |v.slots.shadows| {
        FinishEachFlags(FinishUrb(v, hs[0]), hs[1..]);
      } else {
        FinishEachFlags(Bug(v), hs[1..]);
      }
    }
  }

  // Completing the finish list changes nothing that is in flight.
  lemma FinishKeepsFlight(v: Vdev)
    requires Inv(v)
    ensures UrbSlotsInFlight(FinishEach(v, v.lists.finish)) == {} <==> UrbSlotsInFlight(v) == {}
  {
    var w := FinishEach(v, v.lists.finish);
    FinishEachKeeps(v);
    SentMatchesRing(v);
    SentMatchesRing(w);
    if i :| i in UrbSlotsInFlight(w) {
      var h := w.slots.shadows[i].urbp.value;
      assert StateOf(v, h) == StateOf(w, h);
      assert h in OutstandingTickets(v);
    }
    if i :| i in UrbSlotsInFlight(v) {
      var h := v.slots.shadows[i].urbp.value;
      assert StateOf(v, h) == StateOf(w, h);
      assert h in OutstandingTickets(w);
    }
  }

  lemma EmptyRingCarriesNothing(v: Vdev)
    requires RingEmpty(v.ring)
    ensures UrbSlotsInFlight(v) == {}
  {
  }

  lemma SafeTeardownStep(s: State)
    requires PortInv(s) && Safe(s)
    ensures Safe(TeardownStep(s))
  {
    if s.teardown.Quiet? {
      SafeQuietStep(s);
    } else {
      if s.teardown.Drained? {
        EmptyRingCarriesNothing(s.v);
      }
      hide PortInv, UrbSlotsInFlight;
    }
  }

  lemma SafeQuietStep(s: State)
    requires PortInv(s) && Safe(s) && s.teardown.Quiet?
    ensures Safe(TeardownStep(s))
  {
    FinishEachKeeps(s.v);
    FinishEachFlags(s.v, s.v.lists.finish);
    FinishKeepsFlight(s.v);
    hide PortInv, Inv, Balanced, FinishEach, UrbSlotsInFlight;
  }

  lemma SafeHandlerStep(s: State, t: nat)
    requires PortInv(s) && Safe(s) && t < |s.threads| && s.threads[t] == InHandler(false)
    ensures Safe(AdvanceThread(s, t))
  {
    InsideMeansAlive(s, t);
    InterruptKeeps(s.v, false);
    if s.v.flags.rflush && s.teardown.Finished? {
      ConsumeInternalsOnly(s.v);
    }
  }

  lemma ClosedThreads(s: State)
    requires PortInv(s) && s.processing == 0
    ensures forall t :: 0 <= t < |s.threads| ==> s.threads[t].Gone? || s.threads[t] == InHandler(false)
  {
    NoneInside(s.threads);
  }

  lemma SafeMeansIdle(s: State)
    requires PortInv(s) && Safe(s)
    ensures s.processing == 0 && !s.teardown.Alive? && !MayStart(s)
    ensures s.closing || (s.teardown.Returned? && !s.present)
  {
  }

  lemma SafeBackendStep(s: State, step: Step)
    requires PortInv(s) && Safe(s) && (step.Read? || step.Answer?)
    ensures Safe(Next(s, step))
  {
    var w := Next(s, step);
    if w != s {
      hide PortInv, RingEmpty, UrbSlotsInFlight;
      BackendFlight(s, step);
      BackendRing(s, step);
    }
  }

  lemma BackendFlight(s: State, step: Step)
    requires step.Read? || step.Answer?
    ensures UrbSlotsInFlight(Next(s, step).v) == UrbSlotsInFlight(s.v)
    ensures Next(s, step).v.flags == s.v.flags && Next(s, step).v.lists == s.v.lists
  {
    var w := Next(s, step);
    BackendMoves(s, step);
    hide InFlight, Next, Moves;
    RingKeepsFlight(s.v.ring, w.v.ring);
  }

  // A request has been read or answered, or the ring is as it was.
  ghost predicate Moves(r: Ring, q: Ring) {
    || q == r
    || (r.reqs != [] && q == r.(held := r.held + multiset{r.reqs[0]}, reqs := r.reqs[1..]))
    || (exists id :: id in r.held && q == r.(held := r.held - multiset{id}, rsps := r.rsps + [id]))
  }

  lemma BackendMoves(s: State, step: Step)
    requires step.Read? || step.Answer?
    ensures Next(s, step).v == s.v.(ring := Next(s, step).v.ring) && Moves(s.v.ring, Next(s, step).v.ring)
  {
    if step.Answer? && step.id in s.v.ring.held {
      assert Next(s, step).v.ring == s.v.ring.(held := s.v.ring.held - multiset{step.id}, rsps := s.v.ring.rsps + [step.id]);
    }
  }

  // Reading and answering move a request from one place of the ring to another.
  lemma RingKeepsFlight(r: Ring, q: Ring)
    requires Moves(r, q)
    ensures forall i: nat :: InFlight(q, i) == InFlight(r, i)
  {
    assert r.reqs != [] ==> r.reqs == [r.reqs[0]] + r.reqs[1..];
  }

  lemma BackendRing(s: State, step: Step)
    requires step.Read? || step.Answer?
    ensures RingEmpty(s.v.ring) ==> Next(s, step) == s
  {
  }

  lemma SafeStep(s: State, step: Step)
    requires PortInv(s) && Safe(s)
    ensures Safe(Next(s, step))
  {
    hide Safe;
    SafeMeansIdle(s);
    ClosedThreads(s);
    match step
    case TeardownNext => SafeTeardownStep(s);
    case Advance(t) => SafeAdvance(s, t);
    case Read => SafeBackendStep(s, step);
    case Answer(_) => SafeBackendStep(s, step);
    case _ =>
      hide PortInv;
      IdleStep(s, step);
      SafeSame(s, Next(s, step));
  }

  lemma SafeAdvance(s: State, t: nat)
    requires PortInv(s) && Safe(s)
    requires t < |s.threads| ==> s.threads[t].Gone? || s.threads[t] == InHandler(false)
    ensures Safe(AdvanceThread(s, t))
  {
    hide PortInv, Safe, InterruptSection;
    if t < |s.threads| && s.threads[t].InHandler? {
      SafeHandlerStep(s, t);
    }
  }

  // What Safe depends on is the same in s and w.
  ghost predicate SameToSafe(s: State, w: State) {
    && w.teardown == s.teardown && w.processing == s.processing
    && w.v.ring == s.v.ring && w.v.lists == s.v.lists && w.v.flags.rflush == s.v.flags.rflush
    && w.v.slots.shadows == s.v.slots.shadows
  }

  lemma SafeSame(s: State, w: State)
    requires Safe(s) && SameToSafe(s, w)
    ensures Safe(w)
  {
    assert UrbSlotsInFlight(w.v) == UrbSlotsInFlight(s.v);
  }

  lemma IdleStep(s: State, step: Step)
    requires !s.teardown.Alive? && !MayStart(s) && (s.closing || (s.teardown.Returned? && !s.present))
    requires !step.TeardownNext? && !step.Advance? && !step.Read? && !step.Answer?
    ensures SameToSafe(s, Next(s, step))
  {
    hide PoolAllowed;
  }

  /** Whenever a teardown in a safe state returns the port, it has given every accepted urbp
      back, exactly once. */
  lemma {:induction false} SafeGivesAllBack(s: State, steps: seq<Step>)
    requires PortInv(s) && Safe(s)
    ensures var w := Run(s, steps);
            w.teardown.Returned? ==> forall h: Ticket :: multiset(w.givenBack)[h] == if h < w.accepted then 1 else 0
    decreases |steps|
  {
    if steps == [] {
      if s.teardown.Returned? {
        NoneInside(s.threads);
        forall h: Ticket ensures multiset(s.givenBack)[h] == if h < s.accepted then 1 else 0 {
          assert TicketCount(s, h) == if h < s.accepted then 1 else 0;
        }
      }
    } else {
      hide PortInv, Safe, Next;
      NextKeeps(s, steps[0]);
      SafeStep(s, steps[0]);
      SafeGivesAllBack(Next(s, steps[0]), steps[1..]);
      assert Run(s, steps) == Run(Next(s, steps[0]), steps[1..]);
    }
  }

  /** A teardown that starts when no thread is inside is safe, though it can hang. */
  lemma QuiescedDestroyIsSafe(s: State)
    requires PortInv(s) && s.processing == 0 && s.present && !s.closing
    ensures Safe(Next(s, Destroy))
  {
  }

  // ---- unsafe states can lose a urbp -------------------------------------------------------

  // A urbp on the finish list after that list was completed is never given back.
  ghost predicate Lost(s: State, h: Ticket) {
    s.teardown in {Finished, Freed, Returned} && h in s.v.lists.finish
  }

  lemma {:induction false} ConsumeOnlyAddsToFinish(v: Vdev, h: Ticket)
    requires Inv(v) && h in v.lists.finish
    ensures h in ConsumeEach(v).lists.finish
    decreases |v.ring.rsps|
  {
    if v.ring.rsps != [] {
      ConsumeKeeps(v);
      ConsumeOnlyAddsToFinish(ConsumeResponse(v), h);
    }
  }

  lemma LostStep(s: State, step: Step, h: Ticket)
    requires PortInv(s) && Lost(s, h)
    ensures Lost(Next(s, step), h)
  {
    hide Inv, Settled, SubmitInv, CancelInv, TicketInv, ConsumeEach;
    ClosedThreads(s);
    if step.Advance? && step.thread < |s.threads| && s.threads[step.thread].InHandler? {
      InsideMeansAlive(s, step.thread);
      ConsumeOnlyAddsToFinish(s.v, h);
    }
  }

  lemma {:induction false} LostForever(s: State, steps: seq<Step>, h: Ticket)
    requires PortInv(s) && Lost(s, h)
    ensures h < s.accepted && h !in Run(s, steps).givenBack
    decreases |steps|
  {
    assert h in multiset(s.v.lists.finish);
    assert TicketCount(s, h) == if h < s.accepted then 1 else 0;
    assert h in s.givenBack <==> h in multiset(s.givenBack);
    if steps != [] {
      NextKeeps(s, steps[0]);
      LostStep(s, steps[0], h);
      LostForever(Next(s, steps[0]), steps[1..], h);
    }
  }

  lemma {:induction false} RunAppend(s: State, a: seq<Step>, b: seq<Step>)
    ensures Run(s, a + b) == Run(Run(s, a), b)
    decreases |a|
  {
    if a == [] {
      assert a + b == b;
    } else {
      assert (a + b)[0] == a[0] && (a + b)[1..] == a[1..] + b;
      RunAppend(Next(s, a[0]), a[1..], b);
    }
  }

  // The backend can read and answer everything, and nothing else changes meanwhile.
  lemma {:induction false} BackendCanAnswerAll(s: State) returns (steps: seq<Step>, rsps: seq<nat>)
    ensures Run(s, steps) == s.(v := s.v.(ring := Ring([], multiset{}, rsps)))
    decreases |s.v.ring.reqs|, |s.v.ring.held|
  {
    if s.v.ring.reqs != [] {
      steps, rsps := BackendCanAnswerAll(Next(s, Read));
      steps := [Read] + steps;
    } else if id :| id in s.v.ring.held {
      steps, rsps := BackendCanAnswerAll(Next(s, Answer(id)));
      steps := [Answer(id)] + steps;
    } else {
      steps, rsps := [], s.v.ring.rsps;
    }
  }

  lemma {:induction false} ConsumeKeepsStates(v: Vdev, h: Ticket)
    requires Inv(v)
    ensures StateOf(ConsumeEach(v), h) == StateOf(v, h)
    decreases |v.ring.rsps|
  {
    if v.ring.rsps != [] {
      ConsumeKeeps(v);
      assert h in v.urbps <==> h in ConsumeResponse(v).urbps;
      ConsumeKeepsStates(ConsumeResponse(v), h);
    }
  }

  // Once every answer is on the ring, the handler moves every sent urbp to the finish list.
  lemma FlushFinishesAll(v: Vdev, h: Ticket)
    requires Inv(v) && Settled(v) && v.ring.reqs == [] && v.ring.held == multiset{}
    requires h in OutstandingTickets(v)
    ensures h in ConsumeEach(v).lists.finish
  {
    var w := ConsumeEach(v);
    ConsumeEachKeeps(v);
    ConsumeKeepsStates(v, h);
    NotOnTwoLists(v, h);
    assert h in multiset(v.lists.pending);
    assert ListCount(w.lists, h) >= 1;
    assert h in w.lists.pending ==> PendingLinked(w, h);
    assert h in w.lists.finish <==> h in multiset(w.lists.finish);
    assert h in w.lists.pending <==> h in multiset(w.lists.pending);
    assert h in w.lists.release <==> h in multiset(w.lists.release);
  }

  lemma CompletedFinishList(s: State) returns (h: Ticket)
    requires PortInv(s) && s.teardown.Quiet? && LateAnswerPossible(s.v)
    ensures var w := Next(s, TeardownNext);
            PortInv(w) && w.teardown.Finished? && w.v.flags.rflush && h in OutstandingTickets(w.v)
  {
    hide Inv, Settled, SubmitInv, CancelInv, TicketInv, FinishEach;
    NextKeeps(s, TeardownNext);
    FinishEachFlags(s.v, s.v.lists.finish);
    FinishKeepsFlight(s.v);
    var w := Next(s, TeardownNext);
    SentMatchesRing(w.v);
    var i :| i in UrbSlotsInFlight(w.v);
    h := w.v.slots.shadows[i].urbp.value;
  }

  lemma RunNothing(s: State)
    ensures Run(s, []) == s
  {
  }

  lemma RunOne(s: State, a: Step)
    ensures Run(s, [a]) == Next(s, a)
  {
    assert [a][1..] == [];
  }

  lemma RunTwo(s: State, a: Step, b: Step)
    ensures Run(s, [a, b]) == Next(Next(s, a), b)
  {
    assert [a, b][1..] == [b];
    assert Run(Next(s, a), [b]) == Run(Next(Next(s, a), b), [b][1..]);
  }

  lemma LateFlush(s: State, h: Ticket)
    requires PortInv(s) && s.teardown.Finished? && s.v.flags.rflush && h in OutstandingTickets(s.v)
    requires s.v.ring.reqs == [] && s.v.ring.held == multiset{}
    ensures Lost(Next(Next(s, Irq), Advance(|s.threads|)), h)
  {
    FlushFinishesAll(s.v, h);
    var s1 := Next(s, Irq);
    assert s1.threads == s.threads + [InHandler(false)] && s1.v == s.v && s1.teardown == s.teardown;
    FlushStep(s1, |s.threads|);
  }

  lemma FlushStep(s: State, t: nat)
    requires t < |s.threads| && s.threads[t] == InHandler(false) && s.v.flags.rflush
    ensures var w := Next(s, Advance(t));
            w.v.lists == ConsumeEach(s.v).lists && w.teardown == s.teardown && w.accepted == s.accepted
  {
  }

  // After these steps nothing ever gives h back.
  ghost predicate Loses(s: State, steps: seq<Step>, h: Ticket) {
    h < s.accepted && forall more :: h !in Run(Run(s, steps), more).givenBack
  }

  lemma LostIsLoses(s: State, steps: seq<Step>, h: Ticket)
    requires PortInv(s) && Lost(Run(s, steps), h) && Run(s, steps).accepted == s.accepted
    ensures Loses(s, steps, h)
  {
    RunKeeps(s, steps);
    LostForever(Run(s, steps), [], h);
    forall more ensures h !in Run(Run(s, steps), more).givenBack {
      LostForever(Run(s, steps), more, h);
    }
  }

  /** If a URB is still in flight when the last thread has left, and the final
      flush has not happened, some continuation leaves a urbp that no further
      step ever gives back. */
  lemma LateAnswerLosesUrbp(s: State) returns (steps: seq<Step>, h: Ticket)
    requires PortInv(s) && s.teardown.Quiet? && LateAnswerPossible(s.v)
    ensures Loses(s, steps, h)
  {
    h := CompletedFinishList(s);
    var rest := LateAnswers(Next(s, TeardownNext), h);
    steps := [TeardownNext] + rest;
    assert steps[1..] == rest;
    LostIsLoses(s, steps, h);
  }

  lemma LateAnswers(s: State, h: Ticket) returns (steps: seq<Step>)
    requires PortInv(s) && s.teardown.Finished? && s.v.flags.rflush && h in OutstandingTickets(s.v)
    ensures Lost(Run(s, steps), h) && Run(s, steps).accepted == s.accepted
  {
    var answers, rsps := BackendCanAnswerAll(s);
    var s2 := Run(s, answers);
    RunKeeps(s, answers);
    assert OutstandingTickets(s2.v) == OutstandingTickets(s.v);
    LateFlush(s2, h);
    RunTwo(s2, Irq, Advance(|s2.threads|));
    steps := answers + [Irq, Advance(|s2.threads|)];
    RunAppend(s, answers, [Irq, Advance(|s2.threads|)]);
    AcceptedSame(s, s2);
  }

  lemma AcceptedSame(s1: State, s2: State)
    requires s2 == s1.(v := s2.v)
    ensures Next(Next(s2, Irq), Advance(|s2.threads|)).accepted == s1.accepted
  {
  }

  // ---- the unsafe state is reachable ---------------------------------------------------------

  lemma RunFour(s: State, a: Step, b: Step, c: Step, d: Step)
    ensures Run(s, [a, b] + [c, d]) == Next(Next(Next(Next(s, a), b), c), d)
  {
    RunAppend(s, [a, b], [c, d]);
    RunTwo(s, a, b);
    RunTwo(Next(Next(s, a), b), c, d);
  }

  // The port accepts one URB, starts closing and sees an empty ring.
  lemma DrainedWithOneInside(env: Env, urb: Urb) returns (s: State)
    ensures var s1 := Next(Next(Next(Next(Init(env, 2, []), Start), Enqueue(urb, true)), Destroy), TeardownNext);
            s == Next(Next(Next(s1, TeardownNext), TeardownNext), TeardownNext)
    ensures s.teardown.Drained? && s.threads == [Submitting(0)] && s.processing == 1 && s.accepted == 1
    ensures s.v == FreshDevice(env, 2, []).(urbps := map[0 := Urbp(urb, New, None, 0, false)],
                                            flags := Flags(true, false, false, false, false, false))
  {
    var s1 := Next(Next(Init(env, 2, []), Start), Enqueue(urb, true));
    assert s1.threads == [Submitting(0)] && s1.processing == 1;
    var s2 := Next(Next(s1, Destroy), TeardownNext);
    assert s2.teardown.Flushing? && s2.work == WorkItems(false, false, {}, {}, false);
    s := Next(Next(Next(s2, TeardownNext), TeardownNext), TeardownNext);
  }

  lemma LastOneLeaves(s: State)
    requires s.teardown.Drained? && s.threads == [GivingBack([])] && s.processing == 1
    ensures var w := Next(Next(s, Advance(0)), TeardownNext);
            w.teardown.Quiet? && w.v == s.v && w.accepted == s.accepted
  {
  }

  /** A concrete run of a port with two slots: a URB is accepted, the teardown
      drains the still empty ring, and only then the thread sends the URB. */
  lemma LateAnswerReachable(env: Env) returns (steps: seq<Step>)
    ensures var s := Run(Init(env, 2, []), steps);
            s.teardown.Quiet? && LateAnswerPossible(s.v) && s.accepted == 1
  {
    var urb := Urb(Bulk, 0, 0, false);
    var s2 := DrainedWithOneInside(env, urb);
    SendsTheOne(s2, urb);
    LastOneLeaves(Next(s2, Advance(0)));
    var s0 := Init(env, 2, []);
    var first, second := [Start, Enqueue(urb, true)] + [Destroy, TeardownNext], [TeardownNext, TeardownNext] + [TeardownNext, Advance(0)];
    RunFour(s0, Start, Enqueue(urb, true), Destroy, TeardownNext);
    RunFour(Run(s0, first), TeardownNext, TeardownNext, TeardownNext, Advance(0));
    RunAppend(s0, first, second);
    RunTwo(Run(s0, first + second), Advance(0), TeardownNext);
    RunAppend(s0, first + second, [Advance(0), TeardownNext]);
    steps := first + second + [Advance(0), TeardownNext];
  }

  // A device with two slots, one of them taken by nobody, and one URB of no data.
  ghost predicate OneToSend(v: Vdev) {
    && |v.slots.shadows| == 2 && v.slots.free == [0, 1] && v.slots.shadows[1] == FreshShadow(1)
    && v.ring == Ring([], multiset{}, [])
    && v.urbps == map[0 := Urbp(Urb(Bulk, 0, 0, false), New, None, 0, false)]
  }

  lemma SendsOnSlotOne(v: Vdev)
    requires OneToSend(v)
    ensures var w := SendUrb(v, 0);
            w.slots.shadows[1].kind.UrbRequest? && w.ring.reqs == [1] && w.lists == v.lists && w.flags.rflush == v.flags.rflush
    ensures |SendUrb(v, 0).slots.shadows| == 2 && 1 in UrbSlotsInFlight(SendUrb(v, 0))
  {
    assert 1 in SendUrb(v, 0).ring.reqs;
  }

  lemma SendsTheOne(s: State, urb: Urb)
    requires urb == Urb(Bulk, 0, 0, false) && OneToSend(s.v) && s.v.lists == Lists([], [], [])
    requires s.threads == [Submitting(0)]
    ensures var w := Next(s, Advance(0));
            && w == s.(v := w.v, threads := [GivingBack([])])
            && w.v.flags.rflush == s.v.flags.rflush && w.v.ring.reqs == [1] && UrbSlotsInFlight(w.v) != {}
  {
    hide ProcessSection, OneToSend, UrbSlotsInFlight;
    ProcessesTheOne(s.v);
  }

  lemma ProcessesTheOne(v: Vdev)
    requires OneToSend(v) && v.lists == Lists([], [], [])
    ensures var (w, out) := ProcessSection(v, Some(0));
            out == [] && w.flags.rflush == v.flags.rflush && w.ring.reqs == [1] && UrbSlotsInFlight(w) != {}
  {
    var v1 := v.(lists := Lists([0], [], []));
    SendsOnSlotOne(v1);
    hide OneToSend, SendUrb;
    var v2 := SendUrb(v1, 0);
    SendOne(v1);
    var w := v2.(lists := v2.lists.(release := []));
    assert UrbSlotsInFlight(w) == UrbSlotsInFlight(v2);
    assert FinishEach(v, []) == v;
    assert Append(v, Some(0)) == v1;
  }

  lemma SendOne(v: Vdev)
    ensures SendEach(v, [0]) == if 0 in v.urbps then SendUrb(v, 0) else Bug(v)
  {
    hide SendUrb;
    assert [0 as Ticket][1..] == [];
  }
}
