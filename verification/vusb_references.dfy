/** What still refers to the device when the port is returned.

    vusb_put_vport zeroes the device, the device work and the grant callback in it. Nobody is
    inside by then, but the device work is flushed before the finish list is completed, and
    completing a urbp queues the work again.
*/
module VusbReferences {
  import opened VusbDevice
  import opened VusbSlots
  import opened VusbInvariants
  import opened VusbKeeps
  import opened VusbCompletion
  import opened VusbSections
  import opened VusbMachine
  import opened VusbRuns
  import opened VusbReach
  import opened VusbTheorems
  import opened VusbTeardown
  import opened VusbWork
  import opened VusbDrain
  import opened VusbReturn
  import opened VusbHang

  // The device work is queued, or will be by the grant callback.
  predicate Referred(v: Vdev) {
    v.flags.workQueued || v.flags.armed
  }

  // The port has been returned, and the device zeroed, while something still refers to it.
  predicate Dangles(s: State) {
    s.teardown.Returned? && Referred(s.v)
  }

  ghost predicate CanDangle(s: State) {
    exists steps :: Dangles(Run(s, steps))
  }

  lemma KeptReference(v: Vdev, w: Vdev)
    requires Referred(v) && KeepsQueued(v, w)
    ensures Referred(w)
  {
  }

  lemma ReferredReturns(s: State) returns (steps: seq<Step>)
    requires PortInv(s) && WorkInv(s) && PastDrain(s) && Referred(s.v)
    ensures Dangles(Run(s, steps))
  {
    hide PortInv, WorkInv, PastDrain, Run, Referred, KeepsQueued;
    steps := CanReturn(s);
    KeptReference(s.v, Run(s, steps).v);
  }

  // ---- completing the finish list queues the work -----------------------------------------

  lemma FinishQueues(v: Vdev)
    requires Inv(v) && v.lists.finish != []
    ensures FinishEach(v, v.lists.finish).flags.workQueued
  {
    hide Inv;
    FinishHead(v);
    var w := FinishUrb(v, v.lists.finish[0]);
    FinishEachAdds(w, v.lists.finish[1..]);
  }

  lemma FinishStepQueues(s: State)
    requires PortInv(s) && s.teardown.Quiet? && s.v.lists.finish != []
    ensures Referred(Next(s, TeardownNext).v) && PastDrain(Next(s, TeardownNext))
  {
    hide TicketInv, SubmitInv, CancelInv, Inv, Settled, FinishEach;
    FinishQueues(s.v);
  }

  lemma FinishDangles(s: State) returns (steps: seq<Step>)
    requires PortInv(s) && WorkInv(s) && s.teardown.Quiet? && s.v.lists.finish != []
    ensures Dangles(Run(s, steps))
  {
    hide PortInv, WorkInv, Run, Referred, Dangles;
    NextKeeps(s, TeardownNext);
    WorkKeeps(s, TeardownNext);
    FinishStepQueues(s);
    var rest := ReferredReturns(Next(s, TeardownNext));
    RunOne(s, TeardownNext);
    RunAppend(s, [TeardownNext], rest);
    steps := [TeardownNext] + rest;
  }

  // ---- a flush that takes every answer ------------------------------------------------------

  function IrqSteps(s: State): seq<Step> {
    [Irq, Advance(|s.threads|)]
  }

  // With everything answered and a flush wanted, one interrupt empties the ring.
  lemma FlushAll(s: State)
    requires PortInv(s) && WorkInv(s) && (Waiting(s) || s.teardown.Quiet?) && s.processing == 0 && s.v.flags.rflush
    requires OwesNothing(s.v.ring)
    ensures var w := Run(s, IrqSteps(s));
            && PortInv(w) && WorkInv(w) && w.processing == 0 && w.teardown == s.teardown
            && w.v.lists == ConsumeEach(s.v).lists && RingEmpty(w.v.ring)
  {
    var n, s1 := |s.threads|, Next(s, Irq);
    assert s1 == s.(threads := s.threads + [InHandler(false)]) by { ShutIrq(s); }
    RunTwo(s, Irq, Advance(n));
    RunWork(s, IrqSteps(s));
    NextKeeps(s, Irq);
    hide PortInv, WorkInv, Run, Next;
    FlushOne(s1, n);
  }

  lemma ShutIrq(s: State)
    requires PortInv(s) && (Waiting(s) || s.teardown.Quiet?)
    ensures Next(s, Irq) == s.(threads := s.threads + [InHandler(false)])
  {
    ClosedIrq(s);
  }

  lemma FlushOne(s: State, t: nat)
    requires PortInv(s) && !DeviceGone(s) && t < |s.threads| && s.threads[t] == InHandler(false) && s.v.flags.rflush
    requires OwesNothing(s.v.ring)
    ensures var w := Next(s, Advance(t));
            && w.v.lists == ConsumeEach(s.v).lists && RingEmpty(w.v.ring)
            && w.teardown == s.teardown && w.processing == s.processing
  {
    hide TicketInv, SubmitInv, CancelInv, Inv, Settled, ConsumeEach;
    InterruptKeeps(s.v, false);
  }

  // What is on the finish list stays there, and what is in flight gets there.
  lemma FlushFills(v: Vdev)
    requires Inv(v) && Settled(v) && OwesNothing(v.ring)
    requires v.lists.finish != [] || UrbSlotsInFlight(v) != {}
    ensures ConsumeEach(v).lists.finish != []
  {
    if v.lists.finish != [] {
      ConsumeOnlyAddsToFinish(v, v.lists.finish[0]);
    } else {
      SentMatchesRing(v);
      var i :| i in UrbSlotsInFlight(v);
      FlushFinishesAll(v, v.slots.shadows[i].urbp.value);
    }
  }

  // Answering changes what is in flight to what is answered, and nothing else.
  lemma AnsweredFlight(s: State) returns (steps: seq<Step>)
    requires PortInv(s) && WorkInv(s)
    ensures var w := Run(s, steps);
            && PortInv(w) && WorkInv(w) && w == s.(v := w.v) && OwesNothing(w.v.ring)
            && w.v.flags == s.v.flags && w.v.lists == s.v.lists
    ensures !DeviceGone(s) ==> (UrbSlotsInFlight(Run(s, steps).v) == {} <==> UrbSlotsInFlight(s.v) == {})
  {
    var rsps: seq<nat>;
    steps, rsps := BackendCanAnswerAll(s);
    RunWork(s, steps);
    var w := Run(s, steps);
    assert w == s.(v := s.v.(ring := Ring([], multiset{}, rsps)));
    if !DeviceGone(s) {
      SameOutstanding(s.v, w.v);
    }
  }

  lemma SameOutstanding(v: Vdev, w: Vdev)
    requires Inv(v) && Inv(w) && w == v.(ring := w.ring)
    ensures UrbSlotsInFlight(w) == {} <==> UrbSlotsInFlight(v) == {}
  {
    SentMatchesRing(v);
    SentMatchesRing(w);
    assert OutstandingTickets(w) == OutstandingTickets(v);
    hide Inv, UrbSlotsInFlight, OutstandingTickets;
    NoneOutstanding(v);
    NoneOutstanding(w);
  }

  lemma NoneOutstanding(v: Vdev)
    requires Inv(v)
    ensures UrbSlotsInFlight(v) == {} <==> OutstandingTickets(v) == {}
  {
    SentMatchesRing(v);
    hide Inv;
    if i :| i in UrbSlotsInFlight(v) {
      assert v.slots.shadows[i].urbp.value in OutstandingTickets(v);
    }
    if h :| h in OutstandingTickets(v) {
      assert v.urbps[h].id.value in UrbSlotsInFlight(v);
    }
  }

  // ---- once nobody is inside -----------------------------------------------------------------

  lemma LateFinish(s: State) returns (steps: seq<Step>)
    requires PortInv(s) && WorkInv(s) && s.teardown.Quiet? && LateAnswerPossible(s.v)
    ensures var w := Run(s, steps); PortInv(w) && WorkInv(w) && w.teardown.Quiet? && w.v.lists.finish != []
  {
    var first := AnsweredFlight(s);
    var s1 := Run(s, first);
    assert LateAnswerPossible(s1.v) && s1.processing == 0 && Inv(s1.v) && Settled(s1.v);
    hide PortInv, WorkInv, Run, Inv, Settled;
    FlushFills(s1.v);
    FlushAll(s1);
    steps := first + IrqSteps(s1);
    RunAppend(s, first, IrqSteps(s1));
  }

  lemma LateDangles(s: State) returns (steps: seq<Step>)
    requires PortInv(s) && WorkInv(s) && s.teardown.Quiet? && LateAnswerPossible(s.v)
    ensures Dangles(Run(s, steps))
  {
    hide PortInv, WorkInv, Run, Dangles, LateAnswerPossible;
    var first := LateFinish(s);
    var rest := FinishDangles(Run(s, first));
    RunAppend(s, first, rest);
    steps := first + rest;
  }

  // Nothing refers to the device, and nothing will.
  ghost predicate Unreferred(s: State) {
    match s.teardown
    case Alive => false
    case Closing => Idle(s)
    case Flushing => Idle(s) && !s.v.flags.armed
    case FlushingWork => Idle(s) && !s.v.flags.armed && (s.v.flags.workQueued ==> s.work.barrier)
    case Draining => Idle(s) && !Referred(s.v)
    case Drained => Idle(s) && !Referred(s.v)
    case Quiet => s.v.lists.finish == [] && !LateAnswerPossible(s.v) && !Referred(s.v)
    case Finished => !Referred(s.v)
    case Freed => !Referred(s.v)
    case Returned => !Referred(s.v)
  }

  // Nobody is inside, nothing waits to be completed, and no URB is in flight.
  ghost predicate Idle(s: State) {
    s.processing == 0 && s.v.lists.finish == [] && UrbSlotsInFlight(s.v) == {}
  }

  lemma {:induction false} ConsumeEachFlags(v: Vdev)
    ensures ConsumeEach(v).flags.workQueued == v.flags.workQueued && ConsumeEach(v).flags.armed == v.flags.armed
    decreases |v.ring.rsps|
  {
    hide PutShadow, Without;
    if v.ring.rsps != [] && v.ring.rsps[0] < |v.slots.shadows| {
      ConsumeEachFlags(ConsumeResponse(v));
    }
  }

  lemma UnreferredIsShut(s: State)
    requires PortInv(s) && Unreferred(s)
    ensures s.processing == 0 && !MayStart(s) && !s.teardown.Alive? && (s.closing || (s.teardown.Returned? && !s.present))
  {
    hide TicketInv, DeviceInv, SubmitInv, CancelInv;
  }

  lemma UnreferredHandler(s: State, t: nat)
    requires PortInv(s) && Unreferred(s) && t < |s.threads| && s.threads[t] == InHandler(false)
    ensures Unreferred(AdvanceThread(s, t))
  {
    InsideMeansAlive(s, t);
    hide PortInv, Inv, Settled, Unreferred, InterruptSection, UrbSlotsInFlight;
    HandlerLeaves(s, t);
    HandlerQueues(s.v);
    if UrbSlotsInFlight(s.v) == {} {
      HandlerFinishes(s.v);
    }
    StillUnreferred(s, AdvanceThread(s, t));
  }

  lemma HandlerLeaves(s: State, t: nat)
    requires t < |s.threads| && s.threads[t] == InHandler(false)
    ensures AdvanceThread(s, t) == s.(v := InterruptSection(s.v, false), threads := s.threads[t := Gone])
  {
    hide InterruptSection;
  }

  // A handler that was not let in queues nothing, and uses up the flush.
  lemma HandlerQueues(v: Vdev)
    ensures var w := InterruptSection(v, false);
            && w.flags.workQueued == v.flags.workQueued && w.flags.armed == v.flags.armed
            && !w.flags.rflush && (!v.flags.rflush ==> w == v)
  {
    ConsumeEachFlags(v);
    hide ConsumeEach;
  }

  lemma HandlerFinishes(v: Vdev)
    requires Inv(v) && UrbSlotsInFlight(v) == {}
    ensures var w := InterruptSection(v, false); w.lists == v.lists && UrbSlotsInFlight(w) == {}
  {
    if v.flags.rflush {
      ConsumeInternalsOnly(v);
    }
    HandlerFlight(v);
    hide Inv, UrbSlotsInFlight, ConsumeEach;
  }

  lemma StillUnreferred(s: State, w: State)
    requires Unreferred(s) && w == s.(v := w.v, threads := w.threads)
    requires w.v.flags.workQueued == s.v.flags.workQueued && w.v.flags.armed == s.v.flags.armed && !w.v.flags.rflush
    requires UrbSlotsInFlight(s.v) == {} ==> w.v.lists == s.v.lists && UrbSlotsInFlight(w.v) == {}
    requires !s.v.flags.rflush ==> w.v == s.v
    ensures Unreferred(w)
  {
    hide UrbSlotsInFlight;
  }

  // The flags do not matter to what is in flight.
  lemma HandlerFlight(v: Vdev)
    ensures UrbSlotsInFlight(InterruptSection(v, false)) ==
            UrbSlotsInFlight(if v.flags.rflush then ConsumeEach(v) else v)
  {
    hide ConsumeEach;
  }

  lemma UnreferredTeardown(s: State)
    requires PortInv(s) && Unreferred(s)
    ensures Unreferred(TeardownStep(s))
  {
    hide PortInv;
    match s.teardown
    case Freed => UnreferredFreed(s);
    case Quiet => UnreferredLate(s);
    case Finished => UnreferredLate(s);
    case Returned =>
    case _ => UnreferredEarly(s);
  }

  lemma UnreferredEarly(s: State)
    requires Unreferred(s) && (s.teardown.Closing? || Waiting(s) || s.teardown.Drained?)
    ensures Unreferred(TeardownStep(s))
  {
    EarlyShape(s);
    var w := TeardownStep(s);
    SameFlight(s.v, w.v);
    hide UrbSlotsInFlight, TeardownStep;
  }

  lemma EarlyShape(s: State)
    requires s.teardown.Closing? || Waiting(s) || s.teardown.Drained?
    ensures var w := TeardownStep(s);
            && w.processing == s.processing && w.v == s.v.(flags := w.v.flags)
            && w.v.flags.workQueued == s.v.flags.workQueued && (w.v.flags.armed ==> s.v.flags.armed)
            && (s.teardown.Closing? ==> w.teardown.Flushing? && !w.v.flags.armed)
            && (s.teardown.Flushing? ==>
                  (w.teardown.Flushing? || (w.teardown.FlushingWork? && (s.v.flags.workQueued ==> w.work.barrier))))
            && (s.teardown.FlushingWork? ==>
                  w.work.barrier == s.work.barrier && (w.teardown.FlushingWork? || (w.teardown.Draining? && !s.work.barrier)))
            && (s.teardown.Draining? ==> w.teardown.Draining? || w.teardown.Drained?)
            && (s.teardown.Drained? ==> w.teardown.Drained? || w.teardown.Quiet?)
  {
    hide RingEmpty, SomeRun;
  }

  lemma UnreferredLate(s: State)
    requires Unreferred(s) && (s.teardown.Quiet? || s.teardown.Finished?)
    ensures Unreferred(TeardownStep(s))
  {
    assert FinishEach(s.v, []) == s.v;
    hide FinishEach, HandlerRunning, UrbSlotsInFlight;
  }

  lemma UnreferredFreed(s: State)
    requires Unreferred(s) && s.teardown.Freed?
    ensures Unreferred(TeardownStep(s))
  {
    var w := TeardownStep(s);
    assert w.v.flags == s.v.flags && (w.teardown.Freed? || w.teardown.Returned?);
    hide TeardownStep, UrbSlotsInFlight;
  }

  lemma SameFlight(v: Vdev, w: Vdev)
    ensures w.ring == v.ring && w.slots.shadows == v.slots.shadows ==> UrbSlotsInFlight(w) == UrbSlotsInFlight(v)
  {
  }

  lemma UnreferredStep(s: State, step: Step)
    requires PortInv(s) && Unreferred(s)
    ensures Unreferred(Next(s, step))
  {
    hide Unreferred;
    UnreferredIsShut(s);
    ClosedThreads(s);
    match step
    case TeardownNext => UnreferredTeardown(s);
    case Advance(t) =>
      hide AdvanceThread, PortInv;
      UnreferredAdvance(s, t);
    case Read => UnreferredBackend(s, step);
    case Answer(_) => UnreferredBackend(s, step);
    case Work => UnreferredWork(s);
    case GrantsFree => UnreferredWork(s);
    case _ => UnreferredOther(s, step);
  }

  lemma UnreferredAdvance(s: State, t: nat)
    requires PortInv(s) && Unreferred(s)
    requires t < |s.threads| ==> s.threads[t].Gone? || s.threads[t] == InHandler(false)
    ensures Unreferred(AdvanceThread(s, t))
  {
    hide PortInv, Unreferred, InterruptSection;
    if t < |s.threads| && s.threads[t].InHandler? {
      UnreferredHandler(s, t);
    }
  }

  lemma UnreferredBackend(s: State, step: Step)
    requires Unreferred(s) && (step.Read? || step.Answer?)
    ensures Unreferred(Next(s, step))
  {
    BackendFlight(s, step);
    BackendMoves(s, step);
    var w := Next(s, step);
    assert w == s.(v := w.v);
    hide Next, Moves, UrbSlotsInFlight;
  }

  lemma UnreferredWork(s: State)
    requires Unreferred(s) && !MayStart(s)
    ensures Unreferred(WorkStep(s)) && Unreferred(GrantsFreeStep(s))
  {
    SameFlight(s.v, WorkStep(s).v);
    SameFlight(s.v, GrantsFreeStep(s).v);
    hide UrbSlotsInFlight, MayStart;
  }

  lemma UnreferredOther(s: State, step: Step)
    requires Unreferred(s) && !MayStart(s) && (s.closing || (s.teardown.Returned? && !s.present)) && !s.teardown.Alive?
    requires !step.TeardownNext? && !step.Advance? && !step.Read? && !step.Answer? && !step.Work? && !step.GrantsFree?
    ensures Unreferred(Next(s, step))
  {
    IdleStep(s, step);
    SameFlight(s.v, Next(s, step).v);
    OtherFlags(s, step);
    hide Next, UrbSlotsInFlight;
  }

  lemma OtherFlags(s: State, step: Step)
    requires !MayStart(s) && (s.closing || (s.teardown.Returned? && !s.present)) && !s.teardown.Alive?
    requires !step.TeardownNext? && !step.Advance? && !step.Read? && !step.Answer? && !step.Work? && !step.GrantsFree?
    ensures Next(s, step).v.flags == s.v.flags
    ensures s.teardown.FlushingWork? ==> Next(s, step).work.barrier == s.work.barrier
  {
    hide PoolAllowed;
  }

  lemma {:induction false} RunUnreferred(s: State, steps: seq<Step>)
    requires PortInv(s) && Unreferred(s)
    ensures Unreferred(Run(s, steps)) && !Dangles(Run(s, steps))
    decreases |steps|
  {
    hide PortInv, Next;
    if steps != [] {
      hide Unreferred;
      NextKeeps(s, steps[0]);
      UnreferredStep(s, steps[0]);
      RunUnreferred(Next(s, steps[0]), steps[1..]);
    }
  }

  lemma CannotDangle(s: State)
    requires PortInv(s) && Unreferred(s)
    ensures !CanDangle(s)
  {
    hide PortInv, Unreferred, Run, Dangles;
    forall steps ensures !Dangles(Run(s, steps)) {
      RunUnreferred(s, steps);
    }
  }

  /** Exactly when the returned device can still be referred to, once the threads have left:
      if something already refers to it, a urbp waits to be completed, or one still can. */
  lemma QuietReferences(s: State)
    requires PortInv(s) && WorkInv(s) && s.teardown.Quiet?
    ensures CanDangle(s) <==> Referred(s.v) || s.v.lists.finish != [] || LateAnswerPossible(s.v)
  {
    hide PortInv, WorkInv, Run, Dangles, Referred, LateAnswerPossible;
    if Referred(s.v) {
      var steps := ReferredReturns(s);
    } else if s.v.lists.finish != [] {
      var steps := FinishDangles(s);
    } else if LateAnswerPossible(s.v) {
      var steps := LateDangles(s);
    } else {
      CannotDangle(s);
    }
  }

  // From here on nothing queues the work any more.
  ghost predicate Completed(s: State) {
    s.teardown.Finished? || s.teardown.Freed?
  }

  // A worker takes what is queued, and what the grant callback queues.
  lemma WorkTaken(s: State)
    requires PortInv(s) && Completed(s)
    ensures var w := Run(s, [GrantsFree, Work]); Unreferred(w) && w == s.(v := w.v, work := w.work)
  {
    hide PortInv, Run, MayStart;
    RunTwo(s, GrantsFree, Work);
    CompletedIsShut(s);
    var s1 := GrantsFreeStep(s);
    assert s1 == s.(v := s1.v) && !s1.v.flags.armed;
    SameGate(s, s1);
    assert Next(s, GrantsFree) == s1 && Next(s1, Work) == WorkStep(s1);
    TakenIsUnreferred(s1);
  }

  lemma TakenIsUnreferred(s: State)
    requires Completed(s) && !MayStart(s) && !s.v.flags.armed
    ensures var w := WorkStep(s); Unreferred(w) && w == s.(v := w.v, work := w.work)
  {
  }

  lemma CompletedIsShut(s: State)
    requires PortInv(s) && Completed(s)
    ensures !MayStart(s)
  {
    hide TicketInv, DeviceInv, SubmitInv, CancelInv;
  }

  lemma SameGate(s: State, w: State)
    requires w == s.(v := w.v)
    ensures MayStart(w) <==> MayStart(s)
  {
  }

  lemma GoneCompletes(s: State) returns (steps: seq<Step>)
    requires PortInv(s) && WorkInv(s) && PastDrain(s) && !s.teardown.Returned?
    requires forall t :: 0 <= t < |s.threads| ==> s.threads[t].Gone?
    ensures var w := Run(s, steps); PortInv(w) && WorkInv(w) && Completed(w)
    decreases PhasesLeft(s.teardown)
  {
    hide PortInv, WorkInv, Next, Run;
    if Completed(s) {
      steps := [];
      RunNothing(s);
    } else {
      NextKeeps(s, TeardownNext);
      WorkKeeps(s, TeardownNext);
      GoneNext(s);
      var rest := GoneCompletes(Next(s, TeardownNext));
      RunOne(s, TeardownNext);
      RunAppend(s, [TeardownNext], rest);
      steps := [TeardownNext] + rest;
    }
  }

  lemma GoneNext(s: State)
    requires PortInv(s) && (s.teardown.Drained? || s.teardown.Quiet?)
    requires forall t :: 0 <= t < |s.threads| ==> s.threads[t].Gone?
    ensures var w := Next(s, TeardownNext);
            w.threads == s.threads && w.teardown == if s.teardown.Drained? then Quiet else Finished
  {
    hide TicketInv, DeviceInv, SubmitInv, CancelInv, FinishEach;
    GoneAreOutside(s.threads);
  }

  /** From the end of the wait for the ring on, some continuation returns the port with nothing
      left that refers to the device: a worker takes what is queued in time. */
  lemma CanReturnClean(s: State) returns (steps: seq<Step>)
    requires PortInv(s) && WorkInv(s) && PastDrain(s) && !s.teardown.Returned?
    ensures Run(s, steps).teardown.Returned? && !Referred(Run(s, steps).v)
  {
    hide PortInv, WorkInv, Resets, Run, Unreferred;
    NoResets(s);
    var first := AllLeave(s, |s.threads|);
    var second := GoneCompletes(Run(s, first));
    var w := Run(Run(s, first), second);
    WorkTaken(w);
    RunWork(w, [GrantsFree, Work]);
    var u := Run(w, [GrantsFree, Work]);
    var last := CanReturn(u);
    RunUnreferred(u, last);
    RunAppend(w, [GrantsFree, Work], last);
    RunAppend(Run(s, first), second, [GrantsFree, Work] + last);
    RunAppend(s, first, second + ([GrantsFree, Work] + last));
    steps := first + (second + ([GrantsFree, Work] + last));
  }

  // ---- a teardown that starts with nobody inside ---------------------------------------------

  // Something is left to complete: a urbp on the finish list, or one whose answer is to come.
  ghost predicate LeftToComplete(v: Vdev) {
    v.lists.finish != [] || UrbSlotsInFlight(v) != {}
  }

  // An empty ring with nobody inside: every wait ends.
  lemma EmptyGetsQuiet(s: State) returns (steps: seq<Step>)
    requires PortInv(s) && WorkInv(s) && Waiting(s) && s.processing == 0 && RingEmpty(s.v.ring)
    ensures var w := Run(s, steps); PortInv(w) && WorkInv(w) && w.teardown.Quiet? && w.v.lists == s.v.lists
  {
    hide PortInv, WorkInv, Run, NoWorkRuns;
    NoWork(s);
    var first := FlushesEnd(s);
    var w := Run(s, first);
    RunAppend(s, first, [TeardownNext, TeardownNext]);
    RunTwo(w, TeardownNext, TeardownNext);
    RunWork(w, [TeardownNext, TeardownNext]);
    DrainingGetsQuiet(w);
    steps := first + [TeardownNext, TeardownNext];
  }

  lemma DrainingGetsQuiet(s: State)
    requires s.teardown.Draining? && RingEmpty(s.v.ring) && s.processing == 0
    ensures var w := Next(Next(s, TeardownNext), TeardownNext); w.teardown.Quiet? && w.v == s.v
  {
  }

  lemma LeftGetsQuiet(s: State) returns (steps: seq<Step>)
    requires PortInv(s) && WorkInv(s) && s.teardown.Flushing? && s.processing == 0 && s.v.flags.rflush
    requires LeftToComplete(s.v)
    ensures var w := Run(s, steps); PortInv(w) && WorkInv(w) && w.teardown.Quiet? && w.v.lists.finish != []
  {
    var first := AnsweredFlight(s);
    var s1 := Run(s, first);
    assert LeftToComplete(s1.v) && Inv(s1.v) && Settled(s1.v);
    hide PortInv, WorkInv, Run, Inv, Settled, RingEmpty;
    FlushFills(s1.v);
    FlushAll(s1);
    var second := IrqSteps(s1);
    RunAppend(s, first, second);
    var third := EmptyGetsQuiet(Run(s1, second));
    RunAppend(s, first + second, third);
    steps := first + second + third;
  }

  lemma LeftDangles(s: State) returns (steps: seq<Step>)
    requires PortInv(s) && WorkInv(s) && s.teardown.Closing? && s.processing == 0 && LeftToComplete(s.v)
    ensures Dangles(Run(s, steps))
  {
    ClosingStarts(s);
    var w := Next(s, TeardownNext);
    SameFlight(s.v, w.v);
    hide PortInv, WorkInv, Run, Dangles, UrbSlotsInFlight;
    var first := LeftGetsQuiet(w);
    var rest := FinishDangles(Run(w, first));
    RunAppend(w, first, rest);
    RunOne(s, TeardownNext);
    RunAppend(s, [TeardownNext], first + rest);
    steps := [TeardownNext] + (first + rest);
  }

  /** Exactly when the port of a device with nobody inside can be returned while its device
      work is still queued: if and only if a urbp is left to complete when the teardown starts. */
  lemma QuiescedReferences(s: State)
    requires PortInv(s) && WorkInv(s) && Quiesced(s)
    ensures CanDangle(Next(s, Destroy)) <==> LeftToComplete(s.v)
  {
    var w := Next(s, Destroy);
    assert w == s.(closing := true, teardown := Closing);
    NextKeeps(s, Destroy);
    WorkKeeps(s, Destroy);
    hide PortInv, WorkInv, Run, Next, Dangles;
    if LeftToComplete(s.v) {
      var steps := LeftDangles(w);
    } else {
      CannotDangle(w);
    }
  }

  /** The same runs give every urbp back: what is left to complete comes back, and the work
      that completing it queued outlives the device. */
  lemma CompletesAndDangles(s: State) returns (steps: seq<Step>)
    requires PortInv(s) && WorkInv(s) && Quiesced(s) && LeftToComplete(s.v)
    ensures var w := Run(Next(s, Destroy), steps); GivesAllBack(w) && Dangles(w)
  {
    var w := Next(s, Destroy);
    NextKeeps(s, Destroy);
    WorkKeeps(s, Destroy);
    QuiescedDestroyIsSafe(s);
    hide PortInv, WorkInv, Safe, Run, LeftToComplete;
    assert w == s.(closing := true, teardown := Closing);
    steps := LeftDangles(w);
    ReturnedSafely(w, steps);
  }

  /** A concrete run of a port with two slots: one URB is accepted and sent, its thread leaves,
      the flush takes its answer, and the port is returned with the URB given back and the
      device work queued. */
  lemma ReturnedWithWorkQueued(env: Env) returns (steps: seq<Step>)
    ensures var s := Run(Init(env, 2, []), steps);
            s.accepted == 1 && GivesAllBack(s) && s.givenBack == [0] && Dangles(s)
  {
    hide PortInv, WorkInv, Run, Next, GivesAllBack, Dangles, Inv;
    var s0 := Init(env, 2, []);
    var first := SentAndLeft(env);
    var s := Run(s0, first);
    ReachableWork(env, 2, [], first);
    assert LeftToComplete(s.v);
    var rest := CompletesAndDangles(s);
    var w := Next(s, Destroy);
    RunOne(s, Destroy);
    RunAppend(s, [Destroy], rest);
    RunAppend(s0, first, [Destroy] + rest);
    NextKeeps(s, Destroy);
    DestroyAccepts(s);
    AcceptedStays(w, rest);
    steps := first + ([Destroy] + rest);
    JustOne(Run(w, rest));
  }

  lemma DestroyAccepts(s: State)
    requires Quiesced(s)
    ensures Next(s, Destroy).accepted == s.accepted && !Next(s, Destroy).teardown.Alive?
  {
  }

  lemma JustOne(s: State)
    requires GivesAllBack(s) && s.accepted == 1
    ensures s.givenBack == [0]
  {
    assert forall h: Ticket :: multiset(s.givenBack)[h] == multiset{0}[h];
    assert multiset(s.givenBack) == multiset{0};
    assert |s.givenBack| == |multiset(s.givenBack)| == 1;
    assert s.givenBack[0] in multiset(s.givenBack);
  }
}
