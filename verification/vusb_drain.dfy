/** When the teardown gets past its waits.

    The handler clears rflush the first time it runs after the flag was set, whether or not
    the ring has drained, and nothing sets it again. From then on answers are refused, so a
    request that was still owed keeps the teardown waiting.
*/
module VusbDrain {
  import opened VusbDevice
  import opened VusbSlots
  import opened VusbInvariants
  import opened VusbKeeps
  import opened VusbCompletion
  import opened VusbSections
  import opened VusbMachine
  import opened VusbRuns
  import opened VusbReach
  import opened VusbTheorems
  import opened VusbTeardown
  import opened VusbWork

  // ---- the wait for the ring ----------------------------------------------------------

  // Someone may still take answers off the ring.
  ghost predicate CanConsume(s: State) {
    s.v.flags.rflush || exists t :: 0 <= t < |s.threads| && s.threads[t] == InHandler(true)
  }

  ghost predicate CanDrain(s: State) {
    RingEmpty(s.v.ring) || CanConsume(s)
  }

  // Nobody will take an answer, and the ring is not empty.
  ghost predicate Stuck(s: State) {
    Waiting(s) && !CanDrain(s)
  }

  lemma AddsNotEmpties(v: Vdev, w: Vdev)
    requires OnlyAdds(v, w) && RingEmpty(w.ring)
    ensures RingEmpty(v.ring)
  {
  }

  lemma AdvanceAdds(s: State, t: nat)
    requires t < |s.threads| && (s.threads[t].InHandler? ==> s.threads[t] == InHandler(false) && !s.v.flags.rflush)
    ensures OnlyAdds(s.v, AdvanceThread(s, t).v)
  {
    hide ProcessSection, DequeueSection, PutInternal, ConsumeEach;
    match s.threads[t]
    case Submitting(h) => ProcessAdds(s.v, Some(h));
    case Working => ProcessAdds(s.v, None);
    case Cancelling(h) => DequeueAdds(s.v, h);
    case Resetting => PutInternalAdds(s.v, ResetRequest);
    case _ =>
  }

  lemma StuckAdvance(s: State, t: nat)
    requires Stuck(s)
    ensures Stuck(AdvanceThread(s, t)) && AdvanceThread(s, t).teardown == s.teardown
  {
    hide AdvanceThread, OnlyAdds, RingEmpty;
    if t < |s.threads| {
      var w := AdvanceThread(s, t);
      AdvanceShape(s, t);
      assert s.threads[t] != InHandler(true);
      AdvanceAdds(s, t);
      if RingEmpty(w.v.ring) {
        AddsNotEmpties(s.v, w.v);
      }
      assert w.v.flags.rflush == s.v.flags.rflush by { AddsKeepsFlag(s.v, w.v); }
      forall k | 0 <= k < |w.threads| ensures w.threads[k] != InHandler(true) {
        assert k != t ==> w.threads[k] == s.threads[k];
      }
    } else {
      AdvanceNobody(s, t);
    }
  }

  lemma AddsKeepsFlag(v: Vdev, w: Vdev)
    requires OnlyAdds(v, w)
    ensures w.flags.rflush == v.flags.rflush
  {
  }

  lemma StuckStep(s: State, step: Step)
    requires PortInv(s) && Stuck(s)
    ensures Stuck(Next(s, step)) && (s.teardown.Draining? ==> Next(s, step).teardown.Draining?)
  {
    hide TicketInv, DeviceInv, SubmitInv, CancelInv, AdvanceThread;
    match step
    case Advance(t) => StuckAdvance(s, t);
    case Read => BackendEmpties(s, step);
    case Answer(_) => BackendEmpties(s, step);
    case _ =>
  }

  lemma BackendEmpties(s: State, step: Step)
    requires step.Read? || step.Answer?
    ensures RingEmpty(Next(s, step).v.ring) <==> RingEmpty(s.v.ring)
    ensures Next(s, step) == s.(v := s.v.(ring := Next(s, step).v.ring))
  {
  }

  lemma {:induction false} StuckForever(s: State, steps: seq<Step>)
    requires PortInv(s) && Stuck(s)
    ensures PortInv(Run(s, steps)) && Stuck(Run(s, steps))
    ensures s.teardown.Draining? ==> Run(s, steps).teardown.Draining?
    decreases |steps|
  {
    hide PortInv, Stuck, Next;
    if steps != [] {
      NextKeeps(s, steps[0]);
      StuckStep(s, steps[0]);
      StuckForever(Next(s, steps[0]), steps[1..]);
    }
  }

  // The backend answers everything, and a thread in the handler takes it.
  lemma ConsumesAll(s: State, t: nat)
    requires PortInv(s) && !DeviceGone(s) && t < |s.threads| && s.threads[t].InHandler?
    requires s.threads[t].processing || s.v.flags.rflush
    requires s.v.ring.reqs == [] && s.v.ring.held == multiset{}
    ensures var w := AdvanceThread(s, t); RingEmpty(w.v.ring) && w.teardown == s.teardown
  {
    hide TicketInv, SubmitInv, CancelInv, Inv, Settled, ConsumeEach;
    InterruptKeeps(s.v, s.threads[t].processing);
  }

  lemma Drains(s: State, t: nat)
    requires PortInv(s) && s.teardown.Draining? && t < |s.threads| && s.threads[t].InHandler?
    requires s.threads[t].processing || s.v.flags.rflush
    requires s.v.ring.reqs == [] && s.v.ring.held == multiset{}
    ensures Next(Next(s, Advance(t)), TeardownNext).teardown.Drained?
  {
    hide PortInv, AdvanceThread;
    ConsumesAll(s, t);
  }

  lemma Answered(s: State) returns (steps: seq<Step>, w: State)
    requires PortInv(s)
    ensures w == Run(s, steps) && PortInv(w) && w == s.(v := w.v)
    ensures w.v.ring.reqs == [] && w.v.ring.held == multiset{} && w.v.flags == s.v.flags
  {
    var rsps: seq<nat>;
    steps, rsps := BackendCanAnswerAll(s);
    w := Run(s, steps);
    RunKeeps(s, steps);
  }

  lemma CanLeaveDraining(s: State) returns (steps: seq<Step>)
    requires PortInv(s) && s.teardown.Draining? && CanDrain(s)
    ensures Run(s, steps).teardown.Drained?
  {
    hide PortInv, AdvanceThread;
    if RingEmpty(s.v.ring) {
      steps := [TeardownNext];
      RunOne(s, TeardownNext);
    } else {
      var answers, w := Answered(s);
      var more: seq<Step>;
      if t :| 0 <= t < |s.threads| && s.threads[t] == InHandler(true) {
        Drains(w, t);
        RunTwo(w, Advance(t), TeardownNext);
        more := [Advance(t), TeardownNext];
      } else {
        more := FlushDrains(w);
      }
      RunAppend(s, answers, more);
      steps := answers + more;
    }
  }

  // A flush that is still wanted takes everything with one more interrupt.
  lemma FlushDrains(s: State) returns (steps: seq<Step>)
    requires PortInv(s) && s.teardown.Draining? && s.v.flags.rflush
    requires s.v.ring.reqs == [] && s.v.ring.held == multiset{}
    ensures Run(s, steps).teardown.Drained?
  {
    var n := |s.threads|;
    var s1 := Next(s, Irq);
    NextKeeps(s, Irq);
    ClosedIrq(s);
    Drains(s1, n);
    steps := [Irq] + [Advance(n), TeardownNext];
    RunOne(s, Irq);
    RunTwo(s1, Advance(n), TeardownNext);
    RunAppend(s, [Irq], [Advance(n), TeardownNext]);
  }

  lemma ClosedIrq(s: State)
    requires s.closing && !DeviceGone(s)
    ensures Next(s, Irq) == s.(threads := s.threads + [InHandler(false)])
  {
  }

  predicate NoWorkRuns(s: State) {
    !SomeRun(s, s.work.workers) && !SomeRun(s, s.work.portWorkers)
  }

  // A worker takes what the flush waits for, and the flush ends.
  function FlushSteps(s: State): seq<Step>
    requires s.teardown.Flushing? || s.teardown.FlushingWork?
  {
    [if s.teardown.Flushing? then PortWork else Work, TeardownNext]
  }

  lemma FlushEnds(s: State)
    requires PortInv(s) && WorkInv(s) && NoWorkRuns(s) && (s.teardown.Flushing? || s.teardown.FlushingWork?)
    ensures var w := Run(s, FlushSteps(s));
            && PortInv(w) && WorkInv(w) && NoWorkRuns(w)
            && w.teardown == (if s.teardown.Flushing? then FlushingWork else Draining)
            && w.threads == s.threads && w.v == s.v.(flags := w.v.flags) && w.v.flags.rflush == s.v.flags.rflush
            && w.processing == s.processing && w.givenBack == s.givenBack
  {
    hide Run;
    RunTwo(s, FlushSteps(s)[0], TeardownNext);
    RunWork(s, FlushSteps(s));
    ClosedTakes(s);
    hide PortInv, WorkInv, Next;
    var s1 := Next(s, FlushSteps(s)[0]);
    FlushStepEnds(s1);
  }

  lemma ClosedTakes(s: State)
    requires PortInv(s) && WorkInv(s) && NoWorkRuns(s) && (s.teardown.Flushing? || s.teardown.FlushingWork?)
    ensures var w := Next(s, FlushSteps(s)[0]);
            && w == s.(v := s.v.(flags := w.v.flags), work := s.work.(portQueued := w.work.portQueued, barrier := false))
            && w.v.flags.rflush == s.v.flags.rflush && NoWorkRuns(w)
  {
    hide TicketInv, DeviceInv, SubmitInv, CancelInv, SomeRun;
    var w := Next(s, FlushSteps(s)[0]);
    assert w.threads == s.threads && w.work.workers == s.work.workers && w.work.portWorkers == s.work.portWorkers;
    SameRuns(s, w);
  }

  lemma SameRuns(s: State, w: State)
    requires w.threads == s.threads
    ensures forall k :: SomeRun(w, k) <==> SomeRun(s, k)
  {
  }

  lemma FlushStepEnds(s: State)
    requires NoWorkRuns(s) && (s.teardown.Flushing? || s.teardown.FlushingWork?) && !s.work.barrier
    ensures var w := Next(s, TeardownNext);
            && w == s.(teardown := if s.teardown.Flushing? then FlushingWork else Draining, work := w.work)
            && NoWorkRuns(w)
  {
    var w := Next(s, TeardownNext);
    SameRuns(s, w);
    hide SomeRun;
  }

  // Nothing runs; the flushes end one after the other.
  lemma FlushesEnd(s: State) returns (steps: seq<Step>)
    requires PortInv(s) && WorkInv(s) && Waiting(s) && NoWorkRuns(s)
    ensures var w := Run(s, steps);
            && PortInv(w) && WorkInv(w) && w.teardown.Draining?
            && w.threads == s.threads && w.v == s.v.(flags := w.v.flags) && w.v.flags.rflush == s.v.flags.rflush
            && w.processing == s.processing && w.givenBack == s.givenBack
    decreases if s.teardown.Flushing? then 2 else if s.teardown.FlushingWork? then 1 else 0
  {
    if s.teardown.Draining? {
      steps := [];
    } else {
      hide PortInv, WorkInv, Run, NoWorkRuns;
      FlushEnds(s);
      var rest := FlushesEnd(Run(s, FlushSteps(s)));
      RunAppend(s, FlushSteps(s), rest);
      steps := FlushSteps(s) + rest;
    }
  }

  lemma CanStopWaiting(s: State) returns (steps: seq<Step>)
    requires PortInv(s) && WorkInv(s) && Waiting(s) && NoWorkRuns(s) && CanDrain(s)
    ensures Run(s, steps).teardown.Drained?
  {
    hide PortInv, WorkInv, Run, NoWorkRuns;
    var first := FlushesEnd(s);
    var rest := CanLeaveDraining(Run(s, first));
    RunAppend(s, first, rest);
    steps := first + rest;
  }
}
