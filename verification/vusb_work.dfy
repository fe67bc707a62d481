/** Work items: the port work, which resets the port, and the device work.

    The teardown flushes both. A flush waits for the item that is queued when it begins and
    for every worker that runs, but not for what is queued later.
*/
module VusbWork {
  import opened VusbDevice
  import opened VusbSlots
  import opened VusbInvariants
  import opened VusbKeeps
  import opened VusbCompletion
  import opened VusbSections
  import opened VusbMachine
  import opened VusbRuns
  import opened VusbReach
  import opened VusbTheorems

  // ---- work items -------------------------------------------------------------------

  predicate Resets(pc: Thread) {
    pc.Resetting? || pc.AwaitingReset?
  }

  predicate OfWork(pc: Thread) {
    pc.Working? || pc.GivingBack? || pc.Gone?
  }

  predicate OfPortWork(pc: Thread) {
    Resets(pc) || pc.Leaving? || pc.Gone?
  }

  // Which threads run work items.
  ghost predicate WorkersInv(s: State) {
    && (forall t :: t in s.work.workers ==> t < |s.threads| && OfWork(s.threads[t]))
    && (forall t :: t in s.work.portWorkers ==> t < |s.threads| && OfPortWork(s.threads[t]))
    && (forall t :: 0 <= t < |s.threads| && Resets(s.threads[t]) ==> t in s.work.portWorkers)
  }

  // The gate lets one reset at a time through.
  ghost predicate GateInv(s: State) {
    && (forall t :: 0 <= t < |s.threads| && Resets(s.threads[t]) ==> s.work.resetPending && !s.work.portQueued)
    && (forall t, k :: 0 <= t < k < |s.threads| && Resets(s.threads[t]) ==> !Resets(s.threads[k]))
    && (s.work.portQueued && !s.teardown.Returned? ==> s.work.resetPending)
  }

  // What the flushes have waited for, and wait for.
  ghost predicate FlushInv(s: State) {
    && (s.closing && !s.teardown.Closing? && !s.teardown.Flushing? ==> !SomeRun(s, s.work.portWorkers))
    && (s.closing && !s.teardown.Closing? && !s.teardown.Flushing? && !s.teardown.FlushingWork? ==>
          !SomeRun(s, s.work.workers))
    && (s.teardown.Flushing? && s.work.barrier ==> s.work.portQueued)
    && (s.teardown.FlushingWork? && s.work.barrier ==> s.v.flags.workQueued)
  }

  ghost predicate WorkInv(s: State) {
    WorkersInv(s) && GateInv(s) && FlushInv(s)
  }

  // A thread at was may be at pc after its next step.
  ghost predicate Follows(was: Thread, pc: Thread) {
    && (pc.InHandler? || pc.Resetting? || pc.Submitting? || pc.Cancelling? ==> pc == was)
    && (pc.AwaitingReset? ==> Resets(was))
    && (was.Gone? ==> pc.Gone?)
    && (OfWork(was) ==> OfWork(pc))
    && (OfPortWork(was) ==> OfPortWork(pc))
  }

  // Only thread t has moved; the gate opens when a reset is over.
  ghost predicate OneMoved(s: State, w: State, t: nat)
    requires t < |s.threads|
  {
    && |w.threads| == |s.threads| && w.threads == s.threads[t := w.threads[t]] && Follows(s.threads[t], w.threads[t])
    && w.closing == s.closing && w.teardown == s.teardown
    && (w.work == s.work
        || (w.work == s.work.(resetPending := false) && s.threads[t].AwaitingReset? && w.threads[t].Leaving?))
  }

  // ---- a section never empties the ring, unqueues the work or sets rflush -----------------

  // What was queued, or will be by the grant callback, still is.
  ghost predicate KeepsQueued(v: Vdev, w: Vdev) {
    (v.flags.workQueued ==> w.flags.workQueued) && (v.flags.armed ==> w.flags.armed)
  }

  // Requests may have been added; nothing was taken off, and rflush is as it was.
  ghost predicate OnlyAdds(v: Vdev, w: Vdev) {
    && KeepsQueued(v, w)
    && v.ring.reqs <= w.ring.reqs && w.ring.held == v.ring.held && w.ring.rsps == v.ring.rsps
    && w.flags.rflush == v.flags.rflush
  }

  lemma PutUrbAdds(v: Vdev, h: Ticket)
    requires h in v.urbps
    ensures OnlyAdds(v, PutUrb(v, h).0)
  {
    hide Attach, PutShadow;
  }

  lemma SendUrbAdds(v: Vdev, h: Ticket)
    requires h in v.urbps
    ensures OnlyAdds(v, SendUrb(v, h))
  {
    hide PutUrb, Without;
    PutUrbAdds(v, h);
  }

  lemma {:induction false} SendEachAdds(v: Vdev, hs: seq<Ticket>)
    ensures OnlyAdds(v, SendEach(v, hs))
    decreases |hs|
  {
    hide SendUrb;
    if hs != [] {
      if hs[0] in v.urbps {
        SendUrbAdds(v, hs[0]);
        SendEachAdds(SendUrb(v, hs[0]), hs[1..]);
      } else {
        SendEachAdds(Bug(v), hs[1..]);
      }
    }
  }

  lemma {:induction false} FinishEachAdds(v: Vdev, hs: seq<Ticket>)
    ensures OnlyAdds(v, FinishEach(v, hs))
    decreases |hs|
  {
    hide PutShadow, Without;
    if hs != [] {
      if hs[0] in v.urbps && v.urbps[hs[0]].rspId < |v.slots.shadows| {
        FinishEachAdds(FinishUrb(v, hs[0]), hs[1..]);
      } else {
        FinishEachAdds(Bug(v), hs[1..]);
      }
    }
  }

  lemma ProcessAdds(v: Vdev, arrival: Option<Ticket>)
    ensures OnlyAdds(v, ProcessSection(v, arrival).0)
  {
    hide FinishEach, SendEach;
    FinishEachAdds(v, v.lists.finish);
    var v1 := Append(FinishEach(v, v.lists.finish), arrival);
    SendEachAdds(v1, v1.lists.pending);
  }

  lemma PutInternalAdds(v: Vdev, kind: RequestKind)
    ensures OnlyAdds(v, PutInternal(v, kind).0)
  {
  }

  lemma DequeueAdds(v: Vdev, h: Ticket)
    ensures OnlyAdds(v, DequeueSection(v, h))
  {
    hide PutInternal, Without;
    if h in v.lists.pending && h in v.urbps && v.urbps[h].state.Sent? {
      PutInternalAdds(SetState(v, h, Cancel), CancelRequest(v.urbps[h].id));
    }
  }

  lemma {:induction false} ConsumeEachQueued(v: Vdev)
    ensures KeepsQueued(v, ConsumeEach(v))
    decreases |v.ring.rsps|
  {
    hide PutShadow, Without;
    if v.ring.rsps != [] && v.ring.rsps[0] < |v.slots.shadows| {
      ConsumeEachQueued(ConsumeResponse(v));
    }
  }

  lemma InterruptQueued(v: Vdev, processing: bool)
    ensures KeepsQueued(v, InterruptSection(v, processing))
  {
    hide ConsumeEach;
    ConsumeEachQueued(v);
  }

  // Only a worker takes the device work off its queue.
  lemma AdvanceQueued(s: State, t: nat)
    ensures KeepsQueued(s.v, AdvanceThread(s, t).v)
  {
    hide ProcessSection, DequeueSection, InterruptSection, PutInternal;
    if t < |s.threads| {
      match s.threads[t]
      case Submitting(h) => ProcessAdds(s.v, Some(h));
      case Working => ProcessAdds(s.v, None);
      case Cancelling(h) => DequeueAdds(s.v, h);
      case InHandler(processing) => InterruptQueued(s.v, processing);
      case Resetting => PutInternalAdds(s.v, ResetRequest);
      case _ =>
    }
  }

  // ---- every step keeps the work items in order ---------------------------------------

  lemma AdvanceShape(s: State, t: nat)
    requires t < |s.threads|
    ensures OneMoved(s, AdvanceThread(s, t), t)
  {
    hide AdvanceThread, OneMoved, Follows;
    var was := s.threads[t];
    if was.Submitting? || was.Working? || was.Cancelling? {
      SectionShape(s, t);
    } else if was.InHandler? || was.Resetting? || was.AwaitingReset? {
      HandlerShape(s, t);
    } else {
      LeavingShape(s, t);
    }
  }

  lemma SectionShape(s: State, t: nat)
    requires t < |s.threads| && (s.threads[t].Submitting? || s.threads[t].Working? || s.threads[t].Cancelling?)
    ensures OneMoved(s, AdvanceThread(s, t), t)
  {
    hide ProcessSection, DequeueSection, OneMoved;
    var w := AdvanceThread(s, t);
    match s.threads[t]
    case Submitting(h) => MovedTo(s, w, t, GivingBack(ProcessSection(s.v, Some(h)).1));
    case Working => MovedTo(s, w, t, GivingBack(ProcessSection(s.v, None).1));
    case Cancelling(_) => MovedTo(s, w, t, Working);
  }

  lemma HandlerShape(s: State, t: nat)
    requires t < |s.threads| && (s.threads[t].InHandler? || s.threads[t].Resetting? || s.threads[t].AwaitingReset?)
    ensures OneMoved(s, AdvanceThread(s, t), t)
  {
    hide InterruptSection, PutInternal, OneMoved;
    var w := AdvanceThread(s, t);
    match s.threads[t]
    case InHandler(processing) => MovedTo(s, w, t, if processing then Leaving else Gone);
    case Resetting => MovedTo(s, w, t, if PutInternal(s.v, ResetRequest).1 then AwaitingReset else Leaving);
    case AwaitingReset => MovedTo(s, w, t, if s.v.flags.resetDone then Leaving else AwaitingReset);
  }

  lemma LeavingShape(s: State, t: nat)
    requires t < |s.threads| && (s.threads[t].GivingBack? || s.threads[t].Leaving? || s.threads[t].Gone?)
    ensures OneMoved(s, AdvanceThread(s, t), t)
  {
    hide OneMoved;
    var w := AdvanceThread(s, t);
    match s.threads[t]
    case GivingBack(out) => MovedTo(s, w, t, if out == [] then Gone else GivingBack(out[1..]));
    case Leaving => MovedTo(s, w, t, Gone);
    case Gone => MovedTo(s, w, t, Gone);
  }

  lemma MovedTo(s: State, w: State, t: nat, pc: Thread)
    requires t < |s.threads| && w.threads == s.threads[t := pc] && Follows(s.threads[t], pc)
    requires w.closing == s.closing && w.teardown == s.teardown
    requires w.work == s.work
             || (w.work == s.work.(resetPending := false) && s.threads[t].AwaitingReset? && pc.Leaving?)
    ensures OneMoved(s, w, t)
  {
  }

  lemma AdvanceWork(s: State, t: nat)
    requires WorkInv(s)
    ensures WorkInv(AdvanceThread(s, t))
  {
    hide AdvanceThread;
    if t < |s.threads| {
      AdvanceShape(s, t);
      AdvanceQueued(s, t);
      MovedWorkers(s, AdvanceThread(s, t), t);
      MovedGate(s, AdvanceThread(s, t), t);
      MovedFlush(s, AdvanceThread(s, t), t);
    } else {
      AdvanceNobody(s, t);
    }
  }

  lemma MovedWorkers(s: State, w: State, t: nat)
    requires WorkersInv(s) && t < |s.threads| && OneMoved(s, w, t)
    ensures WorkersInv(w)
  {
  }

  lemma MovedGate(s: State, w: State, t: nat)
    requires GateInv(s) && t < |s.threads| && OneMoved(s, w, t)
    ensures GateInv(w)
  {
    assert Resets(w.threads[t]) ==> Resets(s.threads[t]);
    forall k | 0 <= k < |w.threads| && Resets(w.threads[k]) ensures Resets(s.threads[k]) && w.work == s.work {
      if k < t {
        assert Resets(s.threads[k]) ==> !Resets(s.threads[t]);
      }
    }
  }

  lemma MovedFlush(s: State, w: State, t: nat)
    requires FlushInv(s) && t < |s.threads| && OneMoved(s, w, t) && KeepsQueued(s.v, w.v)
    ensures FlushInv(w)
  {
  }

  lemma AdvanceNobody(s: State, t: nat)
    requires t >= |s.threads|
    ensures AdvanceThread(s, t) == s
  {
  }

  // A thread has come in that runs no work item.
  lemma AppendWork(s: State, w: State, pc: Thread)
    requires WorkInv(s) && !Resets(pc) && w.threads == s.threads + [pc]
    requires w.work == s.work && w.closing == s.closing && w.teardown == s.teardown && w.v.flags == s.v.flags
    ensures WorkInv(w)
  {
    assert forall t :: 0 <= t < |s.threads| ==> w.threads[t] == s.threads[t];
  }

  // The threads are the same.
  lemma SameWork(s: State, w: State)
    requires WorkInv(s) && w.threads == s.threads && w.work == s.work && w.closing == s.closing
    requires w.teardown == s.teardown && (s.v.flags.workQueued ==> w.v.flags.workQueued)
    ensures WorkInv(w)
  {
  }

  lemma TakeWorkInv(s: State)
    requires PortInv(s) && WorkInv(s)
    ensures WorkInv(WorkStep(s))
  {
    hide TicketInv, DeviceInv, SubmitInv, CancelInv;
    var w := WorkStep(s);
    if s.v.flags.workQueued && MayStart(s) {
      assert w.threads == s.threads + [Working];
      assert forall t :: 0 <= t < |s.threads| ==> w.threads[t] == s.threads[t];
    }
  }

  lemma TakePortWorkInv(s: State)
    requires PortInv(s) && WorkInv(s)
    ensures WorkInv(PortWorkStep(s))
  {
    hide TicketInv, DeviceInv, SubmitInv, CancelInv;
    var w := PortWorkStep(s);
    if s.work.portQueued && MayStart(s) {
      assert w.threads == s.threads + [Resetting];
      assert forall t :: 0 <= t < |s.threads| ==> w.threads[t] == s.threads[t];
    }
  }

  lemma HubResetInv(s: State)
    requires WorkInv(s)
    ensures WorkInv(HubResetStep(s))
  {
  }

  lemma TeardownWork(s: State)
    requires PortInv(s) && WorkInv(s)
    ensures WorkInv(TeardownStep(s))
  {
    match s.teardown
    case Closing => StartFlush(s);
    case Flushing => NextFlush(s);
    case FlushingWork => NextFlush(s);
    case Freed => FreedWork(s);
    case _ => LaterWork(s);
  }

  lemma StartFlush(s: State)
    requires WorkInv(s) && s.teardown.Closing?
    ensures WorkInv(TeardownStep(s))
  {
    hide SomeRun;
  }

  lemma NextFlush(s: State)
    requires WorkInv(s) && (s.teardown.Flushing? || s.teardown.FlushingWork?)
    ensures WorkInv(TeardownStep(s))
  {
    var w := TeardownStep(s);
    assert w == s.(teardown := w.teardown, work := s.work.(barrier := w.work.barrier));
    assert SomeRun(w, w.work.workers) == SomeRun(s, s.work.workers);
    assert SomeRun(w, w.work.portWorkers) == SomeRun(s, s.work.portWorkers);
    hide SomeRun;
  }

  lemma LaterWork(s: State)
    requires PortInv(s) && WorkInv(s) && !s.teardown.Freed? && !s.teardown.Closing? && !s.teardown.Flushing? && !s.teardown.FlushingWork?
    ensures WorkInv(TeardownStep(s))
  {
    hide PortInv, FinishEach, RingEmpty, HandlerRunning;
    var w := TeardownStep(s);
    assert w.threads == s.threads && w.work == s.work && w.closing == s.closing;
    assert SomeRun(w, w.work.workers) == SomeRun(s, s.work.workers);
    assert SomeRun(w, w.work.portWorkers) == SomeRun(s, s.work.portWorkers);
    hide SomeRun;
  }

  lemma FreedWork(s: State)
    requires PortInv(s) && WorkInv(s) && s.teardown.Freed?
    ensures WorkInv(TeardownStep(s))
  {
    NoneInside(s.threads);
    FreedShape(s);
    hide PortInv, TeardownStep;
    ReturnedWork(s, TeardownStep(s));
  }

  lemma FreedShape(s: State)
    requires s.teardown.Freed?
    ensures var w := TeardownStep(s);
            && w.threads == s.threads
            && (w.work == s.work || w.work == s.work.(resetPending := false))
            && (w.work == s.work || w.teardown.Returned?)
            && (w.teardown == s.teardown || (w.teardown.Returned? && !w.closing))
            && (w.closing ==> s.closing)
  {
  }

  // Nobody runs any more.
  lemma ReturnedWork(s: State, w: State)
    requires WorkInv(s) && s.teardown.Freed? && w.threads == s.threads
    requires forall t :: 0 <= t < |s.threads| ==> !Inside(s.threads[t])
    requires w.work == s.work || (w.work == s.work.(resetPending := false) && w.teardown.Returned?)
    requires (w.teardown.Freed? && (w.closing ==> s.closing)) || (w.teardown.Returned? && !w.closing)
    ensures WorkInv(w)
  {
    assert SomeRun(w, w.work.workers) == SomeRun(s, s.work.workers);
    assert SomeRun(w, w.work.portWorkers) == SomeRun(s, s.work.portWorkers);
    hide SomeRun;
  }

  lemma DestroyWork(s: State)
    requires PortInv(s) && WorkInv(s)
    ensures WorkInv(Next(s, Destroy))
  {
    hide TicketInv, DeviceInv, SubmitInv, CancelInv;
  }

  lemma ArrivalWork(s: State, step: Step)
    requires PortInv(s) && WorkInv(s) && (step.Enqueue? || step.Dequeue? || step.Irq?)
    ensures WorkInv(Next(s, step))
  {
    hide PortInv, WorkInv;
    var w := Next(s, step);
    if |w.threads| == |s.threads| {
      SameWork(s, w);
    } else {
      AppendWork(s, w, w.threads[|s.threads|]);
    }
  }

  lemma WorkKeeps(s: State, step: Step)
    requires PortInv(s) && WorkInv(s)
    ensures WorkInv(Next(s, step))
  {
    hide PortInv, WorkInv, PutInternal, AdvanceThread, TeardownStep, WorkStep, PortWorkStep, HubResetStep, EnqueueStep, DequeueStep,
      IrqStep;
    match step
    case Advance(t) => AdvanceWork(s, t);
    case Work => TakeWorkInv(s);
    case PortWork => TakePortWorkInv(s);
    case HubReset => HubResetInv(s);
    case TeardownNext => TeardownWork(s);
    case Destroy => DestroyWork(s);
    case Enqueue(_, _) => ArrivalWork(s, step);
    case Dequeue(_) => ArrivalWork(s, step);
    case Irq => ArrivalWork(s, step);
    case SpeedQuery =>
      PutInternalAdds(s.v, SpeedRequest);
      SameWork(s, Next(s, step));
    case _ => SameWork(s, Next(s, step));
  }

  lemma {:induction false} RunWork(s: State, steps: seq<Step>)
    requires PortInv(s) && WorkInv(s)
    ensures PortInv(Run(s, steps)) && WorkInv(Run(s, steps))
    decreases |steps|
  {
    hide PortInv, WorkInv, Next;
    if steps != [] {
      NextKeeps(s, steps[0]);
      WorkKeeps(s, steps[0]);
      RunWork(Next(s, steps[0]), steps[1..]);
    }
  }

  lemma ReachableWork(env: Env, ringSize: nat, pool: seq<Gref>, steps: seq<Step>)
    requires Distinct(pool)
    ensures var s := Run(Init(env, ringSize, pool), steps); PortInv(s) && WorkInv(s)
  {
    hide PortInv, Run;
    InitInv(env, ringSize, pool);
    RunWork(Init(env, ringSize, pool), steps);
  }
}
