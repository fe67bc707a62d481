/** Exactly when the teardown gets past its waits, whatever work items run.

    A worker that still has a reset to send, or a pending urbp that its section is sure to
    send, loads the ring again; once the flush is used up nobody takes the answer.
*/
module VusbFlush {
  import opened VusbDevice
  import opened VusbSlots
  import opened VusbInvariants
  import opened VusbKeeps
  import opened VusbCompletion
  import opened VusbSections
  import opened VusbMachine
  import opened VusbRuns
  import opened VusbReach
  import opened VusbTheorems
  import opened VusbWork
  import opened VusbTeardown
  import opened VusbGrants
  import opened VusbDrain
  import opened VusbReturn
  import opened VusbSends
  import opened VusbResets

  // A worker of the port work will send its reset.
  ghost predicate WillReset(s: State) {
    s.v.slots.free != [] && exists t :: 0 <= t < |s.threads| && s.threads[t].Resetting?
  }

  // Pending urbp h has to be sent by the next section, and nobody is about to unlink it.
  ghost predicate MustSend(s: State, h: Ticket) {
    && SendsAlone(s.v, h, |s.v.slots.grants.active|)
    && forall t :: 0 <= t < |s.threads| ==> s.threads[t] != Cancelling(h)
  }

  // A worker of the device work is about to run a section that has to send.
  ghost predicate WillSend(s: State) {
    && (exists t :: t in s.work.workers && t < |s.threads| && s.threads[t].Working?)
    && (exists h :: MustSend(s, h))
  }

  // The waits can end.
  ghost predicate CanStop(s: State) {
    CanConsume(s) || (RingEmpty(s.v.ring) && !WillReset(s) && !WillSend(s))
  }

  ghost predicate Blocked(s: State) {
    Waiting(s) && !CanStop(s)
  }

  // ---- a blocked teardown stays blocked ---------------------------------------------------------

  // Nobody takes an answer in this step, and the ring does not get emptier.
  lemma NotConsumed(s: State, t: nat)
    requires t < |s.threads| && Waiting(s) && !CanConsume(s)
    ensures var w := AdvanceThread(s, t);
            && w.teardown == s.teardown && !CanConsume(w) && OnlyAdds(s.v, w.v)
            && (RingEmpty(w.v.ring) ==> RingEmpty(s.v.ring) && w.v.ring == s.v.ring)
  {
    hide AdvanceThread, OnlyAdds, RingEmpty;
    var w := AdvanceThread(s, t);
    AdvanceShape(s, t);
    AdvanceAdds(s, t);
    AddsKeepsFlag(s.v, w.v);
    if RingEmpty(w.v.ring) {
      AddsNotEmpties(s.v, w.v);
      BothEmpty(s.v.ring, w.v.ring);
    }
    forall k | 0 <= k < |w.threads| ensures w.threads[k] != InHandler(true) {
      assert k != t ==> w.threads[k] == s.threads[k];
    }
  }

  lemma BothEmpty(r: Ring, q: Ring)
    requires RingEmpty(r) && RingEmpty(q)
    ensures r == q
  {
  }

  // The finish list of a section never grows.
  lemma AdvanceFinish(s: State, t: nat)
    requires PortInv(s) && Waiting(s) && t < |s.threads| && !CanConsume(s)
    ensures Inv(AdvanceThread(s, t).v) && |AdvanceThread(s, t).v.slots.shadows| == |s.v.slots.shadows|
    ensures |AdvanceThread(s, t).v.lists.finish| <= |s.v.lists.finish|
  {
    AdvanceKeeps(s, t);
    AdvanceSize(s, t);
    var w := AdvanceThread(s, t);
    AdvanceShape(s, t);
    assert Inv(w.v);
    if Inside(s.threads[t]) {
      InsideMeansAlive(s, t);
      if s.threads[t].Submitting? {
        NotHeldNotListed(s, t);
      }
    }
    hide PortInv, Inv, Settled;
    FinishShrinks(s, t);
  }

  lemma FinishShrinks(s: State, t: nat)
    requires PortInv(s) && Waiting(s) && t < |s.threads| && !CanConsume(s)
    requires Inside(s.threads[t]) ==> Inv(s.v) && Settled(s.v)
    requires s.threads[t].Submitting? ==> MayArrive(s.v, Some(s.threads[t].urbp))
    ensures |AdvanceThread(s, t).v.lists.finish| <= |s.v.lists.finish|
  {
    hide Inv, Settled, MayArrive, ProcessSection, ConsumeEach;
    match s.threads[t]
    case Submitting(h) => ProcessKeeps(s.v, Some(h));
    case Working => ProcessKeeps(s.v, None);
    case Cancelling(h) =>
      hide PortInv;
      DequeueShrinks(s.v, h);
    case _ => hide PortInv;
  }

  lemma DequeueShrinks(v: Vdev, h: Ticket)
    requires Inv(v)
    ensures |DequeueSection(v, h).lists.finish| <= |v.lists.finish|
  {
    NotOnTwoLists(v, h);
    if h in v.lists.pending {
      WithoutAbsent(v.lists.finish, h);
    }
    hide Inv;
  }

  // With the ring empty before and after, free slots are not used up.
  lemma StillFree(s: State, t: nat)
    requires PortInv(s) && Waiting(s) && t < |s.threads| && !CanConsume(s)
    requires RingEmpty(s.v.ring) && RingEmpty(AdvanceThread(s, t).v.ring) && s.v.slots.free != []
    ensures AdvanceThread(s, t).v.slots.free != []
  {
    AdvanceFinish(s, t);
    assert Inv(s.v);
    hide PortInv, AdvanceThread;
    SlotConservation(s.v);
    SlotConservation(AdvanceThread(s, t).v);
  }

  lemma ResetStaysDue(s: State, t: nat)
    requires PortInv(s) && Waiting(s) && t < |s.threads| && !CanConsume(s) && WillReset(s)
    requires RingEmpty(s.v.ring) && RingEmpty(AdvanceThread(s, t).v.ring)
    ensures WillReset(AdvanceThread(s, t))
  {
    StillFree(s, t);
    AdvanceShape(s, t);
    if s.threads[t].Resetting? {
      ResetIsSent(s, t);
    } else {
      hide AdvanceThread, PortInv;
      var r :| 0 <= r < |s.threads| && s.threads[r].Resetting?;
      assert AdvanceThread(s, t).threads[r].Resetting?;
    }
  }

  lemma ResetIsSent(s: State, t: nat)
    requires PortInv(s) && Waiting(s) && t < |s.threads| && s.threads[t].Resetting? && s.v.slots.free != []
    ensures AdvanceThread(s, t).v.ring.reqs != []
  {
    var i, x := InternalEffect(s.v, ResetRequest);
  }

  // A section runs.
  predicate RunsSection(pc: Thread) {
    pc.Submitting? || pc.Working?
  }

  lemma SectionSends(s: State, t: nat, h: Ticket)
    requires PortInv(s) && Waiting(s) && t < |s.threads| && RunsSection(s.threads[t])
    requires RingEmpty(s.v.ring) && MustSend(s, h)
    ensures AdvanceThread(s, t).v.ring.reqs != []
  {
    InsideMeansAlive(s, t);
    if s.threads[t].Submitting? {
      NotHeldNotListed(s, t);
    }
    hide PortInv, Inv, Settled, ProcessSection;
    match s.threads[t]
    case Submitting(k) => ProcessSends(s.v, Some(k), h);
    case Working => ProcessSends(s.v, None, h);
  }

  // What has to be sent still has to be sent.
  lemma SendStaysDue(s: State, t: nat, h: Ticket)
    requires PortInv(s) && Waiting(s) && t < |s.threads| && !CanConsume(s) && MustSend(s, h)
    requires RingEmpty(s.v.ring) && RingEmpty(AdvanceThread(s, t).v.ring) && !RunsSection(s.threads[t])
    ensures MustSend(AdvanceThread(s, t), h)
  {
    AdvanceShape(s, t);
    var w := AdvanceThread(s, t);
    match s.threads[t]
    case Cancelling(k) => CancelSpares(s, t, k, h);
    case GivingBack(out) => GiveBackSpares(s, t, h);
    case Resetting =>
      PutInternalSilent(s.v, ResetRequest);
      assert w.v == s.v;
    case _ => SparesAlone(s.v, w.v, h);
    StaysUncancelled(s, w, t, h);
  }

  lemma StaysUncancelled(s: State, w: State, t: nat, h: Ticket)
    requires t < |s.threads| && OneMoved(s, w, t)
    requires forall k :: 0 <= k < |s.threads| ==> s.threads[k] != Cancelling(h)
    ensures forall k :: 0 <= k < |w.threads| ==> w.threads[k] != Cancelling(h)
  {
    forall k | 0 <= k < |w.threads| ensures w.threads[k] != Cancelling(h) {
      assert s.threads[k] != Cancelling(h);
    }
  }

  // Only the flags have changed.
  lemma SparesAlone(v: Vdev, w: Vdev, h: Ticket)
    requires SendsAlone(v, h, |v.slots.grants.active|)
    ensures w == v.(flags := w.flags) ==> SendsAlone(w, h, |w.slots.grants.active|)
  {
  }

  lemma PutInternalSilent(v: Vdev, kind: RequestKind)
    requires Inv(v) && RingEmpty(PutInternal(v, kind).0.ring)
    ensures PutInternal(v, kind).0 == v
  {
    if v.slots.free != [] {
      var i, x := InternalEffect(v, kind);
    }
  }

  // With the ring empty no pending urbp has been sent.
  lemma NoneSent(v: Vdev, k: Ticket)
    requires Inv(v) && RingEmpty(v.ring) && k in v.lists.pending
    ensures k in v.urbps && !v.urbps[k].state.Sent?
  {
    assert PendingLinked(v, k);
  }

  lemma CancelSpares(s: State, t: nat, k: Ticket, h: Ticket)
    requires PortInv(s) && Waiting(s) && t < |s.threads| && s.threads[t] == Cancelling(k) && h != k
    requires RingEmpty(s.v.ring) && SendsAlone(s.v, h, |s.v.slots.grants.active|)
    ensures var w := AdvanceThread(s, t); SendsAlone(w.v, h, |w.v.slots.grants.active|) && w.v.ring == s.v.ring
  {
    if k in s.v.lists.pending {
      NoneSent(s.v, k);
      OtherStays(s.v.lists.pending, k, h);
    }
    hide PortInv, Without;
  }

  lemma GiveBackSpares(s: State, t: nat, h: Ticket)
    requires PortInv(s) && Waiting(s) && t < |s.threads| && s.threads[t].GivingBack?
    requires SendsAlone(s.v, h, |s.v.slots.grants.active|)
    ensures var w := AdvanceThread(s, t); SendsAlone(w.v, h, |w.v.slots.grants.active|)
  {
    var out := s.threads[t].out;
    if out != [] {
      assert Holds(s.threads[t])[out[0]] > 0 by {
        assert out[0] in multiset(out);
      }
      HeldOnce(s, t, out[0]);
      assert h in multiset(s.v.lists.pending);
      assert h != out[0];
    }
    hide PortInv;
  }

  lemma BlockedAdvance(s: State, t: nat)
    requires PortInv(s) && WorkInv(s) && Blocked(s)
    ensures Blocked(AdvanceThread(s, t))
  {
    hide WorkInv, AdvanceThread, WillReset, MustSend, CanConsume, RingEmpty;
    if t < |s.threads| {
      var w := AdvanceThread(s, t);
      NotConsumed(s, t);
      AdvanceShape(s, t);
      if RingEmpty(w.v.ring) {
        if WillReset(s) {
          ResetStaysDue(s, t);
        } else {
          SendStaysBlocked(s, t);
        }
      }
    } else {
      AdvanceNobody(s, t);
    }
  }

  lemma SendStaysBlocked(s: State, t: nat)
    requires PortInv(s) && Waiting(s) && t < |s.threads| && !CanConsume(s) && WillSend(s)
    requires RingEmpty(s.v.ring) && RingEmpty(AdvanceThread(s, t).v.ring)
    ensures WillSend(AdvanceThread(s, t))
  {
    hide PortInv, AdvanceThread, MustSend, CanConsume;
    var w := AdvanceThread(s, t);
    var h :| MustSend(s, h);
    if RunsSection(s.threads[t]) {
      SectionSends(s, t, h);
    } else {
      SendStaysDue(s, t, h);
      AdvanceShape(s, t);
      var k :| k in s.work.workers && k < |s.threads| && s.threads[k].Working?;
      assert k in w.work.workers && w.threads[k].Working?;
    }
  }

  // What being blocked depends on is the same.
  ghost predicate SameToBlocked(s: State, w: State) {
    && w.v.ring == s.v.ring && w.v.flags.rflush == s.v.flags.rflush && w.v.slots.free == s.v.slots.free
    && |w.v.slots.shadows| == |s.v.slots.shadows| && w.v.slots.grants.active == s.v.slots.grants.active
    && w.v.lists == s.v.lists && w.v.urbps == s.v.urbps && w.v.env.maxSegments == s.v.env.maxSegments
    && w.work.workers == s.work.workers
    && (w.threads == s.threads || w.threads == s.threads + [InHandler(false)])
  }

  lemma SameBlocked(s: State, w: State)
    requires SameToBlocked(s, w) && !CanStop(s)
    ensures !CanStop(w)
  {
    forall t | 0 <= t < |w.threads| ensures w.threads[t] != InHandler(true) {
      assert t < |s.threads| ==> w.threads[t] == s.threads[t];
    }
    if WillReset(s) {
      var t :| 0 <= t < |s.threads| && s.threads[t].Resetting?;
      assert w.threads[t].Resetting?;
    }
    if WillSend(s) {
      var t :| t in s.work.workers && t < |s.threads| && s.threads[t].Working?;
      assert w.threads[t].Working?;
      var h :| MustSend(s, h);
      assert MustSend(w, h);
    }
  }

  lemma QuietStep(s: State, step: Step)
    requires PortInv(s) && Waiting(s)
    requires !step.Advance? && !step.Read? && !step.Answer? && !step.TeardownNext?
    ensures SameToBlocked(s, Next(s, step)) && Waiting(Next(s, step))
  {
    assert s.closing && !s.teardown.Alive?;
    hide PortInv, PoolAllowed, Waiting, PutInternal;
    ShutStep(s, step);
  }

  lemma ShutStep(s: State, step: Step)
    requires s.closing && Waiting(s)
    requires !step.Advance? && !step.Read? && !step.Answer? && !step.TeardownNext?
    ensures SameToBlocked(s, Next(s, step)) && Next(s, step).teardown == s.teardown
  {
    hide PoolAllowed, PutInternal, TeardownStep, AdvanceThread;
  }

  // The backend moves requests on the ring, and leaves an empty ring empty.
  lemma BlockedBackend(s: State, step: Step)
    requires Blocked(s) && (step.Read? || step.Answer?)
    ensures Blocked(Next(s, step))
  {
    BackendEmpties(s, step);
    var w := Next(s, step);
    if RingEmpty(s.v.ring) {
      assert w == s;
    } else {
      hide Next, RingEmpty, WillReset, WillSend;
      assert CanConsume(w) ==> CanConsume(s);
    }
  }

  lemma BlockedTeardown(s: State)
    requires PortInv(s) && WorkInv(s) && Blocked(s)
    ensures Blocked(TeardownStep(s))
  {
    var w := TeardownStep(s);
    if WillReset(s) {
      var t :| 0 <= t < |s.threads| && s.threads[t].Resetting?;
      assert t in s.work.portWorkers;
      assert SomeRun(s, s.work.portWorkers);
    }
    if WillSend(s) {
      var t :| t in s.work.workers && t < |s.threads| && s.threads[t].Working?;
      assert SomeRun(s, s.work.workers);
    }
    assert s.closing;
    hide PortInv, SomeRun, WillReset, WillSend, RingEmpty, CanConsume;
    if w.teardown != s.teardown {
      assert w == s.(teardown := w.teardown, work := w.work) && Waiting(w);
      hide TeardownStep, WorkInv;
      SameBlocked(s, w) by { assert w.threads == s.threads; }
    }
  }

  lemma BlockedStep(s: State, step: Step)
    requires FullInv(s) && Blocked(s)
    ensures Blocked(Next(s, step))
  {
    assert PortInv(s) && WorkInv(s);
    hide FullInv, PortInv, WorkInv, CanStop, AdvanceThread, TeardownStep;
    match step
    case Advance(t) => BlockedAdvance(s, t);
    case Read => BlockedBackend(s, step);
    case Answer(_) => BlockedBackend(s, step);
    case TeardownNext => BlockedTeardown(s);
    case _ =>
      QuietStep(s, step);
      SameBlocked(s, Next(s, step));
  }

  lemma {:induction false} BlockedForever(s: State, steps: seq<Step>)
    requires FullInv(s) && Blocked(s)
    ensures Blocked(Run(s, steps))
    decreases |steps|
  {
    hide FullInv, Blocked, Next;
    if steps != [] {
      FullKeeps(s, steps[0]);
      BlockedStep(s, steps[0]);
      BlockedForever(Next(s, steps[0]), steps[1..]);
    }
  }

  // ---- the waits end --------------------------------------------------------------------------------

  lemma StepRuns(s: State, step: Step)
    requires FullInv(s)
    ensures Run(s, [step]) == Next(s, step) && FullInv(Run(s, [step]))
  {
    hide FullInv;
    RunOne(s, step);
    FullKeeps(s, step);
  }

  ghost predicate NoneResetting(s: State) {
    forall t :: 0 <= t < |s.threads| ==> !s.threads[t].Resetting?
  }

  // Every worker of the device work from thread n on has left, or of the port work.
  ghost predicate GoneFrom(s: State, workers: set<nat>, n: nat) {
    forall t :: t in workers && n <= t < |s.threads| ==> s.threads[t].Gone?
  }

  lemma AllGoneRun(s: State, workers: set<nat>)
    requires GoneFrom(s, workers, 0)
    ensures !SomeRun(s, workers)
  {
  }

  // The workers of the port work, when the ring is empty and no reset is left to send.
  lemma PortWorkerLeaves(s: State, t: nat) returns (steps: seq<Step>)
    requires FullInv(s) && RingEmpty(s.v.ring) && NoneResetting(s) && t in s.work.portWorkers
    ensures var w := Run(s, steps);
            && FullInv(w) && t < |s.threads| && w.threads == s.threads[t := Gone] && w.teardown == s.teardown
            && w.v == s.v.(flags := w.v.flags) && w.work.workers == s.work.workers && w.work.portWorkers == s.work.portWorkers
    decreases if t < |s.threads| && s.threads[t].AwaitingReset? then 2 else 1
  {
    assert OfPortWork(s.threads[t]) && !s.threads[t].Resetting?;
    hide RingEmpty;
    if s.threads[t].Gone? {
      steps := [];
      RunNothing(s);
      assert s.threads[t := Gone] == s.threads;
    } else if s.threads[t].Leaving? {
      steps := [Advance(t)];
      StepRuns(s, Advance(t));
      hide FullInv, Run;
      LeavingStep(s, t);
    } else {
      StepRuns(s, Advance(t));
      AnswerHasCome(s);
      hide FullInv, Run, NoneResetting;
      AwaitingLeaves(s, t);
      StillNoneResetting(s, AdvanceThread(s, t), t);
      var rest := PortWorkerLeaves(AdvanceThread(s, t), t);
      RunAppend(s, [Advance(t)], rest);
      steps := [Advance(t)] + rest;
      assert s.threads[t := Leaving][t := Gone] == s.threads[t := Gone];
    }
  }

  lemma LeavingStep(s: State, t: nat)
    requires t < |s.threads| && s.threads[t].Leaving?
    ensures var w := Next(s, Advance(t));
            w.threads == s.threads[t := Gone] && w.teardown == s.teardown && w.v == s.v && w.work == s.work
  {
  }

  lemma AwaitingLeaves(s: State, t: nat)
    requires t < |s.threads| && s.threads[t].AwaitingReset? && s.v.flags.resetDone
    ensures var w := AdvanceThread(s, t);
            && w.threads == s.threads[t := Leaving] && w.teardown == s.teardown && w.v == s.v.(flags := w.v.flags)
            && w.work == s.work.(resetPending := false)
  {
  }

  lemma StillNoneResetting(s: State, w: State, t: nat)
    requires NoneResetting(s) && t < |s.threads| && w.threads == s.threads[t := Leaving]
    ensures NoneResetting(w)
  {
  }

  // With the ring empty the answer to a reset has come.
  lemma AnswerHasCome(s: State)
    requires ResetInv(s) && RingEmpty(s.v.ring)
    ensures forall t :: 0 <= t < |s.threads| && s.threads[t].AwaitingReset? ==> s.v.flags.resetDone
  {
  }

  lemma {:induction false} PortWorkersLeave(s: State, n: nat) returns (steps: seq<Step>)
    requires FullInv(s) && RingEmpty(s.v.ring) && NoneResetting(s) && Waiting(s) && n <= |s.threads|
    requires GoneFrom(s, s.work.portWorkers, n) && GoneFrom(s, s.work.workers, 0)
    ensures var w := Run(s, steps); FullInv(w) && RingEmpty(w.v.ring) && Waiting(w) && NoWorkRuns(w)
    decreases n
  {
    hide FullInv, RingEmpty, Run;
    if n == 0 {
      steps := [];
      RunNothing(s);
      AllGoneRun(s, s.work.portWorkers);
      AllGoneRun(s, s.work.workers);
    } else if n - 1 in s.work.portWorkers {
      var first := PortWorkerLeaves(s, n - 1);
      var w := Run(s, first);
      var rest := PortWorkersLeave(w, n - 1);
      RunAppend(s, first, rest);
      steps := first + rest;
    } else {
      steps := PortWorkersLeave(s, n - 1);
    }
  }

  // An empty ring, no worker of the device work, and no reset to send: the waits end.
  lemma EmptyStops(s: State) returns (steps: seq<Step>)
    requires FullInv(s) && RingEmpty(s.v.ring) && NoneResetting(s) && Waiting(s) && GoneFrom(s, s.work.workers, 0)
    ensures Run(s, steps).teardown.Drained?
  {
    hide PortInv, WorkInv, ResetInv, NoneResetting, Run, NoWorkRuns;
    assert GoneFrom(s, s.work.portWorkers, |s.threads|);
    var first := PortWorkersLeave(s, |s.threads|);
    var rest := CanStopWaiting(Run(s, first));
    RunAppend(s, first, rest);
    steps := first + rest;
  }

  // ---- somebody takes the answers ------------------------------------------------------------------

  // Threads that run no device work are where they were, and the flush is as wanted as it was.
  ghost predicate SameOutside(s: State, w: State) {
    && |w.threads| == |s.threads| && w.teardown == s.teardown
    && w.work.workers == s.work.workers && w.v.flags.rflush == s.v.flags.rflush
    && (forall t :: 0 <= t < |s.threads| && t !in s.work.workers ==> w.threads[t] == s.threads[t])
    && (forall t :: 0 <= t < |s.threads| && s.threads[t].Gone? ==> w.threads[t].Gone?)
  }

  lemma OutsideTransitive(s: State, u: State, w: State)
    requires SameOutside(s, u) && SameOutside(u, w)
    ensures SameOutside(s, w)
  {
  }

  lemma OutsideConsumes(s: State, w: State)
    requires SameOutside(s, w) && CanConsume(s) && WorkInv(s)
    ensures CanConsume(w)
  {
    if !s.v.flags.rflush {
      var t :| 0 <= t < |s.threads| && s.threads[t] == InHandler(true);
      assert w.threads[t] == InHandler(true);
    }
  }

  lemma OutsideResets(s: State, w: State)
    requires SameOutside(s, w) && NoneResetting(s) && WorkInv(w)
    ensures NoneResetting(w)
  {
    forall t | 0 <= t < |w.threads| ensures !w.threads[t].Resetting? {
      assert t !in s.work.workers ==> w.threads[t] == s.threads[t];
    }
  }

  lemma WorkerLeaves(s: State, t: nat) returns (steps: seq<Step>)
    requires FullInv(s) && t in s.work.workers
    ensures var w := Run(s, steps);
            FullInv(w) && t < |s.threads| && w.threads == s.threads[t := Gone] && SameOutside(s, w)
  {
    assert OfWork(s.threads[t]);
    hide PortInv, WorkInv, ResetInv, Run;
    steps := ThreadLeaves(s, t);
    RunFull(s, steps);
  }

  lemma {:induction false} WorkersLeave(s: State, n: nat) returns (steps: seq<Step>)
    requires FullInv(s) && n <= |s.threads| && GoneFrom(s, s.work.workers, n)
    ensures var w := Run(s, steps); FullInv(w) && SameOutside(s, w) && GoneFrom(w, w.work.workers, 0)
    decreases n
  {
    hide FullInv, Run;
    if n == 0 {
      steps := [];
      RunNothing(s);
    } else if n - 1 in s.work.workers {
      var first := WorkerLeaves(s, n - 1);
      var w := Run(s, first);
      var rest := WorkersLeave(w, n - 1);
      RunAppend(s, first, rest);
      steps := first + rest;
      OutsideTransitive(s, w, Run(w, rest));
    } else {
      steps := WorkersLeave(s, n - 1);
    }
  }

  // The reset is sent, or fails.
  lemma ResetStarts(s: State) returns (steps: seq<Step>)
    requires FullInv(s)
    ensures var w := Run(s, steps);
            && FullInv(w) && NoneResetting(w) && w.teardown == s.teardown && OnlyAdds(s.v, w.v)
            && (CanConsume(s) ==> CanConsume(w))
            && (s.v.slots.free == [] || NoneResetting(s) ==> w.v == s.v)
            && w.work == s.work && |w.threads| == |s.threads|
            && forall t :: 0 <= t < |s.threads| && !s.threads[t].Resetting? ==> w.threads[t] == s.threads[t]
  {
    if t :| 0 <= t < |s.threads| && s.threads[t].Resetting? {
      steps := [Advance(t)];
      StepRuns(s, Advance(t));
      OnlyReset(s, t);
      PutInternalAdds(s.v, ResetRequest);
      hide FullInv, Run, OnlyAdds;
      ResetStepShape(s, t);
      ResetStepConsumes(s, Run(s, steps), t);
    } else {
      steps := [];
      RunNothing(s);
    }
  }

  lemma ResetStepShape(s: State, t: nat)
    requires t < |s.threads| && s.threads[t].Resetting?
    ensures var w := Next(s, Advance(t)); var (v, sent) := PutInternal(s.v, ResetRequest);
            && w.threads == s.threads[t := if sent then AwaitingReset else Leaving] && w.v == v
            && w.teardown == s.teardown && w.work == s.work
            && (s.v.slots.free == [] ==> v == s.v)
  {
  }

  lemma ResetStepConsumes(s: State, w: State, t: nat)
    requires t < |s.threads| && s.threads[t].Resetting? && OnlyAdds(s.v, w.v)
    requires |w.threads| == |s.threads| && w.threads == s.threads[t := w.threads[t]]
    ensures CanConsume(s) ==> CanConsume(w)
  {
    if CanConsume(s) && !s.v.flags.rflush {
      var k :| 0 <= k < |s.threads| && s.threads[k] == InHandler(true);
      assert w.threads[k] == InHandler(true);
    }
  }

  lemma HandlerConsumes(s: State, t: nat)
    requires FullInv(s) && Waiting(s) && t < |s.threads| && s.threads[t].InHandler?
    requires s.threads[t].processing || s.v.flags.rflush
    requires s.v.ring.reqs == [] && s.v.ring.held == multiset{}
    requires NoneResetting(s) && GoneFrom(s, s.work.workers, 0)
    ensures var w := Run(s, [Advance(t)]);
            FullInv(w) && Waiting(w) && RingEmpty(w.v.ring) && NoneResetting(w) && GoneFrom(w, w.work.workers, 0)
  {
    hide PortInv, WorkInv, ResetInv, Run, AdvanceThread, RingEmpty, OneMoved, NoneResetting, GoneFrom;
    StepRuns(s, Advance(t));
    ConsumesAll(s, t);
    AdvanceShape(s, t);
    MovedKeeps(s, AdvanceThread(s, t), t);
  }

  lemma MovedKeeps(s: State, w: State, t: nat)
    requires t < |s.threads| && OneMoved(s, w, t) && NoneResetting(s) && GoneFrom(s, s.work.workers, 0)
    ensures NoneResetting(w) && GoneFrom(w, w.work.workers, 0)
  {
  }

  lemma FlushConsumes(s: State)
    requires FullInv(s) && Waiting(s) && s.v.flags.rflush
    requires s.v.ring.reqs == [] && s.v.ring.held == multiset{}
    requires NoneResetting(s) && GoneFrom(s, s.work.workers, 0)
    ensures var w := Run(s, [Irq] + [Advance(|s.threads|)]);
            FullInv(w) && Waiting(w) && RingEmpty(w.v.ring) && NoneResetting(w) && GoneFrom(w, w.work.workers, 0)
  {
    var n, s1 := |s.threads|, Next(s, Irq);
    RunAppend(s, [Irq], [Advance(n)]);
    StepRuns(s, Irq);
    IrqAppends(s);
    hide FullInv, Run, Next, RingEmpty;
    assert s1.threads[n] == InHandler(false);
    HandlerConsumes(s1, n);
  }

  lemma IrqAppends(s: State)
    requires FullInv(s) && Waiting(s) && NoneResetting(s) && GoneFrom(s, s.work.workers, 0)
    ensures var w := Next(s, Irq);
            && w == s.(threads := s.threads + [InHandler(false)]) && NoneResetting(w) && GoneFrom(w, w.work.workers, 0)
  {
    ClosedIrq(s);
    assert WorkersInv(s);
    hide PortInv, ResetInv;
    assert forall t :: t in s.work.workers ==> t < |s.threads|;
  }

  // Everything is sent, answered and taken.
  lemma ConsumerStops(s: State) returns (steps: seq<Step>)
    requires FullInv(s) && Waiting(s) && CanConsume(s)
    ensures Run(s, steps).teardown.Drained?
  {
    hide PortInv, WorkInv, ResetInv, Run, CanConsume, NoneResetting, SameOutside, OnlyAdds;
    var a := ResetStarts(s);
    var s1 := Run(s, a);
    assert GoneFrom(s1, s1.work.workers, |s1.threads|);
    var b := WorkersLeave(s1, |s1.threads|);
    var s2 := Run(s1, b);
    OutsideConsumes(s1, s2);
    OutsideResets(s1, s2);
    assert s2.teardown == s1.teardown by { OutsidePhase(s1, s2); }
    var c, s3 := Answered(s2);
    RunFull(s2, c);
    AnsweredKeeps(s2, s3);
    var d := Consumed(s3);
    var e := EmptyStops(Run(s3, d));
    RunAppend(s3, d, e);
    RunAppend(s2, c, d + e);
    RunAppend(s1, b, c + (d + e));
    RunAppend(s, a, b + (c + (d + e)));
    steps := a + (b + (c + (d + e)));
  }

  lemma OutsidePhase(s: State, w: State)
    requires SameOutside(s, w)
    ensures w.teardown == s.teardown
  {
  }

  lemma AnsweredKeeps(s: State, w: State)
    requires w == s.(v := w.v) && w.v.flags == s.v.flags
    ensures (CanConsume(s) ==> CanConsume(w)) && (NoneResetting(s) ==> NoneResetting(w)) && (Waiting(s) ==> Waiting(w))
    ensures GoneFrom(s, s.work.workers, 0) ==> GoneFrom(w, w.work.workers, 0)
  {
    if CanConsume(s) && !s.v.flags.rflush {
      var t :| 0 <= t < |s.threads| && s.threads[t] == InHandler(true);
      assert w.threads[t] == InHandler(true);
    }
  }

  lemma Consumed(s: State) returns (steps: seq<Step>)
    requires FullInv(s) && Waiting(s) && CanConsume(s) && s.v.ring.reqs == [] && s.v.ring.held == multiset{}
    requires NoneResetting(s) && GoneFrom(s, s.work.workers, 0)
    ensures var w := Run(s, steps);
            FullInv(w) && Waiting(w) && RingEmpty(w.v.ring) && NoneResetting(w) && GoneFrom(w, w.work.workers, 0)
  {
    hide FullInv, NoneResetting, GoneFrom, Run, RingEmpty;
    if t :| 0 <= t < |s.threads| && s.threads[t] == InHandler(true) {
      steps := [Advance(t)];
      HandlerConsumes(s, t);
    } else {
      steps := [Irq] + [Advance(|s.threads|)];
      FlushConsumes(s);
    }
  }

  // ---- nobody takes an answer, and none is needed -------------------------------------------------

  // Whatever section a worker is about to run, it need not send.
  ghost predicate Harmless(s: State) {
    && RingEmpty(s.v.ring)
    && ((exists t :: t in s.work.workers && t < |s.threads| && s.threads[t].Working?) ==> Silent(s.v) && !s.v.env.memory)
  }

  lemma GivesBackQuietly(s: State, t: nat) returns (steps: seq<Step>)
    requires FullInv(s) && t in s.work.workers && t < |s.threads| && !s.threads[t].Working?
    requires RingEmpty(s.v.ring)
    ensures var w := Run(s, steps);
            && FullInv(w) && w.threads == s.threads[t := Gone] && SameOutside(s, w) && RingEmpty(w.v.ring)
            && (Silent(s.v) && !s.v.env.memory ==> Silent(w.v) && !w.v.env.memory)
    decreases OutLeft(s.threads[t]) + (if s.threads[t].Gone? then 0 else 1)
  {
    assert OfWork(s.threads[t]);
    hide FullInv, Run, Silent, RingEmpty;
    if s.threads[t].Gone? {
      steps := [];
      RunNothing(s);
      assert s.threads[t := Gone] == s.threads;
    } else {
      StepRuns(s, Advance(t));
      GiveBackStep(s, t);
      var w := Next(s, Advance(t));
      hide Next;
      var rest := GivesBackQuietly(w, t);
      RunAppend(s, [Advance(t)], rest);
      OutsideTransitive(s, w, Run(w, rest));
      steps := [Advance(t)] + rest;
    }
  }

  lemma GiveBackStep(s: State, t: nat)
    requires t in s.work.workers && t < |s.threads| && s.threads[t].GivingBack?
    ensures var w := Next(s, Advance(t));
            && SameOutside(s, w) && w.threads == s.threads[t := w.threads[t]] && !w.threads[t].Working?
            && (w.threads[t].Gone? || (w.threads[t].GivingBack? && OutLeft(w.threads[t]) < OutLeft(s.threads[t])))
            && w.v.ring == s.v.ring && (Silent(s.v) && !s.v.env.memory ==> Silent(w.v) && !w.v.env.memory)
  {
    var w := Next(s, Advance(t));
    FewerUrbps(s.v, w.v);
    hide Silent;
  }

  lemma FewerUrbps(v: Vdev, w: Vdev)
    requires w == v.(urbps := w.urbps) && (forall h :: h in w.urbps ==> h in v.urbps && w.urbps[h] == v.urbps[h])
    ensures Silent(v) ==> Silent(w)
  {
    if Silent(v) {
      forall h ensures !SendsAlone(w, h, |w.slots.grants.active|) {
        assert !SendsAlone(v, h, |v.slots.grants.active|);
      }
    }
  }

  // One worker's section with no reference free, and then its way out.
  lemma WorksQuietly(s: State, t: nat) returns (steps: seq<Step>)
    requires FullInv(s) && Waiting(s) && t in s.work.workers && t < |s.threads| && s.threads[t].Working?
    requires RingEmpty(s.v.ring) && Silent(s.v) && !s.v.env.memory
    ensures var w := Run(s, steps);
            && FullInv(w) && w.threads == s.threads[t := Gone] && SameOutside(s, w) && RingEmpty(w.v.ring)
            && Silent(w.v) && !w.v.env.memory
  {
    hide FullInv, Run, Next, Silent, Inv, Settled, RingEmpty;
    StepRuns(s, Pool([]));
    var s1 := Next(s, Pool([]));
    EmptyPool(s);
    StepRuns(s1, Advance(t));
    var w := Next(s1, Advance(t));
    WaitingInv(s1);
    ProcessSilent(s1.v);
    WorkStepQuiet(s1, t);
    OutsideTransitive(s, s1, w);
    var rest := GivesBackQuietly(w, t);
    RunAppend(s1, [Advance(t)], rest);
    RunAppend(s, [Pool([])], [Advance(t)] + rest);
    OutsideTransitive(s, w, Run(w, rest));
    steps := [Pool([])] + ([Advance(t)] + rest);
  }

  lemma WaitingInv(s: State)
    requires FullInv(s) && Waiting(s)
    ensures Inv(s.v) && Settled(s.v)
  {
  }

  lemma EmptyPool(s: State)
    ensures var w := Next(s, Pool([]));
            && w.v.slots.grants.pool == [] && w.threads == s.threads && w.v.ring == s.v.ring && w.v.env == s.v.env
            && SameOutside(s, w) && w.teardown == s.teardown && w.work == s.work && (Silent(s.v) ==> Silent(w.v))
  {
    var w := Next(s, Pool([]));
    if Silent(s.v) {
      forall h ensures !SendsAlone(w.v, h, |w.v.slots.grants.active|) {
        assert !SendsAlone(s.v, h, |s.v.slots.grants.active|);
      }
    }
  }

  lemma WorkStepQuiet(s: State, t: nat)
    requires t in s.work.workers && t < |s.threads| && s.threads[t].Working?
    ensures var w := Next(s, Advance(t));
            && SameOutside(s, w) && w.threads == s.threads[t := w.threads[t]] && w.threads[t].GivingBack?
            && w.v == ProcessSection(s.v, None).0
  {
    hide ProcessSection;
    ProcessAdds(s.v, None);
  }

  lemma {:induction false} WorkersLeaveQuietly(s: State, n: nat) returns (steps: seq<Step>)
    requires FullInv(s) && Waiting(s) && n <= |s.threads| && GoneFrom(s, s.work.workers, n) && Harmless(s)
    ensures var w := Run(s, steps);
            FullInv(w) && SameOutside(s, w) && GoneFrom(w, w.work.workers, 0) && RingEmpty(w.v.ring)
    decreases n
  {
    hide FullInv, Run, Silent, RingEmpty;
    if n == 0 {
      steps := [];
      RunNothing(s);
    } else if n - 1 in s.work.workers {
      var first: seq<Step>;
      if s.threads[n - 1].Working? {
        first := WorksQuietly(s, n - 1);
      } else {
        first := GivesBackQuietly(s, n - 1);
      }
      var w := Run(s, first);
      StillHarmless(s, w, n - 1);
      var rest := WorkersLeaveQuietly(w, n - 1);
      RunAppend(s, first, rest);
      steps := first + rest;
      OutsideTransitive(s, w, Run(w, rest));
    } else {
      steps := WorkersLeaveQuietly(s, n - 1);
    }
  }

  lemma StillHarmless(s: State, w: State, t: nat)
    requires Harmless(s) && SameOutside(s, w) && t < |s.threads| && w.threads == s.threads[t := Gone]
    requires RingEmpty(w.v.ring) && (Silent(s.v) && !s.v.env.memory ==> Silent(w.v) && !w.v.env.memory)
    ensures Harmless(w)
  {
    hide Silent;
    if k :| k in w.work.workers && k < |w.threads| && w.threads[k].Working? {
      assert k in s.work.workers && s.threads[k].Working?;
    }
  }

  // ---- the urbps that are about to be unlinked ------------------------------------------------------

  // What has to be sent is being cancelled by one of the first n threads.
  ghost predicate CancelledBefore(s: State, n: nat) {
    forall h :: SendsAlone(s.v, h, |s.v.slots.grants.active|) ==>
      exists t :: 0 <= t < n && t < |s.threads| && s.threads[t] == Cancelling(h)
  }

  lemma {:induction false} CancelsAll(s: State, n: nat) returns (steps: seq<Step>)
    requires FullInv(s) && Waiting(s) && n <= |s.threads| && RingEmpty(s.v.ring) && CancelledBefore(s, n)
    ensures var w := Run(s, steps);
            && FullInv(w) && SameWorkers(s, w) && RingEmpty(w.v.ring) && Silent(w.v)
    decreases n
  {
    hide FullInv, Run, RingEmpty;
    if n == 0 {
      steps := [];
      RunNothing(s);
    } else if s.threads[n - 1].Cancelling? {
      StepRuns(s, Advance(n - 1));
      CancelStep(s, n - 1);
      var w := Next(s, Advance(n - 1));
      hide CancelledBefore, Next;
      var rest := CancelsAll(w, n - 1);
      RunAppend(s, [Advance(n - 1)], rest);
      steps := [Advance(n - 1)] + rest;
      WorkersTransitive(s, w, Run(w, rest));
    } else {
      forall h | SendsAlone(s.v, h, |s.v.slots.grants.active|)
        ensures exists t :: 0 <= t < n - 1 && t < |s.threads| && s.threads[t] == Cancelling(h)
      {
        var t :| 0 <= t < n && t < |s.threads| && s.threads[t] == Cancelling(h);
        assert t != n - 1;
      }
      hide SendsAlone;
      steps := CancelsAll(s, n - 1);
    }
  }

  // Only threads that run no work item have moved, and none into a reset or the handler.
  ghost predicate SameWorkers(s: State, w: State) {
    && |w.threads| == |s.threads| && w.teardown == s.teardown && w.work == s.work
    && forall t :: 0 <= t < |s.threads| ==> w.threads[t] == s.threads[t] || (s.threads[t].Cancelling? && w.threads[t].Working?)
  }

  lemma WorkersTransitive(s: State, u: State, w: State)
    requires SameWorkers(s, u) && SameWorkers(u, w)
    ensures SameWorkers(s, w)
  {
  }

  lemma CancelStep(s: State, t: nat)
    requires FullInv(s) && Waiting(s) && t < |s.threads| && s.threads[t].Cancelling?
    requires RingEmpty(s.v.ring) && CancelledBefore(s, t + 1)
    ensures var w := Next(s, Advance(t)); SameWorkers(s, w) && w.v.ring == s.v.ring && CancelledBefore(w, t)
  {
    var k := s.threads[t].target;
    assert Inv(s.v);
    CancelEffect(s.v, k);
    var w := Next(s, Advance(t));
    assert w.v == DequeueSection(s.v, k) && w.threads == s.threads[t := Working];
    hide FullInv, DequeueSection;
    forall h | SendsAlone(w.v, h, |w.v.slots.grants.active|)
      ensures exists j :: 0 <= j < t && j < |w.threads| && w.threads[j] == Cancelling(h)
    {
      assert SendsAlone(s.v, h, |s.v.slots.grants.active|) && h != k;
      var j :| 0 <= j < t + 1 && j < |s.threads| && s.threads[j] == Cancelling(h);
      assert w.threads[j] == Cancelling(h);
    }
  }

  // With the ring empty a cancelled urbp is released at once, unless it is no longer new.
  lemma CancelEffect(v: Vdev, k: Ticket)
    requires Inv(v) && RingEmpty(v.ring)
    ensures var w := DequeueSection(v, k);
            && w.ring == v.ring
            && !SendsAlone(w, k, |w.slots.grants.active|)
            && forall h :: SendsAlone(w, h, |w.slots.grants.active|) ==> SendsAlone(v, h, |v.slots.grants.active|)
  {
    var w := DequeueSection(v, k);
    if k in v.lists.pending {
      NoneSent(v, k);
      assert ListCount(v.lists, k) <= 1;
      WithoutCounts(v.lists.pending, k);
      assert k in w.lists.pending <==> k in multiset(w.lists.pending);
      forall h | h in w.lists.pending ensures h in v.lists.pending {
        assert h in multiset(w.lists.pending);
        assert h in multiset(v.lists.pending);
      }
    }
    hide Inv, Without, SendsWith;
  }

  // A section of a worker need not send: what would have to be sent is unlinked first, and no
  // memory is free.
  lemma MadeHarmless(s: State) returns (steps: seq<Step>)
    requires FullInv(s) && Waiting(s) && RingEmpty(s.v.ring) && !WillSend(s)
    ensures var w := Run(s, steps); FullInv(w) && SameWorkers(s, w) && Harmless(w)
  {
    hide FullInv, Run, RingEmpty;
    if t :| t in s.work.workers && t < |s.threads| && s.threads[t].Working? {
      assert CancelledBefore(s, |s.threads|) by { UnsentIsCancelled(s); }
      hide WillSend, CancelledBefore;
      var first := CancelsAll(s, |s.threads|);
      var s1 := Run(s, first);
      StepRuns(s1, Allocations(false, false));
      NoMemory(s1);
      RunAppend(s, first, [Allocations(false, false)]);
      steps := first + [Allocations(false, false)];
      WorkersTransitive(s, s1, Next(s1, Allocations(false, false)));
    } else {
      steps := [];
      RunNothing(s);
    }
  }

  lemma UnsentIsCancelled(s: State)
    requires forall h :: !MustSend(s, h)
    ensures CancelledBefore(s, |s.threads|)
  {
    forall h | SendsAlone(s.v, h, |s.v.slots.grants.active|)
      ensures exists t :: 0 <= t < |s.threads| && s.threads[t] == Cancelling(h)
    {
      assert !MustSend(s, h);
    }
  }

  lemma NoMemory(s: State)
    requires Silent(s.v) && RingEmpty(s.v.ring)
    ensures var w := Next(s, Allocations(false, false)); SameWorkers(s, w) && Harmless(w)
  {
    var w := Next(s, Allocations(false, false));
    forall h ensures !SendsAlone(w.v, h, |w.v.slots.grants.active|) {
      assert !SendsAlone(s.v, h, |s.v.slots.grants.active|);
    }
  }

  lemma WorkersNoneReset(s: State, w: State)
    requires SameWorkers(s, w) && NoneResetting(s)
    ensures NoneResetting(w) && (Waiting(s) ==> Waiting(w))
  {
    forall t | 0 <= t < |w.threads| ensures !w.threads[t].Resetting? {
      assert w.threads[t] == s.threads[t] || w.threads[t].Working?;
    }
  }

  // A reset that fails has nothing to send.
  lemma FailedResetStops(s: State, w: State)
    requires !WillSend(s) && w.v == s.v && w.work == s.work && |w.threads| == |s.threads| && WorkersInv(s) && WorkersInv(w)
    requires forall t :: 0 <= t < |s.threads| && !s.threads[t].Resetting? ==> w.threads[t] == s.threads[t]
    ensures !WillSend(w)
  {
    hide SendsAlone;
    if t :| t in w.work.workers && t < |w.threads| && w.threads[t].Working? {
      assert s.threads[t].Working?;
      forall h ensures !MustSend(w, h) {
        assert !MustSend(s, h);
      }
    }
  }

  // The ring is empty, no reset is due and nothing has to be sent: the waits end.
  lemma QuietStops(s: State) returns (steps: seq<Step>)
    requires FullInv(s) && Waiting(s) && RingEmpty(s.v.ring) && !WillReset(s) && !WillSend(s)
    ensures Run(s, steps).teardown.Drained?
  {
    hide PortInv, WorkersInv, GateInv, FlushInv, ResetInv, Run, RingEmpty, WillSend, Harmless;
    assert s.v.slots.free == [] || NoneResetting(s);
    hide WillReset, NoneResetting;
    var a := ResetStarts(s);
    var s1 := Run(s, a);
    FailedResetStops(s, s1);
    var b := MadeHarmless(s1);
    var s2 := Run(s1, b);
    WorkersNoneReset(s1, s2);
    assert GoneFrom(s2, s2.work.workers, |s2.threads|);
    var c := WorkersLeaveQuietly(s2, |s2.threads|);
    var s3 := Run(s2, c);
    OutsideResets(s2, s3);
    OutsidePhase(s2, s3);
    var d := EmptyStops(s3);
    RunAppend(s2, c, d);
    RunAppend(s1, b, c + d);
    RunAppend(s, a, b + (c + d));
    steps := a + (b + (c + d));
  }

  // ---- the exact condition --------------------------------------------------------------------------

  /** The waits of the teardown, for work items and for the ring, can end if and only if
      somebody may still take answers, or the ring is empty, no worker has a reset to send and
      no worker is about to run a section that has to send. */
  lemma FlushExact(s: State)
    requires FullInv(s) && Waiting(s)
    ensures (exists steps :: !Waiting(Run(s, steps))) <==> CanStop(s)
  {
    hide FullInv, Run, Next, CanConsume, RingEmpty, WillReset, WillSend;
    if CanStop(s) {
      var steps: seq<Step>;
      if CanConsume(s) {
        steps := ConsumerStops(s);
      } else {
        steps := QuietStops(s);
      }
      assert !Waiting(Run(s, steps));
    } else {
      forall steps ensures Waiting(Run(s, steps)) {
        BlockedForever(s, steps);
      }
    }
  }
}
