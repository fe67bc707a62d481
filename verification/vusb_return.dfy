/** Whether the teardown returns the port with every urbp given back. */
module VusbReturn {
  import opened VusbDevice
  import opened VusbSlots
  import opened VusbInvariants
  import opened VusbKeeps
  import opened VusbCompletion
  import opened VusbSections
  import opened VusbMachine
  import opened VusbRuns
  import opened VusbReach
  import opened VusbTheorems
  import opened VusbTeardown
  import opened VusbWork
  import opened VusbDrain

  // ---- every thread inside can leave ----------------------------------------------------

  function StepsLeft(pc: Thread): nat {
    match pc
    case Cancelling(_) => 3
    case Submitting(_) => 2
    case Working => 2
    case InHandler(_) => 2
    case GivingBack(_) => 1
    case Leaving => 1
    case Resetting => 3
    case AwaitingReset => 2
    case Gone => 0
  }

  function OutLeft(pc: Thread): nat {
    if pc.GivingBack? then |pc.out| else 0
  }

  lemma AdvanceCloser(s: State, t: nat)
    requires t < |s.threads| && !Resets(s.threads[t]) && !s.threads[t].Gone?
    ensures var w := AdvanceThread(s, t);
            && |w.threads| == |s.threads| && !Resets(w.threads[t])
            && (StepsLeft(w.threads[t]) < StepsLeft(s.threads[t])
                || (w.threads[t].GivingBack? && s.threads[t].GivingBack? && OutLeft(w.threads[t]) < OutLeft(s.threads[t])))
  {
    hide ProcessSection, DequeueSection, InterruptSection;
  }

  lemma NoNewHandler(s: State, w: State, t: nat)
    requires t < |s.threads| && OneMoved(s, w, t)
    ensures w.threads[t].InHandler? ==> s.threads[t].InHandler?
    ensures w.work == s.work || s.threads[t].AwaitingReset?
  {
  }

  lemma {:induction false} ThreadLeaves(s: State, t: nat) returns (steps: seq<Step>)
    requires PortInv(s) && WorkInv(s) && t < |s.threads| && !Resets(s.threads[t])
    ensures var w := Run(s, steps);
            && PortInv(w) && WorkInv(w) && w.teardown == s.teardown && w.threads == s.threads[t := Gone]
            && KeepsQueued(s.v, w.v) && (!s.threads[t].InHandler? ==> OnlyAdds(s.v, w.v))
            && w.work == s.work
    decreases StepsLeft(s.threads[t]), OutLeft(s.threads[t])
  {
    hide PortInv, WorkInv, AdvanceThread, Follows;
    if s.threads[t].Gone? {
      steps := [];
      assert s.threads[t := Gone] == s.threads;
    } else {
      NextKeeps(s, Advance(t));
      WorkKeeps(s, Advance(t));
      AdvanceShape(s, t);
      AdvanceQueued(s, t);
      NoNewHandler(s, AdvanceThread(s, t), t);
      if !s.threads[t].InHandler? {
        AdvanceAdds(s, t);
      }
      AdvanceCloser(s, t);
      var w := Next(s, Advance(t));
      steps := ThreadLeaves(w, t);
      steps := [Advance(t)] + steps;
    }
  }

  // All but the first n threads have left.
  lemma {:induction false} AllLeave(s: State, n: nat) returns (steps: seq<Step>)
    requires PortInv(s) && WorkInv(s) && n <= |s.threads|
    requires forall t :: 0 <= t < |s.threads| ==> !Resets(s.threads[t])
    requires forall t :: n <= t < |s.threads| ==> s.threads[t].Gone?
    ensures var w := Run(s, steps);
            && PortInv(w) && WorkInv(w) && w.teardown == s.teardown && KeepsQueued(s.v, w.v)
            && forall t :: 0 <= t < |w.threads| ==> w.threads[t].Gone?
    decreases n
  {
    hide PortInv, WorkInv;
    if n == 0 {
      steps := [];
    } else {
      var first := ThreadLeaves(s, n - 1);
      var rest := AllLeave(Run(s, first), n - 1);
      RunAppend(s, first, rest);
      steps := first + rest;
    }
  }

  lemma {:induction false} GoneAreOutside(ts: seq<Thread>)
    requires forall t :: 0 <= t < |ts| ==> ts[t].Gone?
    ensures InsideCount(ts) == 0
  {
    if ts != [] {
      GoneAreOutside(ts[1..]);
    }
  }

  // ---- from the end of the wait for the ring the port can be returned --------------------

  ghost predicate PastDrain(s: State) {
    s.teardown in {Drained, Quiet, Finished, Freed, Returned}
  }

  function PhasesLeft(p: Teardown): nat {
    match p
    case Drained => 4
    case Quiet => 3
    case Finished => 2
    case Freed => 1
    case _ => 0
  }

  function ListsLeft(s: State): nat {
    if s.teardown.Freed? then |s.v.lists.release| + |s.v.lists.pending| else 0
  }

  lemma TeardownCloser(s: State)
    requires PortInv(s) && PastDrain(s) && !s.teardown.Returned?
    requires forall t :: 0 <= t < |s.threads| ==> s.threads[t].Gone?
    ensures var w := Next(s, TeardownNext);
            && PastDrain(w) && w.threads == s.threads
            && (PhasesLeft(w.teardown) < PhasesLeft(s.teardown)
                || (w.teardown == s.teardown && ListsLeft(w) < ListsLeft(s)))
  {
    hide TicketInv, DeviceInv, SubmitInv, CancelInv, FinishEach;
    GoneAreOutside(s.threads);
  }

  lemma TeardownQueued(s: State)
    requires PastDrain(s)
    ensures KeepsQueued(s.v, Next(s, TeardownNext).v)
  {
    hide FinishEach, HandlerRunning;
    FinishEachAdds(s.v, s.v.lists.finish);
  }

  lemma {:induction false} NobodyReturns(s: State) returns (steps: seq<Step>)
    requires PortInv(s) && PastDrain(s) && forall t :: 0 <= t < |s.threads| ==> s.threads[t].Gone?
    ensures Run(s, steps).teardown.Returned? && KeepsQueued(s.v, Run(s, steps).v)
    decreases PhasesLeft(s.teardown), ListsLeft(s)
  {
    hide PortInv, Next, ListsLeft;
    if s.teardown.Returned? {
      steps := [];
    } else {
      NextKeeps(s, TeardownNext);
      TeardownQueued(s);
      TeardownCloser(s);
      steps := NobodyReturns(Next(s, TeardownNext));
      steps := [TeardownNext] + steps;
    }
  }

  lemma NoResets(s: State)
    requires PortInv(s) && WorkInv(s) && PastDrain(s) && !s.teardown.Returned?
    ensures forall t :: 0 <= t < |s.threads| ==> !Resets(s.threads[t])
  {
    hide TicketInv, DeviceInv, SubmitInv, CancelInv;
    forall t | 0 <= t < |s.threads| ensures !Resets(s.threads[t]) {
      assert Resets(s.threads[t]) ==> t in s.work.portWorkers && SomeRun(s, s.work.portWorkers);
    }
  }

  /** Once the wait for the ring is over, some continuation returns the port, with no worker
      taking what is queued. */
  lemma CanReturn(s: State) returns (steps: seq<Step>)
    requires PortInv(s) && WorkInv(s) && PastDrain(s)
    ensures Run(s, steps).teardown.Returned? && KeepsQueued(s.v, Run(s, steps).v)
  {
    hide PortInv, WorkInv, Resets;
    if s.teardown.Returned? {
      steps := [];
    } else {
      NoResets(s);
      var first := AllLeave(s, |s.threads|);
      var rest := NobodyReturns(Run(s, first));
      RunAppend(s, first, rest);
      steps := first + rest;
    }
  }

  // ---- the promise of the teardown --------------------------------------------------------

  // The port has been returned and every accepted urbp was given back exactly once. Whether
  // something still refers to the device is the subject of VusbReferences.
  ghost predicate GivesAllBack(s: State) {
    s.teardown.Returned? && forall h: Ticket :: multiset(s.givenBack)[h] == if h < s.accepted then 1 else 0
  }

  ghost predicate CanComplete(s: State) {
    exists steps :: GivesAllBack(Run(s, steps))
  }

  // Whatever happens next, the teardown can still finish like that.
  ghost predicate Completes(s: State) {
    forall steps :: CanComplete(Run(s, steps))
  }

  lemma {:induction false} RunSafe(s: State, steps: seq<Step>)
    requires PortInv(s) && Safe(s)
    ensures PortInv(Run(s, steps)) && Safe(Run(s, steps))
    decreases |steps|
  {
    hide PortInv, Safe, Next;
    if steps != [] {
      NextKeeps(s, steps[0]);
      SafeStep(s, steps[0]);
      RunSafe(Next(s, steps[0]), steps[1..]);
    }
  }

  lemma PastStep(s: State, step: Step)
    requires PortInv(s) && PastDrain(s)
    ensures PastDrain(Next(s, step))
  {
    hide TicketInv, DeviceInv, SubmitInv, CancelInv, AdvanceThread, FinishEach;
    if step.Advance? {
      AdvanceNeverRaises(s, step.thread);
    }
  }

  lemma {:induction false} RunPast(s: State, steps: seq<Step>)
    requires PortInv(s) && PastDrain(s)
    ensures PastDrain(Run(s, steps))
    decreases |steps|
  {
    hide PortInv, PastDrain, Next;
    if steps != [] {
      NextKeeps(s, steps[0]);
      PastStep(s, steps[0]);
      RunPast(Next(s, steps[0]), steps[1..]);
    }
  }

  lemma ReturnedSafely(s: State, steps: seq<Step>)
    requires PortInv(s) && Safe(s) && Run(s, steps).teardown.Returned?
    ensures GivesAllBack(Run(s, steps))
  {
    hide PortInv, Safe, Run;
    SafeGivesAllBack(s, steps);
  }

  lemma LossBreaks(s: State, steps: seq<Step>, h: Ticket)
    requires PortInv(s) && !s.teardown.Alive? && Loses(s, steps, h)
    ensures !Completes(s)
  {
    hide PortInv, Loses;
    forall more ensures !GivesAllBack(Run(Run(s, steps), more)) {
      AcceptedStays(s, steps + more);
      RunAppend(s, steps, more);
      LostIsMissing(s, steps, h, more);
    }
    assert !CanComplete(Run(s, steps));
  }

  lemma SafeCompletes(s: State)
    requires PortInv(s) && WorkInv(s) && Safe(s) && PastDrain(s)
    ensures Completes(s)
  {
    hide PortInv, WorkInv, Safe, PastDrain;
    forall steps ensures CanComplete(Run(s, steps)) {
      var more := FinishSafely(s, steps);
    }
  }

  /** Exactly when the teardown keeps its promise once nobody is inside: whatever happens
      next it can still return the port with every urbp given back once, if and only if no
      late answer is possible. If one is, some continuation loses a urbp for good. */
  lemma TeardownExact(s: State)
    requires PortInv(s) && WorkInv(s) && s.teardown.Quiet?
    ensures Completes(s) <==> !LateAnswerPossible(s.v)
    ensures LateAnswerPossible(s.v) ==> exists steps, h: Ticket :: Loses(s, steps, h)
  {
    hide PortInv, WorkInv, Completes, Loses, LateAnswerPossible;
    if LateAnswerPossible(s.v) {
      var steps, h := LateAnswerLosesUrbp(s);
      LossBreaks(s, steps, h);
    } else {
      SafeCompletes(s);
    }
  }

  lemma FinishSafely(s: State, steps: seq<Step>) returns (more: seq<Step>)
    requires PortInv(s) && WorkInv(s) && Safe(s) && PastDrain(s)
    ensures GivesAllBack(Run(Run(s, steps), more))
  {
    hide PortInv, WorkInv, Run, Safe;
    RunWork(s, steps);
    RunSafe(s, steps);
    RunPast(s, steps);
    more := CanReturn(Run(s, steps));
    ReturnedSafely(Run(s, steps), more);
  }

  lemma AcceptedStep(s: State, step: Step)
    requires PortInv(s) && !s.teardown.Alive?
    ensures Next(s, step).accepted == s.accepted && !Next(s, step).teardown.Alive?
  {
    assert s.closing || s.teardown.Returned?;
    assert !MayStart(s);
    hide PortInv, FinishEach, PutInternal, AdvanceThread, SomeRun, RingEmpty, HandlerRunning, PoolAllowed;
    if step.Advance? {
      AdvanceAccepts(s, step.thread);
    }
  }

  lemma AdvanceAccepts(s: State, t: nat)
    ensures AdvanceThread(s, t).accepted == s.accepted && AdvanceThread(s, t).teardown == s.teardown
  {
    hide ProcessSection, DequeueSection, InterruptSection, PutInternal;
  }

  // A port that closes accepts nothing more.
  lemma {:induction false} AcceptedStays(s: State, steps: seq<Step>)
    requires PortInv(s) && !s.teardown.Alive?
    ensures Run(s, steps).accepted == s.accepted
    decreases |steps|
  {
    hide PortInv, Next;
    if steps != [] {
      NextKeeps(s, steps[0]);
      AcceptedStep(s, steps[0]);
      AcceptedStays(Next(s, steps[0]), steps[1..]);
    }
  }

  lemma LostIsMissing(s: State, steps: seq<Step>, h: Ticket, more: seq<Step>)
    requires Loses(s, steps, h) && Run(Run(s, steps), more).accepted == s.accepted
    ensures !GivesAllBack(Run(Run(s, steps), more))
  {
    hide Run;
    var w := Run(Run(s, steps), more);
    assert h in w.givenBack <==> h in multiset(w.givenBack);
  }

  // ---- a teardown that starts with nobody inside --------------------------------------------

  // Every request has been answered, though the answers may still be on the ring.
  predicate OwesNothing(r: Ring) {
    r.reqs == [] && r.held == multiset{}
  }

  // Nobody is inside, and what is on the ring will be taken off it.
  ghost predicate Calm(s: State) {
    && Safe(s)
    && (s.teardown.Closing? ==> OwesNothing(s.v.ring))
    && (Waiting(s) ==>
          OwesNothing(s.v.ring) && (s.v.flags.rflush || s.v.ring.rsps == []))
  }

  lemma CalmHandler(s: State, t: nat)
    requires PortInv(s) && Calm(s) && Safe(AdvanceThread(s, t))
    requires t < |s.threads| && s.threads[t] == InHandler(false)
    ensures Calm(AdvanceThread(s, t))
  {
    hide Safe, TicketInv, SubmitInv, CancelInv, Inv, Settled, ConsumeEach;
    if s.teardown.Closing? || Waiting(s) {
      InterruptKeeps(s.v, false);
    }
  }

  lemma CalmStep(s: State, step: Step)
    requires PortInv(s) && Calm(s)
    ensures Calm(Next(s, step))
  {
    SafeStep(s, step);
    SafeMeansIdle(s);
    ClosedThreads(s);
    hide Safe, PortInv;
    match step
    case Advance(t) =>
      hide InterruptSection;
      if t < |s.threads| && s.threads[t].InHandler? {
        CalmHandler(s, t);
      }
    case TeardownNext => CalmTeardown(s);
    case Read => CalmBackend(s, step);
    case Answer(_) => CalmBackend(s, step);
    case _ =>
      IdleStep(s, step);
      hide Next;
  }

  lemma CalmTeardown(s: State)
    requires Calm(s) && Safe(TeardownStep(s))
    ensures Calm(TeardownStep(s))
  {
    hide Safe, FinishEach, RingEmpty, SomeRun, HandlerRunning;
  }

  lemma CalmBackend(s: State, step: Step)
    requires Calm(s) && (step.Read? || step.Answer?) && Safe(Next(s, step))
    ensures Calm(Next(s, step))
  {
    BackendMoves(s, step);
    BackendEmpties(s, step);
    hide Safe;
  }

  lemma {:induction false} RunCalm(s: State, steps: seq<Step>)
    requires PortInv(s) && Calm(s)
    ensures PortInv(Run(s, steps)) && Calm(Run(s, steps))
    decreases |steps|
  {
    hide PortInv, Calm, Next;
    if steps != [] {
      NextKeeps(s, steps[0]);
      CalmStep(s, steps[0]);
      RunCalm(Next(s, steps[0]), steps[1..]);
    }
  }

  // With nobody inside no work item runs.
  lemma NoWork(s: State)
    requires PortInv(s) && WorkInv(s) && s.processing == 0
    ensures NoWorkRuns(s)
  {
    hide TicketInv, DeviceInv, SubmitInv, CancelInv;
    ClosedThreads(s);
  }

  lemma ClosingStarts(s: State)
    requires PortInv(s) && WorkInv(s) && s.teardown.Closing?
    ensures var w := Next(s, TeardownNext);
            && PortInv(w) && WorkInv(w) && w.processing == s.processing && w.threads == s.threads
            && w.teardown.Flushing? && w.v == s.v.(flags := w.v.flags) && w.v.flags.rflush && w.givenBack == s.givenBack
  {
    NextKeeps(s, TeardownNext);
    WorkKeeps(s, TeardownNext);
    hide PortInv, WorkInv;
  }

  // The waits of a teardown with nobody inside can end.
  lemma IdleDrains(s: State) returns (steps: seq<Step>)
    requires PortInv(s) && WorkInv(s) && s.processing == 0
    requires s.teardown.Closing? || (Waiting(s) && CanDrain(s))
    ensures Run(s, steps).teardown.Drained?
  {
    hide PortInv, WorkInv, Run, NoWorkRuns, Next;
    if s.teardown.Closing? {
      ClosingStarts(s);
      var w := Next(s, TeardownNext);
      NoWork(w);
      var rest := CanStopWaiting(w);
      RunOne(s, TeardownNext);
      RunAppend(s, [TeardownNext], rest);
      steps := [TeardownNext] + rest;
    } else {
      NoWork(s);
      steps := CanStopWaiting(s);
    }
  }

  // From the phases before the end of the drain wait.
  lemma IdleReturns(s: State) returns (steps: seq<Step>)
    requires PortInv(s) && WorkInv(s) && s.processing == 0
    requires s.teardown.Closing? || (Waiting(s) && CanDrain(s))
    ensures Run(s, steps).teardown.Returned?
  {
    hide PortInv, WorkInv, Run;
    var first := IdleDrains(s);
    RunWork(s, first);
    var rest := CanReturn(Run(s, first));
    RunAppend(s, first, rest);
    steps := first + rest;
  }

  /** A teardown that starts with nobody inside can always return the port with every urbp
      given back: the backend answers everything before the interrupt that flushes. */
  lemma QuiescedCanComplete(s: State) returns (steps: seq<Step>)
    requires PortInv(s) && WorkInv(s) && s.processing == 0 && s.present && !s.closing
    ensures GivesAllBack(Run(Next(s, Destroy), steps))
  {
    hide Run, GivesAllBack;
    var w := Next(s, Destroy);
    NextKeeps(s, Destroy);
    WorkKeeps(s, Destroy);
    QuiescedDestroyIsSafe(s);
    hide PortInv, WorkInv, Safe;
    steps := IdleReturns(w);
    ReturnedSafely(w, steps);
  }
}
