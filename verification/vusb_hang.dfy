/** A teardown that starts with nobody inside, and when it can hang. */
module VusbHang {
  import opened VusbDevice
  import opened VusbSlots
  import opened VusbInvariants
  import opened VusbKeeps
  import opened VusbCompletion
  import opened VusbSections
  import opened VusbMachine
  import opened VusbRuns
  import opened VusbReach
  import opened VusbTheorems
  import opened VusbTeardown
  import opened VusbWork
  import opened VusbDrain
  import opened VusbReturn

  // Nobody is inside a port that is up.
  ghost predicate Quiesced(s: State) {
    s.processing == 0 && s.present && !s.closing
  }

  // Nobody is inside, the ring is not empty, and nobody will take an answer.
  ghost predicate Hung(s: State) {
    Stuck(s) && s.processing == 0
  }

  // ---- a hung teardown stays hung ---------------------------------------------------------

  lemma HungStep(s: State, step: Step)
    requires PortInv(s) && Hung(s)
    ensures Hung(Next(s, step)) && Next(s, step).givenBack == s.givenBack
  {
    StuckStep(s, step);
    ClosedThreads(s);
    HungIsClosed(s);
    hide PortInv, Hung, AdvanceThread;
    if step.Advance? {
      ClosedAdvance(s, step.thread);
    } else {
      ClosedStep(s, step);
    }
    HungMeans(s);
    HungMeans(Next(s, step));
  }

  lemma HungIsClosed(s: State)
    requires PortInv(s) && Hung(s)
    ensures Waiting(s) && s.closing
  {
    hide TicketInv, DeviceInv, SubmitInv, CancelInv;
  }

  lemma HungMeans(s: State)
    ensures Hung(s) <==> Stuck(s) && s.processing == 0
  {
  }

  lemma ClosedAdvance(s: State, t: nat)
    requires t < |s.threads| ==> s.threads[t].Gone? || s.threads[t] == InHandler(false)
    ensures AdvanceThread(s, t).processing == s.processing && AdvanceThread(s, t).givenBack == s.givenBack
  {
    hide InterruptSection;
  }

  lemma ClosedStep(s: State, step: Step)
    requires Waiting(s) && s.closing && !step.Advance?
    ensures Next(s, step).processing == s.processing && Next(s, step).givenBack == s.givenBack
  {
    hide SomeRun, RingEmpty, PoolAllowed, PutInternal, BackendRead, BackendAnswer;
  }

  /** A hung teardown never returns and gives nothing more back, whatever the backend answers. */
  lemma {:induction false} HungForever(s: State, steps: seq<Step>)
    requires PortInv(s) && Hung(s)
    ensures Hung(Run(s, steps)) && Run(s, steps).givenBack == s.givenBack
    ensures !Run(s, steps).teardown.Returned?
    decreases |steps|
  {
    hide PortInv, Next;
    if steps != [] {
      hide Hung;
      NextKeeps(s, steps[0]);
      HungStep(s, steps[0]);
      HungForever(Next(s, steps[0]), steps[1..]);
    }
  }

  lemma HungCannotComplete(s: State)
    requires PortInv(s) && Hung(s)
    ensures !CanComplete(s)
  {
    hide PortInv, Hung, Run;
    forall steps ensures !GivesAllBack(Run(s, steps)) {
      HungForever(s, steps);
    }
  }

  // ---- the flush comes too early ------------------------------------------------------------

  // The handler takes what has been answered, clears rflush, and something is still owed.
  lemma EarlyFlush(s: State)
    requires PortInv(s) && s.teardown.Flushing? && s.closing && s.processing == 0 && !OwesNothing(s.v.ring)
    requires s.v.flags.rflush
    ensures var w := Next(Next(s, Irq), Advance(|s.threads|)); PortInv(w) && Hung(w) && w.givenBack == s.givenBack
  {
    var n, s1 := |s.threads|, Next(s, Irq);
    NextKeeps(s, Irq);
    NextKeeps(s1, Advance(n));
    assert s1.threads == s.threads + [InHandler(false)] && s1.v == s.v by { ClosedIrq(s); }
    FlushedStep(s1, n);
    ClosedThreads(Next(s1, Advance(n)));
    hide PortInv, Next;
  }

  lemma FlushedStep(s: State, t: nat)
    requires PortInv(s) && s.teardown.Flushing? && t < |s.threads| && s.threads[t] == InHandler(false) && s.v.flags.rflush
    ensures var w := Next(s, Advance(t));
            && w.v.ring == s.v.ring.(rsps := []) && !w.v.flags.rflush
            && w.teardown == s.teardown && w.processing == s.processing && w.givenBack == s.givenBack
  {
    hide TicketInv, SubmitInv, CancelInv, Inv, Settled, ConsumeEach;
    InterruptKeeps(s.v, false);
  }

  function EarlyFlushSteps(s: State): seq<Step> {
    [Destroy, TeardownNext] + [Irq, Advance(|s.threads|)]
  }

  lemma FlushWanted(s: State)
    requires PortInv(s) && Quiesced(s)
    ensures var w := Next(Next(s, Destroy), TeardownNext);
            PortInv(w) && w == s.(closing := true, teardown := Flushing, work := w.work,
                                  v := s.v.(flags := s.v.flags.(rflush := true, armed := false)))
  {
    NextKeeps(s, Destroy);
    NextKeeps(Next(s, Destroy), TeardownNext);
    hide PortInv;
  }

  // The teardown of a device to which the backend still owes an answer can hang.
  lemma CanHang(s: State)
    requires PortInv(s) && Quiesced(s) && !OwesNothing(s.v.ring)
    ensures var w := Run(s, EarlyFlushSteps(s)); PortInv(w) && Hung(w) && w.givenBack == s.givenBack
  {
    hide PortInv, Hung, Run, Next, OwesNothing;
    RunFour(s, Destroy, TeardownNext, Irq, Advance(|s.threads|));
    FlushWanted(s);
    EarlyFlush(Next(Next(s, Destroy), TeardownNext));
  }

  /** The backend answers each of its requests, but one at a time: the first interrupt
      uses up the flush, and no later answer is taken. */
  lemma OneAnswerPerInterruptHangs(s: State, id: nat)
    requires PortInv(s) && Quiesced(s) && id in s.v.ring.held && |s.v.ring.reqs| + |s.v.ring.held| >= 2
    ensures var w := Run(s, [Destroy, TeardownNext] + [Answer(id), Irq] + [Advance(|s.threads|)]);
            PortInv(w) && Hung(w) && w.givenBack == s.givenBack
  {
    hide PortInv, Hung, Run, Next, OwesNothing;
    var first, last := [Destroy, TeardownNext] + [Answer(id), Irq], Advance(|s.threads|);
    RunFour(s, Destroy, TeardownNext, Answer(id), Irq);
    RunAppend(s, first, [last]);
    RunOne(Run(s, first), last);
    FlushWanted(s);
    var s1 := Next(Next(s, Destroy), TeardownNext);
    AnswerOne(s1, id);
    EarlyFlush(Next(s1, Answer(id)));
  }

  lemma AnswerOne(s: State, id: nat)
    requires PortInv(s) && id in s.v.ring.held && |s.v.ring.reqs| + |s.v.ring.held| >= 2
    ensures var w := Next(s, Answer(id));
            PortInv(w) && w == s.(v := w.v) && w.v.flags == s.v.flags && !OwesNothing(w.v.ring)
  {
    NextKeeps(s, Answer(id));
    hide PortInv;
    OneAnswerLeavesOne(s.v.ring, Next(s, Answer(id)).v.ring, id);
  }

  lemma OneAnswerLeavesOne(r: Ring, q: Ring, id: nat)
    requires id in r.held && |r.reqs| + |r.held| >= 2 && q.held == r.held - multiset{id} && q.reqs == r.reqs
    ensures !OwesNothing(q)
  {
    assert |q.held| == |r.held| - 1;
  }

  // ---- exactly when the teardown of a quiesced device cannot hang ---------------------------

  lemma CalmCanComplete(s: State)
    requires PortInv(s) && WorkInv(s) && Calm(s)
    ensures CanComplete(s)
  {
    hide PortInv, WorkInv, Run, GivesAllBack;
    if PastDrain(s) {
      var steps := FinishSafely(s, []);
      RunNothing(s);
    } else {
      CalmIsIdle(s);
      hide Calm, Safe;
      var steps := IdleReturns(s);
      ReturnedSafely(s, steps);
    }
  }

  lemma CalmIsIdle(s: State)
    requires PortInv(s) && Calm(s) && !PastDrain(s)
    ensures Safe(s) && s.processing == 0
    ensures s.teardown.Closing? || (Waiting(s) && CanDrain(s))
  {
    hide PortInv;
  }

  lemma CalmCompletes(s: State)
    requires PortInv(s) && WorkInv(s) && Calm(s)
    ensures Completes(s)
  {
    hide PortInv, WorkInv, Calm, CanComplete, Run;
    forall steps ensures CanComplete(Run(s, steps)) {
      RunWork(s, steps);
      RunCalm(s, steps);
      CalmCanComplete(Run(s, steps));
    }
  }

  /** Exactly when the teardown of a device with nobody inside can always, whatever happens
      meanwhile, return the port with every urbp given back once: if and only if the backend
      has answered every request before the teardown starts. */
  lemma QuiescedExact(s: State)
    requires PortInv(s) && WorkInv(s) && Quiesced(s)
    ensures Completes(Next(s, Destroy)) <==> OwesNothing(s.v.ring)
  {
    var w := Next(s, Destroy);
    assert w == s.(closing := true, teardown := Closing);
    NextKeeps(s, Destroy);
    WorkKeeps(s, Destroy);
    hide PortInv, WorkInv, Run, OwesNothing, Next;
    if OwesNothing(s.v.ring) {
      CalmCompletes(w);
    } else {
      CanHang(s);
      var rest := EarlyFlushSteps(s)[1..];
      RunAppend(s, [Destroy], rest);
      RunOne(s, Destroy);
      assert [Destroy] + rest == EarlyFlushSteps(s);
      HungCannotComplete(Run(w, rest));
    }
  }

  // ---- a run that hangs -----------------------------------------------------------------------

  /** A concrete run of a port with two slots: one URB is accepted and sent, its thread leaves,
      and the teardown's only flush comes before the answer. The URB is never given back. */
  lemma QuiescedTeardownCanHang(env: Env) returns (steps: seq<Step>)
    ensures var s := Run(Init(env, 2, []), steps);
            && PortInv(s) && Hung(s) && s.accepted == 1 && s.givenBack == []
            && forall more :: !Run(s, more).teardown.Returned? && Run(s, more).givenBack == []
  {
    hide PortInv, Hung, Run, Next;
    var s0 := Init(env, 2, []);
    var first := SentAndLeft(env);
    var s := Run(s0, first);
    InitInv(env, 2, []);
    RunKeeps(s0, first);
    CanHang(s);
    var second := EarlyFlushSteps(s);
    steps := first + second;
    RunAppend(s0, first, second);
    var w := Run(s, second);
    HangsWithOne(s);
    forall more ensures !Run(w, more).teardown.Returned? && Run(w, more).givenBack == [] {
      HungForever(w, more);
    }
  }

  lemma HangsWithOne(s: State)
    requires PortInv(s) && Quiesced(s)
    ensures Run(s, EarlyFlushSteps(s)).accepted == s.accepted
  {
    hide PortInv, Run;
    var rest := EarlyFlushSteps(s)[1..];
    NextKeeps(s, Destroy);
    AcceptedStays(Next(s, Destroy), rest);
    assert [Destroy] + rest == EarlyFlushSteps(s);
    RunAppend(s, [Destroy], rest);
    RunOne(s, Destroy);
  }

  lemma SentAndLeft(env: Env) returns (steps: seq<Step>)
    ensures var s := Run(Init(env, 2, []), steps);
            && Quiesced(s) && s.accepted == 1 && s.givenBack == [] && s.v.ring.reqs == [1] && s.teardown.Alive?
            && UrbSlotsInFlight(s.v) != {}
  {
    var urb := Urb(Bulk, 0, 0, false);
    steps := [Start, Enqueue(urb, true)] + [Advance(0), Advance(0)];
    var s0 := Init(env, 2, []);
    RunFour(s0, Start, Enqueue(urb, true), Advance(0), Advance(0));
    var s1 := Next(Next(s0, Start), Enqueue(urb, true));
    assert s1.threads == [Submitting(0)];
    SendsTheOne(s1, urb);
    LastLeaves(Next(s1, Advance(0)));
  }

  lemma LastLeaves(s: State)
    requires s.threads == [GivingBack([])] && s.processing == 1
    ensures var w := Next(s, Advance(0)); w == s.(threads := [Gone], processing := 0)
  {
  }
}
