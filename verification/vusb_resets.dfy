/** A worker that waits for a reset: its answer has come, or its request is on the ring. */
module VusbResets {
  import opened VusbDevice
  import opened VusbSlots
  import opened VusbInvariants
  import opened VusbKeeps
  import opened VusbCompletion
  import opened VusbSections
  import opened VusbMachine
  import opened VusbRuns
  import opened VusbReach
  import opened VusbTheorems
  import opened VusbWork
  import opened VusbTeardown

  // Slot i carries a reset that has not been consumed.
  ghost predicate ResetOnRing(v: Vdev, i: nat) {
    i < |v.slots.shadows| && InFlight(v.ring, i) > 0 && v.slots.shadows[i].kind.ResetRequest?
  }

  ghost predicate Answerable(v: Vdev) {
    v.flags.resetDone || exists i: nat :: ResetOnRing(v, i)
  }

  ghost predicate ResetInv(s: State) {
    forall t :: 0 <= t < |s.threads| && s.threads[t].AwaitingReset? ==> Answerable(s.v)
  }

  // A reset on the ring is still there, or has been answered.
  ghost predicate KeepsResets(v: Vdev, w: Vdev) {
    && (v.flags.resetDone ==> w.flags.resetDone)
    && forall i: nat :: ResetOnRing(v, i) ==> ResetOnRing(w, i) || w.flags.resetDone
  }

  lemma KeepsAnswerable(v: Vdev, w: Vdev)
    requires KeepsResets(v, w) && Answerable(v)
    ensures Answerable(w)
  {
    if !v.flags.resetDone {
      var i: nat :| ResetOnRing(v, i);
      assert ResetOnRing(w, i) || w.flags.resetDone;
    }
  }

  lemma ResetsTransitive(u: Vdev, v: Vdev, w: Vdev)
    requires KeepsResets(u, v) && KeepsResets(v, w)
    ensures KeepsResets(u, w)
  {
    forall i: nat | ResetOnRing(u, i) ensures ResetOnRing(w, i) || w.flags.resetDone {
      assert ResetOnRing(v, i) || v.flags.resetDone;
    }
  }

  // Neither the ring nor the kind of any slot has changed.
  lemma SameResets(v: Vdev, w: Vdev)
    requires w.ring == v.ring && |w.slots.shadows| == |v.slots.shadows| && (v.flags.resetDone ==> w.flags.resetDone)
    requires forall i :: 0 <= i < |v.slots.shadows| ==> w.slots.shadows[i].kind == v.slots.shadows[i].kind
    ensures KeepsResets(v, w)
  {
  }

  // ---- the sections -----------------------------------------------------------------------

  lemma TakenResets(v: Vdev, w: Vdev, i: nat, x: Shadow)
    requires SlotInv(v) && (Launched(v, w, i, x) || Abandoned(v, w, i, x))
    ensures KeepsResets(v, w)
  {
    var top := TopIsFree(v);
    forall k: nat | ResetOnRing(v, k) ensures ResetOnRing(w, k) {
      assert k != i;
      assert Launched(v, w, i, x) ==> multiset(w.ring.reqs) == multiset(v.ring.reqs) + multiset{i};
    }
  }

  lemma PutUrbResets(v: Vdev, h: Ticket)
    requires SlotInv(v) && GrantInv(v.slots) && h in v.urbps
    ensures KeepsResets(v, PutUrb(v, h).0)
  {
    var i, x := PutUrbEffect(v, h);
    hide PutUrb, SlotInv, GrantInv, Launched, Abandoned;
    if !PutUrb(v, h).1.SendAgain? {
      TakenResets(v, PutUrb(v, h).0, i, x);
    }
  }

  lemma SendUrbResets(v: Vdev, h: Ticket)
    requires Inv(v) && h in v.urbps
    ensures KeepsResets(v, SendUrb(v, h))
  {
    PutUrbResets(v, h);
    var d := Dispatch(v, h);
    assert KeepsResets(v, d) by {
      hide PutUrb, Inv;
      DispatchResets(v, h);
    }
    SameResets(d, SendUrb(v, h)) by { hide Dispatch, Without; }
    ResetsTransitive(v, d, SendUrb(v, h));
  }

  lemma DispatchResets(v: Vdev, h: Ticket)
    requires h in v.urbps && KeepsResets(v, PutUrb(v, h).0)
    ensures KeepsResets(v, Dispatch(v, h))
  {
    hide PutUrb, KeepsResets;
    var (w, r) := PutUrb(v, h);
    if v.urbps[h].state.New? && !v.urbps[h].urb.pipe.Unknown? && !(v.urbps[h].urb.pipe.Control? && v.urbps[h].urb.setAddress) {
      SameResets(w, RecordResult(w, h, r));
      ResetsTransitive(v, w, RecordResult(w, h, r));
    } else {
      SameResets(v, Dispatch(v, h));
    }
  }

  lemma {:induction false} SendEachResets(v: Vdev, hs: seq<Ticket>)
    requires Inv(v) && Remaining(v, hs)
    ensures KeepsResets(v, SendEach(v, hs))
    decreases |hs|
  {
    hide Inv, Remaining, SendUrb, KeepsResets;
    if hs == [] {
      SameResets(v, v);
    } else {
      SendHead(v, hs);
      SendUrbResets(v, hs[0]);
      SendEachResets(SendUrb(v, hs[0]), hs[1..]);
      ResetsTransitive(v, SendUrb(v, hs[0]), SendEach(v, hs));
    }
  }

  // Finishing changes no kind, nor the ring.
  ghost predicate SameKinds(v: Vdev, w: Vdev) {
    && w.ring == v.ring && |w.slots.shadows| == |v.slots.shadows| && w.flags.resetDone == v.flags.resetDone
    && (forall i :: 0 <= i < |v.slots.shadows| ==> w.slots.shadows[i].kind == v.slots.shadows[i].kind)
  }

  lemma {:induction false} FinishEachKinds(v: Vdev, hs: seq<Ticket>)
    ensures SameKinds(v, FinishEach(v, hs))
    decreases |hs|
  {
    if hs != [] {
      if hs[0] in v.urbps && v.urbps[hs[0]].rspId < |v.slots.shadows| {
        FinishUrbKinds(v, hs[0]);
        hide FinishUrb;
        FinishEachKinds(FinishUrb(v, hs[0]), hs[1..]);
      } else {
        FinishEachKinds(Bug(v), hs[1..]);
      }
    }
  }

  lemma FinishUrbKinds(v: Vdev, h: Ticket)
    requires h in v.urbps && v.urbps[h].rspId < |v.slots.shadows|
    ensures SameKinds(v, FinishUrb(v, h))
  {
    hide Without, EndGrants;
  }

  lemma ProcessResets(v: Vdev, arrival: Option<Ticket>)
    requires Inv(v) && Settled(v) && MayArrive(v, arrival)
    ensures KeepsResets(v, ProcessSection(v, arrival).0)
  {
    FinishThenAppend(v, arrival);
    FinishEachKinds(v, v.lists.finish);
    var v1 := Append(FinishEach(v, v.lists.finish), arrival);
    hide Inv, Settled, Remaining, FinishEach, KeepsResets, SendEach;
    SameResets(v, v1);
    SendEachResets(v1, v1.lists.pending);
    var v2 := SendEach(v1, v1.lists.pending);
    var w := v2.(lists := v2.lists.(release := []));
    SameResets(v2, w);
    ResetsTransitive(v1, v2, w);
    ResetsTransitive(v, v1, w);
  }

  lemma PutInternalResets(v: Vdev, kind: RequestKind)
    requires Inv(v)
    ensures KeepsResets(v, PutInternal(v, kind).0)
    ensures kind.ResetRequest? && PutInternal(v, kind).1 ==> Answerable(PutInternal(v, kind).0)
  {
    var w := PutInternal(v, kind).0;
    if v.slots.free != [] {
      var i, x := InternalEffect(v, kind);
      TakenResets(v, w, i, x);
      LaunchedSlots(v, w, i, x) by { SameFinishIds(v, w); }
      if kind.ResetRequest? {
        assert ResetOnRing(w, i);
      }
    } else {
      SameResets(v, w);
    }
  }

  lemma SameFinishIds(v: Vdev, w: Vdev)
    requires w.urbps == v.urbps && w.lists == v.lists
    ensures FinishIds(w.urbps, w.lists.finish) == FinishIds(v.urbps, v.lists.finish)
  {
  }

  lemma DequeueResets(v: Vdev, h: Ticket)
    requires Inv(v)
    ensures KeepsResets(v, DequeueSection(v, h))
  {
    if h in v.lists.pending && h in v.urbps && v.urbps[h].state.Sent? {
      var c := SetState(v, h, Cancel);
      StateKeeps(v, c, h, Cancel);
      PutInternalResets(c, CancelRequest(v.urbps[h].id));
      SameResets(v, c);
      ResetsTransitive(v, c, DequeueSection(v, h));
    } else {
      SameResets(v, DequeueSection(v, h));
    }
  }

  lemma ConsumeResets(v: Vdev)
    requires Inv(v) && v.ring.rsps != [] && v.ring.rsps[0] < |v.slots.shadows|
    ensures KeepsResets(v, ConsumeResponse(v))
  {
    ResponseIsLinked(v);
    var i, w := v.ring.rsps[0], ConsumeResponse(v);
    hide Inv, Without, EndGrants;
    forall k: nat | ResetOnRing(v, k) && k != i ensures ResetOnRing(w, k) {
      assert multiset(v.ring.rsps) == multiset{i} + multiset(v.ring.rsps[1..]);
    }
  }

  lemma {:induction false} ConsumeEachResets(v: Vdev)
    requires Inv(v)
    ensures KeepsResets(v, ConsumeEach(v))
    decreases |v.ring.rsps|
  {
    hide Inv, KeepsResets, ConsumeResponse;
    if v.ring.rsps == [] {
      SameResets(v, v);
    } else {
      ConsumeKeeps(v);
      ConsumeResets(v);
      ConsumeEachResets(ConsumeResponse(v));
      ResetsTransitive(v, ConsumeResponse(v), ConsumeEach(v));
    }
  }

  lemma InterruptResets(v: Vdev, processing: bool)
    requires Inv(v)
    ensures KeepsResets(v, InterruptSection(v, processing))
  {
    hide Inv, KeepsResets, ConsumeEach;
    if !processing && !v.flags.rflush {
      SameResets(v, v);
    } else {
      ConsumeEachResets(v);
      SameResets(ConsumeEach(v), InterruptSection(v, processing));
      ResetsTransitive(v, ConsumeEach(v), InterruptSection(v, processing));
    }
  }

  // ---- every step -----------------------------------------------------------------------------

  lemma AdvanceResets(s: State, t: nat)
    requires PortInv(s) && t < |s.threads| && !s.threads[t].AwaitingReset?
    ensures KeepsResets(s.v, AdvanceThread(s, t).v)
    ensures s.threads[t].Resetting? && AdvanceThread(s, t).threads[t].AwaitingReset? ==> Answerable(AdvanceThread(s, t).v)
  {
    if Inside(s.threads[t]) || s.threads[t].InHandler? {
      InsideMeansAlive(s, t);
      if s.threads[t].Submitting? {
        NotHeldNotListed(s, t);
      }
    }
    hide PortInv, Inv, Settled, KeepsResets, ProcessSection, DequeueSection, InterruptSection, PutInternal;
    match s.threads[t]
    case Submitting(h) => ProcessResets(s.v, Some(h));
    case Working => ProcessResets(s.v, None);
    case Cancelling(h) => DequeueResets(s.v, h);
    case InHandler(processing) => InterruptResets(s.v, processing);
    case Resetting => PutInternalResets(s.v, ResetRequest);
    case _ => SameResets(s.v, AdvanceThread(s, t).v);
  }

  lemma AdvanceResetInv(s: State, t: nat)
    requires PortInv(s) && WorkInv(s) && ResetInv(s)
    ensures ResetInv(AdvanceThread(s, t))
  {
    if t < |s.threads| {
      AdvanceShape(s, t);
      var w := AdvanceThread(s, t);
      if s.threads[t].AwaitingReset? {
        OnlyReset(s, t);
        AwaitingStep(s, t);
      } else {
        AdvanceResets(s, t);
        hide AdvanceThread, PortInv, WorkInv, Answerable, KeepsResets;
        forall k | 0 <= k < |w.threads| && w.threads[k].AwaitingReset? ensures Answerable(w.v) {
          if k != t {
            KeepsAnswerable(s.v, w.v);
          }
        }
      }
    } else {
      AdvanceNobody(s, t);
    }
  }

  lemma OnlyReset(s: State, t: nat)
    requires WorkInv(s) && t < |s.threads| && Resets(s.threads[t])
    ensures forall k :: 0 <= k < |s.threads| && k != t ==> !Resets(s.threads[k])
  {
  }

  lemma AwaitingStep(s: State, t: nat)
    requires t < |s.threads| && s.threads[t].AwaitingReset? && ResetInv(s)
    requires forall k :: 0 <= k < |s.threads| && k != t ==> !Resets(s.threads[k])
    ensures ResetInv(AdvanceThread(s, t))
  {
  }

  // Nobody new waits for a reset, and the ring is as good as it was.
  lemma SameResetInv(s: State, w: State)
    requires ResetInv(s) && KeepsResets(s.v, w.v)
    requires forall t :: 0 <= t < |w.threads| && w.threads[t].AwaitingReset? ==> t < |s.threads| && s.threads[t].AwaitingReset?
    ensures ResetInv(w)
  {
    forall t | 0 <= t < |w.threads| && w.threads[t].AwaitingReset? ensures Answerable(w.v) {
      KeepsAnswerable(s.v, w.v);
    }
  }

  lemma BackendResets(s: State, step: Step)
    requires step.Read? || step.Answer?
    ensures KeepsResets(s.v, Next(s, step).v)
  {
    BackendMoves(s, step);
    RingKeepsFlight(s.v.ring, Next(s, step).v.ring);
  }

  lemma TeardownResets(s: State)
    ensures KeepsResets(s.v, TeardownStep(s).v) && TeardownStep(s).threads == s.threads
  {
    hide FinishEach, KeepsResets, RingEmpty, SomeRun, HandlerRunning;
    FinishEachKinds(s.v, s.v.lists.finish);
    TeardownKinds(s);
    hide TeardownStep;
    SameResets(s.v, TeardownStep(s).v);
  }

  lemma TeardownKinds(s: State)
    requires SameKinds(s.v, FinishEach(s.v, s.v.lists.finish))
    ensures SameKinds(s.v, TeardownStep(s).v) && TeardownStep(s).threads == s.threads
  {
    hide FinishEach, SameKinds, RingEmpty, SomeRun, HandlerRunning;
    var w := TeardownStep(s);
    if !s.teardown.Quiet? {
      assert w.v.ring == s.v.ring && w.v.slots == s.v.slots && w.v.flags.resetDone == s.v.flags.resetDone;
      KindsOf(s.v, w.v);
    }
  }

  lemma KindsOf(v: Vdev, w: Vdev)
    requires w.ring == v.ring && w.slots == v.slots && w.flags.resetDone == v.flags.resetDone
    ensures SameKinds(v, w)
  {
  }

  lemma ArrivalResets(s: State, step: Step)
    requires !step.Advance? && !step.Read? && !step.Answer? && !step.TeardownNext? && !step.SpeedQuery?
    ensures var w := Next(s, step);
            && KeepsResets(s.v, w.v)
            && forall t :: 0 <= t < |w.threads| && w.threads[t].AwaitingReset? ==> t < |s.threads| && s.threads[t].AwaitingReset?
  {
    hide PoolAllowed, KeepsResets;
    SameResets(s.v, Next(s, step).v);
  }

  lemma ResetKeeps(s: State, step: Step)
    requires PortInv(s) && WorkInv(s) && ResetInv(s)
    ensures ResetInv(Next(s, step))
  {
    hide WorkInv, ResetInv, KeepsResets;
    var w := Next(s, step);
    match step
    case Advance(t) => AdvanceResetInv(s, t);
    case Read =>
      BackendResets(s, step);
      SameResetInv(s, w);
    case Answer(_) =>
      BackendResets(s, step);
      SameResetInv(s, w);
    case TeardownNext =>
      TeardownResets(s);
      SameResetInv(s, w);
    case SpeedQuery =>
      if s.teardown.Alive? {
        PutInternalResets(s.v, SpeedRequest);
      } else {
        SameResets(s.v, w.v);
      }
      hide PortInv, PutInternal;
      SameResetInv(s, w);
    case _ =>
      hide PortInv, Next;
      ArrivalResets(s, step);
      SameResetInv(s, w);
  }

  // What holds in every reachable state.
  ghost predicate FullInv(s: State) {
    PortInv(s) && WorkInv(s) && ResetInv(s)
  }

  lemma FullKeeps(s: State, step: Step)
    requires FullInv(s)
    ensures FullInv(Next(s, step))
  {
    hide PortInv, WorkInv, ResetInv, Next;
    NextKeeps(s, step);
    WorkKeeps(s, step);
    ResetKeeps(s, step);
  }

  lemma {:induction false} RunFull(s: State, steps: seq<Step>)
    requires FullInv(s)
    ensures FullInv(Run(s, steps))
    decreases |steps|
  {
    hide FullInv, Next;
    if steps != [] {
      FullKeeps(s, steps[0]);
      RunFull(Next(s, steps[0]), steps[1..]);
    }
  }

  /** After any run from a fresh device a worker that waits for a reset has a request on the
      ring, or its answer has come. */
  lemma ReachableFull(env: Env, ringSize: nat, pool: seq<Gref>, steps: seq<Step>)
    requires Distinct(pool)
    ensures FullInv(Run(Init(env, ringSize, pool), steps))
  {
    hide PortInv, WorkInv, Run;
    ReachableWork(env, ringSize, pool, []);
    var s := Init(env, ringSize, pool);
    assert Run(s, []) == s by { RunNothing(s); }
    RunFull(s, steps);
  }
}
