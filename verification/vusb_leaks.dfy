/** Grants after the teardown has freed the slots, which ends none of them. */
module VusbLeaks {
  import opened VusbDevice
  import opened VusbSlots
  import opened VusbInvariants
  import opened VusbKeeps
  import opened VusbSections
  import opened VusbMachine
  import opened VusbRuns
  import opened VusbReach
  import opened VusbTheorems
  import opened VusbTeardown
  import opened VusbGrants

  ghost function Active(s: State): multiset<Gref> {
    s.v.slots.grants.active
  }

  lemma GoneStep(s: State, step: Step)
    requires PortInv(s) && DeviceGone(s)
    ensures DeviceGone(Next(s, step)) && Active(Next(s, step)) == Active(s)
  {
    hide TicketInv, DeviceInv, SubmitInv, CancelInv;
    ClosedThreads(s);
    if step.Advance? && step.thread < |s.threads| {
      assert s.threads[step.thread].Gone?;
    }
  }

  // Once the slots are freed no grant starts or ends any more.
  lemma {:induction false} GoneForever(s: State, steps: seq<Step>)
    requires PortInv(s) && DeviceGone(s)
    ensures Active(Run(s, steps)) == Active(s)
    decreases |steps|
  {
    hide PortInv, Next, DeviceGone, Active;
    if steps != [] {
      NextKeeps(s, steps[0]);
      GoneStep(s, steps[0]);
      GoneForever(Next(s, steps[0]), steps[1..]);
    }
  }

  // Slot i is on the ring or on the finish list, and records ref.
  ghost predicate StillRecords(v: Vdev, i: nat, ref: Gref) {
    && i < |v.slots.shadows| && ref in GrantsOf(v.slots.shadows[i])
    && (InFlight(v.ring, i) > 0 || FinishIds(v.urbps, v.lists.finish)[i] > 0)
  }

  lemma RecordedInUse(v: Vdev, i: nat, ref: Gref)
    requires SlotInv(v) && i < |v.slots.shadows| && ref in GrantsOf(v.slots.shadows[i])
    ensures StillRecords(v, i, ref)
  {
    assert PlaceCount(v, i) == 1;
    assert i in v.slots.free <==> i in multiset(v.slots.free);
  }

  lemma ActiveExactly(v: Vdev, ref: Gref)
    requires SlotInv(v) && GrantInv(v.slots)
    ensures ref in v.slots.grants.active <==> exists i :: StillRecords(v, i, ref)
  {
    hide SlotInv, GrantsOf, StillRecords;
    if ref in v.slots.grants.active {
      GrantHolder(v.slots.shadows, ref);
      var i :| 0 <= i < |v.slots.shadows| && ref in GrantsOf(v.slots.shadows[i]);
      RecordedInUse(v, i, ref);
    }
    forall i | StillRecords(v, i, ref) ensures ref in v.slots.grants.active {
      StillRecordsMeans(v, i, ref);
      GrantsWithin(v.slots.shadows, i);
    }
  }

  lemma StillRecordsMeans(v: Vdev, i: nat, ref: Gref)
    requires StillRecords(v, i, ref)
    ensures i < |v.slots.shadows| && ref in GrantsOf(v.slots.shadows[i])
  {
  }

  /** What freeing the slots leaves: a reference stays active for good if and only if a slot
      that is still on the ring or on the finish list records it. */
  lemma GrantsLeftBehind(s: State, steps: seq<Step>, ref: Gref)
    requires PortInv(s) && s.teardown.Finished? && !HandlerRunning(s)
    ensures ref in Active(Run(Next(s, TeardownNext), steps)) <==> exists i :: StillRecords(s.v, i, ref)
  {
    NextKeeps(s, TeardownNext);
    var w := Next(s, TeardownNext);
    assert w == s.(teardown := Freed);
    assert SlotInv(s.v) && GrantInv(s.v.slots);
    hide PortInv, Next, SlotInv, GrantInv, StillRecords;
    GoneForever(w, steps);
    ActiveExactly(s.v, ref);
  }

  // ---- a teardown that saw the ring empty with nobody inside -----------------------------

  ghost predicate NothingLeft(s: State) {
    match s.teardown
    case Drained => RingEmpty(s.v.ring) && s.processing == 0
    case Quiet => RingEmpty(s.v.ring)
    case Finished => RingEmpty(s.v.ring) && s.v.lists.finish == []
    case Freed => Active(s) == multiset{}
    case Returned => Active(s) == multiset{}
    case _ => false
  }

  lemma NoneInUse(v: Vdev)
    requires Inv(v) && RingEmpty(v.ring) && v.lists.finish == []
    ensures v.slots.grants.active == multiset{}
  {
    forall i | 0 <= i < |v.slots.shadows| ensures !v.slots.shadows[i].inUse {
      assert PlaceCount(v, i) == 1;
      assert i in v.slots.free <==> i in multiset(v.slots.free);
    }
    NoGrants(v.slots.shadows);
  }

  lemma FinishedIsEmpty(s: State)
    requires PortInv(s) && NothingLeft(s) && s.teardown.Finished?
    ensures Active(s) == multiset{}
  {
    hide TicketInv, SubmitInv, CancelInv, Inv, Settled;
    NoneInUse(s.v);
  }

  lemma NothingLeftTeardown(s: State)
    requires PortInv(s) && NothingLeft(s)
    ensures NothingLeft(TeardownStep(s))
  {
    if s.teardown.Quiet? {
      QuietLeavesNothing(s);
    } else {
      if s.teardown.Finished? {
        FinishedIsEmpty(s);
      }
      hide PortInv;
    }
  }

  lemma QuietLeavesNothing(s: State)
    requires PortInv(s) && NothingLeft(s) && s.teardown.Quiet?
    ensures NothingLeft(TeardownStep(s))
  {
    FinishEachKeeps(s.v);
    hide PortInv, Inv, Balanced, FinishEach;
  }

  // Nobody is inside, and there is nothing for a handler or the backend to take.
  ghost predicate Dry(s: State) {
    RingEmpty(s.v.ring) && s.closing && s.teardown in {Drained, Quiet, Finished}
  }

  lemma NothingLeftIsDry(s: State)
    requires PortInv(s) && NothingLeft(s) && !DeviceGone(s)
    ensures Dry(s) && s.processing == 0
  {
    hide TicketInv, DeviceInv, SubmitInv, CancelInv;
  }

  // Only the threads, the flags and the like may have changed.
  ghost predicate StaysDry(s: State, w: State) {
    w.v.ring == s.v.ring && w.v.lists == s.v.lists && w.teardown == s.teardown && w.processing == s.processing
  }

  lemma DryAdvance(s: State, t: nat)
    requires Dry(s) && (t < |s.threads| ==> s.threads[t].Gone? || s.threads[t] == InHandler(false))
    ensures StaysDry(s, AdvanceThread(s, t))
  {
  }

  lemma DryStep(s: State, step: Step)
    requires Dry(s) && !step.TeardownNext?
    requires forall t :: 0 <= t < |s.threads| ==> s.threads[t].Gone? || s.threads[t] == InHandler(false)
    ensures StaysDry(s, Next(s, step))
  {
    hide AdvanceThread;
    if step.Advance? {
      DryAdvance(s, step.thread);
    }
  }

  lemma NothingLeftStep(s: State, step: Step)
    requires PortInv(s) && NothingLeft(s)
    ensures NothingLeft(Next(s, step))
  {
    if step.TeardownNext? {
      NothingLeftTeardown(s);
    } else if DeviceGone(s) {
      hide PortInv;
      GoneStep(s, step);
    } else {
      hide PortInv, Next;
      NothingLeftIsDry(s);
      ClosedThreads(s);
      DryStep(s, step);
    }
  }

  /** A teardown that has seen the ring empty with nobody inside leaves no grant active. */
  lemma {:induction false} NoGrantLeft(s: State, steps: seq<Step>)
    requires PortInv(s) && NothingLeft(s)
    ensures NothingLeft(Run(s, steps))
    ensures DeviceGone(Run(s, steps)) ==> Active(Run(s, steps)) == multiset{}
    decreases |steps|
  {
    if steps != [] {
      hide PortInv, NothingLeft, Next;
      NextKeeps(s, steps[0]);
      NothingLeftStep(s, steps[0]);
      NoGrantLeft(Next(s, steps[0]), steps[1..]);
    }
  }
}
