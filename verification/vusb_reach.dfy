/** Every step keeps the invariant of the port, so it holds in every reachable state. */
module VusbReach {
  import opened VusbDevice
  import opened VusbSlots
  import opened VusbInvariants
  import opened VusbKeeps
  import opened VusbCompletion
  import opened VusbSections
  import opened VusbMachine
  import opened VusbRuns

  // ---- the teardown -----------------------------------------------------------------

  lemma DropHead(l: Lists, m: Lists, h: Ticket)
    requires || (l.release != [] && h == l.release[0] && m == l.(release := l.release[1..]))
             || (l.pending != [] && h == l.pending[0] && m == l.(pending := l.pending[1..]))
    ensures forall k: Ticket :: ListCount(m, k) + (if k == h then 1 else 0) == ListCount(l, k)
  {
    assert l.release != [] ==> l.release == [l.release[0]] + l.release[1..];
    assert l.pending != [] ==> l.pending == [l.pending[0]] + l.pending[1..];
  }

  // The teardown gives back urbp h, taken off its list, when no thread is inside.
  lemma TeardownGiveBackKeeps(s: State, w: State, h: Ticket)
    requires PortInv(s) && s.teardown.Freed?
    requires w == s.(v := s.v.(lists := w.v.lists, urbps := s.v.urbps - {h}), givenBack := s.givenBack + [h])
    requires forall k: Ticket :: ListCount(w.v.lists, k) + (if k == h then 1 else 0) == ListCount(s.v.lists, k)
    ensures PortInv(w)
  {
    hide Inv, Settled;
    NoneInside(s.threads);
    assert TicketCount(s, h) == if h < s.accepted then 1 else 0;
    assert ListCount(w.v.lists, h) + 1 == ListCount(s.v.lists, h);
    GivenBackTickets(s, w, h);
  }

  lemma FreedStepKeeps(s: State)
    requires PortInv(s) && s.teardown.Freed?
    ensures PortInv(TeardownStep(s))
  {
    var l, w := s.v.lists, TeardownStep(s);
    if l.release != [] {
      DropHead(l, w.v.lists, l.release[0]);
      TeardownGiveBackKeeps(s, w, l.release[0]);
    } else if l.pending != [] {
      DropHead(l, w.v.lists, l.pending[0]);
      TeardownGiveBackKeeps(s, w, l.pending[0]);
    } else {
      SameTickets(s, w);
    }
  }

  // The device has changed, but neither what is on the lists nor any thread.
  lemma DeviceStepKeeps(s: State, w: State)
    requires PortInv(s) && w == s.(v := w.v, teardown := w.teardown, work := w.work)
    requires CountInv(w) && DeviceInv(w)
    requires w.v.urbps.Keys == s.v.urbps.Keys
    requires forall h: Ticket :: ListCount(w.v.lists, h) == ListCount(s.v.lists, h)
    requires forall h: Ticket :: StateOf(w.v, h).Cancel? ==> StateOf(s.v, h).Cancel?
    requires forall h: Ticket :: ListCount(s.v.lists, h) == 0 ==> StateOf(w.v, h) == StateOf(s.v, h)
    ensures PortInv(w)
  {
    SameTickets(s, w);
    forall t | 0 <= t < |w.threads| && w.threads[t].Submitting? ensures StateOf(w.v, w.threads[t].urbp).New? {
      NotHeldNotListed(s, t);
    }
  }

  lemma QuietStepKeeps(s: State)
    requires PortInv(s) && s.teardown.Quiet?
    ensures PortInv(TeardownStep(s))
  {
    FinishEachKeeps(s.v);
    DeviceStepKeeps(s, TeardownStep(s));
  }

  lemma ClosingStepKeeps(s: State)
    requires PortInv(s) && s.teardown.Closing?
    ensures PortInv(TeardownStep(s))
  {
    FlagsKeep(s.v, TeardownStep(s).v);
    DeviceStepKeeps(s, TeardownStep(s));
  }

  lemma PhaseStepKeeps(s: State)
    requires PortInv(s) && (Waiting(s) || s.teardown in {Drained, Finished})
    ensures PortInv(TeardownStep(s))
  {
    PhaseShape(s);
    hide PortInv, TeardownStep, Waiting;
    PhaseKeeps(s, TeardownStep(s));
  }

  // A wait that goes on, or ends.
  lemma PhaseShape(s: State)
    requires PortInv(s) && (Waiting(s) || s.teardown in {Drained, Finished})
    ensures var w := TeardownStep(s);
            w == s.(teardown := w.teardown, work := w.work) && CountInv(w) && (DeviceGone(w) || !DeviceGone(s))
  {
    hide TicketInv, DeviceInv, SubmitInv, CancelInv, SomeRun, RingEmpty;
  }

  lemma PhaseKeeps(s: State, w: State)
    requires PortInv(s) && w == s.(teardown := w.teardown, work := w.work) && CountInv(w)
    requires DeviceGone(w) || !DeviceGone(s)
    ensures PortInv(w)
  {
    hide Inv, Settled, TicketInv, SubmitInv, CancelInv;
    DeviceStepKeeps(s, w);
  }

  lemma TeardownKeeps(s: State)
    requires PortInv(s)
    ensures PortInv(TeardownStep(s))
  {
    match s.teardown
    case Closing => ClosingStepKeeps(s);
    case Quiet => QuietStepKeeps(s);
    case Freed => FreedStepKeeps(s);
    case Finished => PhaseStepKeeps(s);
    case Flushing => PhaseStepKeeps(s);
    case FlushingWork => PhaseStepKeeps(s);
    case Draining => PhaseStepKeeps(s);
    case Drained => PhaseStepKeeps(s);
    case Alive =>
    case Returned =>
  }

  // ---- every step -------------------------------------------------------------------

  lemma DeviceOnlyKeeps(s: State, w: State)
    requires PortInv(s) && w == s.(v := w.v) && w.v.lists == s.v.lists && w.v.urbps == s.v.urbps
    requires !DeviceGone(s) ==> Inv(w.v)
    ensures PortInv(w)
  {
    DeviceStepKeeps(s, w);
  }

  lemma PoolKeeps(v: Vdev, pool: seq<Gref>)
    requires Inv(v) && PoolAllowed(v, pool)
    ensures Inv(v.(slots := v.slots.(grants := v.slots.grants.(pool := pool))))
  {
    var w := v.(slots := v.slots.(grants := v.slots.grants.(pool := pool)));
    forall g ensures (multiset(pool) + w.slots.grants.active)[g] <= 1 {
      assert (multiset(v.slots.grants.pool) + v.slots.grants.active)[g] <= 1;
      DistinctCounts(pool, g);
    }
    forall k: nat ensures PlaceCount(w, k) == if k < |w.slots.shadows| then 1 else 0 {
      assert PlaceCount(v, k) == if k < |v.slots.shadows| then 1 else 0;
    }
    forall k | k in w.lists.pending ensures PendingLinked(w, k) {
      assert PendingLinked(v, k);
    }
    forall k | 0 <= k < |w.slots.shadows| ensures SlotLinked(w, k) {
      assert SlotLinked(v, k);
    }
    forall k | k in w.lists.finish ensures FinishLinked(w, k) {
      assert FinishLinked(v, k);
    }
  }

  lemma {:induction false} DistinctCounts(s: seq<nat>, g: nat)
    requires forall i, j :: 0 <= i < j < |s| ==> s[i] != s[j]
    ensures multiset(s)[g] == if g in s then 1 else 0
  {
    if s != [] {
      assert s == [s[0]] + s[1..];
      DistinctCounts(s[1..], g);
    }
  }

  lemma PortFlagsKeep(s: State, w: State)
    requires PortInv(s) && w == s.(running := w.running, present := w.present, closing := w.closing, teardown := w.teardown)
    requires CountInv(w) && (DeviceGone(s) <==> DeviceGone(w))
    ensures PortInv(w)
  {
    SameTickets(s, w);
  }

  // What is queued, and which threads run work items, does not matter to the invariant.
  lemma QueuesKeep(s: State, w: State)
    requires PortInv(s)
    requires w == s.(work := w.work)
    ensures PortInv(w)
  {
    SameTickets(s, w);
  }

  lemma DeviceFlagsKeep(s: State, w: State)
    requires PortInv(s) && w == s.(v := s.v.(flags := w.v.flags)) && w.v.flags.bug == s.v.flags.bug
    ensures PortInv(w)
  {
    if !DeviceGone(s) {
      FlagsKeep(s.v, w.v);
    }
    DeviceOnlyKeeps(s, w);
  }

  lemma TakeWorkKeeps(s: State)
    requires PortInv(s)
    ensures PortInv(WorkStep(s)) && PortInv(PortWorkStep(s)) && PortInv(GrantsFreeStep(s))
  {
    hide PortInv;
    WorkStepKeeps(s);
    PortWorkStepKeeps(s);
    DeviceFlagsKeep(s, GrantsFreeStep(s));
  }

  lemma WorkStepKeeps(s: State)
    requires PortInv(s)
    ensures PortInv(WorkStep(s))
  {
    hide PortInv;
    var s0 := s.(v := s.v.(flags := s.v.flags.(workQueued := false)));
    DeviceFlagsKeep(s, s0);
    QueuesKeep(s0, TakeWork(s));
    if s.v.flags.workQueued && MayStart(s) {
      SpawnKeeps(TakeWork(s), Working);
      QueuesKeep(Spawn(TakeWork(s), Working), WorkStep(s));
    }
  }

  lemma PortWorkStepKeeps(s: State)
    requires PortInv(s)
    ensures PortInv(PortWorkStep(s))
  {
    hide PortInv;
    QueuesKeep(s, TakePortWork(s));
    if s.work.portQueued && MayStart(s) {
      SpawnKeeps(s, Resetting);
      QueuesKeep(Spawn(s, Resetting), PortWorkStep(s));
    }
  }

  lemma EnvKeeps(v: Vdev, w: Vdev)
    requires Inv(v) && w == v.(env := w.env)
    ensures Inv(w)
  {
    FlagsKeep(v, w);
  }

  lemma BackendKeeps(s: State, step: Step)
    requires PortInv(s) && (step.Read? || step.Answer?)
    ensures PortInv(Next(s, step))
  {
    var w := Next(s, step);
    if w != s {
      if !DeviceGone(s) {
        if step.Read? {
          BackendReadKeeps(s.v);
        } else {
          BackendAnswerKeeps(s.v, step.id);
        }
      }
      DeviceOnlyKeeps(s, w);
    }
  }

  lemma NextKeeps(s: State, step: Step)
    requires PortInv(s)
    ensures PortInv(Next(s, step))
  {
    hide Inv, Settled, TicketInv, SubmitInv, CancelInv, PutInternal, TeardownStep, AdvanceThread, EnqueueStep, DequeueStep,
      WorkStep, PortWorkStep, GrantsFreeStep;
    var w := Next(s, step);
    match step
    case Start => PortFlagsKeep(s, w);
    case SpeedQuery =>
      if s.teardown.Alive? {
        PutInternalKeeps(s.v, SpeedRequest);
        DeviceOnlyKeeps(s, w);
      }
    case SetHcd(_) => PortFlagsKeep(s, w);
    case Enqueue(urb, linked) => EnqueueKeeps(s, urb, linked);
    case Dequeue(h) => DequeueKeepsPort(s, h);
    case GrantsFree => TakeWorkKeeps(s);
    case Work => TakeWorkKeeps(s);
    case HubReset => QueuesKeep(s, w);
    case PortWork => TakeWorkKeeps(s);
    case Irq =>
      if !DeviceGone(s) {
        if MayStart(s) { SpawnKeeps(s, InHandler(true)); } else { IdleHandlerKeeps(s); }
      }
    case Advance(t) => AdvanceKeeps(s, t);
    case Read => BackendKeeps(s, step);
    case Answer(_) => BackendKeeps(s, step);
    case Allocations(_, _) =>
      if !DeviceGone(s) { EnvKeeps(s.v, w.v); }
      DeviceOnlyKeeps(s, w);
    case Pool(pool) =>
      if PoolAllowed(s.v, pool) {
        if !DeviceGone(s) { PoolKeeps(s.v, pool); }
        DeviceOnlyKeeps(s, w);
      }
    case Destroy => PortFlagsKeep(s, w);
    case TeardownNext => TeardownKeeps(s);
  }

  lemma {:induction false} RunKeeps(s: State, steps: seq<Step>)
    requires PortInv(s)
    ensures PortInv(Run(s, steps))
    decreases |steps|
  {
    if steps != [] {
      NextKeeps(s, steps[0]);
      RunKeeps(Next(s, steps[0]), steps[1..]);
    }
  }

  lemma {:induction false} NoGrants(shadows: seq<Shadow>)
    requires forall i :: 0 <= i < |shadows| ==> !shadows[i].inUse
    ensures AllGrants(shadows) == multiset{}
  {
    if shadows != [] {
      NoGrants(shadows[1..]);
    }
  }

  lemma InitInv(env: Env, ringSize: nat, pool: seq<Gref>)
    requires forall i, j :: 0 <= i < j < |pool| ==> pool[i] != pool[j]
    ensures PortInv(Init(env, ringSize, pool))
  {
    var v := FreshDevice(env, ringSize, pool);
    NoGrants(v.slots.shadows);
    forall g ensures (multiset(v.slots.grants.pool) + v.slots.grants.active)[g] <= 1 {
      DistinctCounts(pool, g);
    }
    forall i: nat ensures PlaceCount(v, i) == if i < ringSize then 1 else 0 {
      DistinctCounts(v.slots.free, i);
      assert i < ringSize ==> v.slots.free[i] == i;
    }
    forall i | 0 <= i < ringSize ensures i in v.slots.free {
      assert v.slots.free[i] == i;
    }
  }

  ghost predicate Distinct(pool: seq<Gref>) {
    forall i, j :: 0 <= i < j < |pool| ==> pool[i] != pool[j]
  }

  /** Over every run from a fresh device the invariant holds. */
  lemma ReachableInv(env: Env, ringSize: nat, pool: seq<Gref>, steps: seq<Step>)
    requires Distinct(pool)
    ensures PortInv(Run(Init(env, ringSize, pool), steps))
  {
    InitInv(env, ringSize, pool);
    RunKeeps(Init(env, ringSize, pool), steps);
  }
}
