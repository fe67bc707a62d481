/** No wake-up is lost: as long as the port is open, whatever waits for a section of the driver
    has one coming. */
module VusbWakeups {
  import opened VusbDevice
  import opened VusbSlots
  import opened VusbInvariants
  import opened VusbKeeps
  import opened VusbCompletion
  import opened VusbSections
  import opened VusbMachine
  import opened VusbRuns
  import opened VusbReach
  import opened VusbWork
  import opened VusbOrder
  import opened VusbRequests

  // A thread that is about to run the process section.
  predicate Heads(pc: Thread) {
    pc.Submitting? || pc.Cancelling? || pc.Working?
  }

  ghost predicate OnTheWay(s: State) {
    exists t :: 0 <= t < |s.threads| && Heads(s.threads[t])
  }

  // Some urbp waits to be sent.
  ghost predicate SomeNew(v: Vdev) {
    exists h :: h in v.lists.pending && StateOf(v, h).New?
  }

  // A urbp that waits to be sent has a retry coming; one that is finished or released has a
  // section coming that gives it back.
  ghost predicate Woken(s: State) {
    && (SomeNew(s.v) ==> s.v.flags.workQueued || s.v.flags.armed || OnTheWay(s))
    && (s.v.lists.finish != [] || s.v.lists.release != [] ==> s.v.flags.workQueued || OnTheWay(s))
  }

  // The port takes URBs, or has not begun to.
  ghost predicate Open(s: State) {
    && s.running && !s.closing && s.teardown.Alive? && !s.v.flags.rflush
    && (s.present || s.accepted == 0)
  }

  // The controller stays active, and nobody destroys the port.
  predicate KeepsOpen(step: Step) {
    !step.Destroy? && step != SetHcd(false)
  }

  lemma NothingListed(s: State)
    requires TicketInv(s) && s.accepted == 0
    ensures s.v.lists == Lists([], [], [])
  {
    var l := s.v.lists;
    var all: seq<nat> := l.pending + l.finish + l.release;
    forall h: Ticket ensures multiset(all)[h] == 0 {
      assert TicketCount(s, h) == 0;
    }
    assert multiset(all) == multiset{};
    assert |all| == |multiset(all)|;
  }

  // Nothing new waits, and no wake-up is taken away.
  lemma StillWoken(s: State, w: State)
    requires Woken(s)
    requires SomeNew(w.v) ==> SomeNew(s.v)
    requires w.v.lists.finish == s.v.lists.finish && w.v.lists.release == s.v.lists.release
    requires s.v.flags.workQueued ==> w.v.flags.workQueued || OnTheWay(w)
    requires s.v.flags.armed ==> w.v.flags.armed || w.v.flags.workQueued
    requires OnTheWay(s) ==> OnTheWay(w)
    ensures Woken(w)
  {
    hide SomeNew, OnTheWay;
  }

  lemma SectionWakes(s: State, t: nat, arrival: Option<Ticket>)
    requires PortInv(s) && t < |s.threads|
    requires s.threads[t] == match arrival case Some(h) => Submitting(h) case None => Working
    ensures Woken(ProcessStep(s, t, arrival))
  {
    InsideMeansAlive(s, t);
    if arrival.Some? {
      NotHeldNotListed(s, t);
    }
    SectionLeavesWoken(s.v, arrival);
    hide PortInv, Inv, Settled, ProcessSection;
  }

  lemma SectionLeavesWoken(v: Vdev, arrival: Option<Ticket>)
    requires Inv(v) && Settled(v) && MayArrive(v, arrival)
    ensures var w := ProcessSection(v, arrival).0;
            && (SomeNew(w) ==> w.flags.workQueued || w.flags.armed)
            && w.lists.finish == [] && w.lists.release == []
  {
    ProcessOrder(v, arrival);
    var w := ProcessSection(v, arrival).0;
    if SomeNew(w) {
      var h :| h in w.lists.pending && StateOf(w, h).New?;
      StillNew(v, arrival, h);
      EveryOneTried(v, arrival, h);
    }
    hide Inv, Settled, MayArrive, ProcessSection, SentInOrder, Select;
  }

  // What is pending and new after the section was so before, or has arrived.
  lemma StillNew(v: Vdev, arrival: Option<Ticket>, h: Ticket)
    requires Inv(v) && Settled(v) && MayArrive(v, arrival)
    requires var w := ProcessSection(v, arrival).0; h in w.lists.pending && StateOf(w, h).New?
    ensures h in v.lists.pending + Arrivals(arrival) && h in v.urbps && v.urbps[h].state.New?
  {
    ProcessOrder(v, arrival);
    var w, hs := ProcessSection(v, arrival).0, v.lists.pending + Arrivals(arrival);
    SelectMembers(hs, Unfinished(w));
    assert h in v.urbps by {
      assert h in v.lists.pending ==> PendingLinked(v, h);
    }
    SectionNewer(v, arrival, h);
    hide Inv, Settled, MayArrive, ProcessSection, SentInOrder, Select;
  }

  lemma SectionNewer(v: Vdev, arrival: Option<Ticket>, h: Ticket)
    requires Inv(v) && Settled(v) && MayArrive(v, arrival) && h in v.lists.pending + Arrivals(arrival) && h in v.urbps
    ensures StateOf(ProcessSection(v, arrival).0, h).New? ==> v.urbps[h].state.New?
  {
    FinishThenAppend(v, arrival);
    WaitingStatesKept(v, arrival);
    var v1, hs := Append(FinishEach(v, v.lists.finish), arrival), v.lists.pending + Arrivals(arrival);
    var u := EachTried(v1, hs, h);
    NeverNewAgain(u, h);
    hide Inv, Settled, Remaining, MayArrive, SendEach, SendUrb, FinishEach;
    assert StateOf(v1, h) == StateOf(v, h);
  }

  lemma NeverNewAgain(v: Vdev, h: Ticket)
    requires h in v.urbps
    ensures StateOf(SendUrb(v, h), h).New? ==> v.urbps[h].state.New?
  {
    hide PutUrb, Without;
  }

  lemma CancelWakes(s: State, t: nat)
    requires PortInv(s) && t < |s.threads| && s.threads[t].Cancelling?
    ensures Woken(AdvanceThread(s, t))
  {
    assert Heads(AdvanceThread(s, t).threads[t]);
    hide PortInv, DequeueSection;
  }

  lemma HandlerWakes(s: State, t: nat)
    requires PortInv(s) && Woken(s) && Open(s) && t < |s.threads| && s.threads[t].InHandler?
    ensures Woken(AdvanceThread(s, t))
  {
    InsideMeansAlive(s, t);
    var processing, w := s.threads[t].processing, AdvanceThread(s, t);
    if processing {
      assert w.v.flags.workQueued by {
        hide ConsumeEach;
      }
      hide PortInv, InterruptSection;
    } else {
      assert w.v == s.v;
      OthersHead(s, w, t);
      hide PortInv, InterruptSection;
      StillWoken(s, w);
    }
  }

  // Threads other than t stay where they are, and t was not on its way.
  lemma OthersHead(s: State, w: State, t: nat)
    requires t < |s.threads| && |w.threads| == |s.threads| && w.threads == s.threads[t := w.threads[t]]
    requires !Heads(s.threads[t])
    ensures OnTheWay(s) ==> OnTheWay(w)
  {
    if OnTheWay(s) {
      var k :| 0 <= k < |s.threads| && Heads(s.threads[k]);
      assert w.threads[k] == s.threads[k];
    }
  }

  lemma MoreThreads(s: State, w: State)
    requires s.threads <= w.threads
    ensures OnTheWay(s) ==> OnTheWay(w)
  {
    if OnTheWay(s) {
      var k :| 0 <= k < |s.threads| && Heads(s.threads[k]);
      assert w.threads[k] == s.threads[k];
    }
  }

  // Nothing on a list has changed its state.
  lemma NothingNewer(v: Vdev, w: Vdev)
    requires w.lists.pending == v.lists.pending && forall h :: h in v.lists.pending ==> StateOf(w, h) == StateOf(v, h)
    ensures SomeNew(w) ==> SomeNew(v)
  {
    hide StateOf;
  }

  lemma GiveBackWakes(s: State, t: nat)
    requires PortInv(s) && Woken(s) && t < |s.threads| && s.threads[t].GivingBack?
    ensures Woken(AdvanceThread(s, t))
  {
    var w := AdvanceThread(s, t);
    InsideMeansAlive(s, t);
    OthersHead(s, w, t);
    forall h | h in s.v.lists.pending ensures StateOf(w.v, h) == StateOf(s.v, h) {
      PendingNotHeld(s, t, h);
    }
    hide PortInv;
    NothingNewer(s.v, w.v);
    StillWoken(s, w);
  }

  lemma PendingNotHeld(s: State, t: nat, h: Ticket)
    requires TicketInv(s) && h in s.v.lists.pending && t < |s.threads| && s.threads[t].GivingBack?
    ensures h !in s.threads[t].out
  {
    ThreadMember(s.threads, t);
    assert h in multiset(s.v.lists.pending) && TicketCount(s, h) <= 1;
    assert h in s.threads[t].out <==> h in multiset(s.threads[t].out);
  }

  // A thread that does not touch the device's lists or states.
  lemma QuietThreadWakes(s: State, t: nat)
    requires PortInv(s) && Woken(s) && t < |s.threads|
    requires s.threads[t].Resetting? || s.threads[t].AwaitingReset? || s.threads[t].Leaving? || s.threads[t].Gone?
    ensures Woken(AdvanceThread(s, t))
  {
    var w := AdvanceThread(s, t);
    if s.threads[t].Resetting? {
      InsideMeansAlive(s, t);
      PutInternalKeeps(s.v, ResetRequest);
      hide Inv;
    }
    OthersHead(s, w, t);
    hide PortInv, PutInternal;
    NothingNewer(s.v, w.v);
    StillWoken(s, w);
  }

  lemma AdvanceWakes(s: State, t: nat)
    requires PortInv(s) && Woken(s) && Open(s)
    ensures Woken(AdvanceThread(s, t))
  {
    hide PortInv, Woken, Open, ProcessSection, DequeueSection, InterruptSection, PutInternal;
    if t < |s.threads| {
      match s.threads[t]
      case Submitting(h) => SectionWakes(s, t, Some(h));
      case Working => SectionWakes(s, t, None);
      case Cancelling(_) => CancelWakes(s, t);
      case GivingBack(_) => GiveBackWakes(s, t);
      case InHandler(_) => HandlerWakes(s, t);
      case _ => QuietThreadWakes(s, t);
    }
  }

  // ---- every step -----------------------------------------------------------------------------

  lemma EnqueueWakes(s: State, urb: Urb, linked: bool)
    requires PortInv(s) && Woken(s)
    ensures Woken(EnqueueStep(s, urb, linked))
  {
    var w := EnqueueStep(s, urb, linked);
    MoreThreads(s, w);
    NewTicket(s);
    forall h | h in s.v.lists.pending ensures StateOf(w.v, h) == StateOf(s.v, h) {
      PendingAccepted(s, h);
    }
    hide PortInv;
    NothingNewer(s.v, w.v);
    StillWoken(s, w);
  }

  lemma PendingAccepted(s: State, h: Ticket)
    requires TicketInv(s) && h in s.v.lists.pending
    ensures h < s.accepted
  {
    assert h in multiset(s.v.lists.pending) && TicketCount(s, h) == if h < s.accepted then 1 else 0;
  }

  // Taking the work lets a section run: the port is open.
  lemma WorkWakes(s: State)
    requires PortInv(s) && Woken(s) && Open(s)
    ensures Woken(WorkStep(s))
  {
    var w := WorkStep(s);
    MoreThreads(s, w);
    if s.v.flags.workQueued && s.present {
      assert w.threads[|s.threads|] == Working;
    } else if s.accepted == 0 {
      NothingListed(s);
    }
    hide PortInv;
    NothingNewer(s.v, w.v);
    if s.v.flags.workQueued && !s.present {
      assert w.v.lists == Lists([], [], []);
    } else {
      StillWoken(s, w);
    }
  }

  lemma SpeedQueryWakes(s: State)
    requires PortInv(s) && Woken(s)
    ensures Woken(Next(s, SpeedQuery))
  {
    var w := Next(s, SpeedQuery);
    if s.teardown.Alive? {
      PutInternalKeeps(s.v, SpeedRequest);
    }
    hide PortInv, PutInternal;
    NothingNewer(s.v, w.v);
    StillWoken(s, w);
  }

  lemma OthersWake(s: State, step: Step)
    requires Woken(s) && Open(s) && KeepsOpen(step)
    requires !step.Advance? && !step.Enqueue? && !step.Work? && !step.SpeedQuery?
    ensures Woken(Next(s, step))
  {
    hide AdvanceThread, PutInternal, PoolAllowed, MayStart, EnqueueStep, WorkStep;
    var w := Next(s, step);
    MoreThreads(s, w);
    NothingNewer(s.v, w.v);
    StillWoken(s, w);
  }

  lemma NextWakes(s: State, step: Step)
    requires PortInv(s) && Woken(s) && Open(s) && KeepsOpen(step)
    ensures Woken(Next(s, step))
  {
    hide PortInv, Woken, Open, AdvanceThread, EnqueueStep, WorkStep, PutInternal;
    match step
    case Advance(t) => AdvanceWakes(s, t);
    case Enqueue(urb, linked) => EnqueueWakes(s, urb, linked);
    case Work => WorkWakes(s);
    case SpeedQuery => SpeedQueryWakes(s);
    case _ => OthersWake(s, step);
  }

  lemma AdvanceOpen(s: State, t: nat)
    requires Open(s)
    ensures Open(AdvanceThread(s, t))
  {
    hide ProcessSection, DequeueSection, InterruptSection, PutInternal;
    if t < |s.threads| {
      match s.threads[t]
      case Submitting(h) => ProcessAdds(s.v, Some(h));
      case Working => ProcessAdds(s.v, None);
      case Cancelling(h) => DequeueAdds(s.v, h);
      case InHandler(processing) =>
        assert !InterruptSection(s.v, processing).flags.rflush by {
          InterruptClears(s.v, processing);
        }
      case Resetting => PutInternalAdds(s.v, ResetRequest);
      case _ =>
    }
  }

  lemma InterruptClears(v: Vdev, processing: bool)
    requires !v.flags.rflush
    ensures !InterruptSection(v, processing).flags.rflush
  {
    hide ConsumeEach;
  }

  lemma NextOpen(s: State, step: Step)
    requires Open(s) && KeepsOpen(step)
    ensures Open(Next(s, step))
  {
    hide AdvanceThread, PutInternal, PoolAllowed;
    match step
    case Advance(t) => AdvanceOpen(s, t);
    case SpeedQuery => PutInternalAdds(s.v, SpeedRequest);
    case _ =>
  }

  lemma {:induction false} RunWakes(s: State, steps: seq<Step>)
    requires PortInv(s) && Woken(s) && Open(s)
    requires forall i :: 0 <= i < |steps| ==> KeepsOpen(steps[i])
    ensures Woken(Run(s, steps)) && Open(Run(s, steps)) && PortInv(Run(s, steps))
    decreases |steps|
  {
    if steps != [] {
      NextKeeps(s, steps[0]);
      NextWakes(s, steps[0]);
      NextOpen(s, steps[0]);
      hide PortInv, Woken, Open, Next, KeepsOpen;
      RunWakes(Next(s, steps[0]), steps[1..]);
    }
  }

  /** Over every run in which the controller stays active and the port is not destroyed: while
      a urbp waits to be sent, the device work is queued, or the grant callback will queue it,
      or a thread is about to run a section; while one waits to be given back, the work is
      queued or a thread is about to run a section. */
  lemma NoLostWakeUp(env: Env, ringSize: nat, pool: seq<Gref>, steps: seq<Step>)
    requires Distinct(pool) && forall i :: 0 <= i < |steps| ==> KeepsOpen(steps[i])
    ensures var s := Run(Init(env, ringSize, pool), steps);
            && (SomeNew(s.v) ==> s.v.flags.workQueued || s.v.flags.armed || OnTheWay(s))
            && (s.v.lists.finish != [] || s.v.lists.release != [] ==> s.v.flags.workQueued || OnTheWay(s))
  {
    var s0 := Init(env, ringSize, pool);
    InitInv(env, ringSize, pool);
    assert Woken(s0) && Open(s0);
    RunWakes(s0, steps);
    hide Run, Init, SomeNew, OnTheWay;
  }
}
