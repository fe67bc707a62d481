/** The order of URBs over whole runs: no urbp passes another that waits. */
module VusbOrderRuns {
  import opened VusbDevice
  import opened VusbSlots
  import opened VusbInvariants
  import opened VusbKeeps
  import opened VusbCompletion
  import opened VusbSections
  import opened VusbMachine
  import opened VusbRuns
  import opened VusbReach
  import opened VusbTheorems
  import opened VusbTeardown
  import opened VusbOrder

  // Accepted, and no longer on its way to the section that puts it on the pending list.
  ghost predicate Arrived(s: State, h: Ticket) {
    h < s.accepted && forall t :: 0 <= t < |s.threads| ==> s.threads[t] != Submitting(h)
  }

  // The pending list of w is what is left of that of s, in its order, and then urbps that
  // had not arrived in s.
  ghost predicate QueueKept(s: State, w: State) {
    var p, q := s.v.lists.pending, w.v.lists.pending;
    var kept := Select(p, Members(q));
    kept <= q && forall h :: h in q[|kept|..] ==> !Arrived(s, h)
  }

  lemma PendingArrived(s: State, h: Ticket)
    requires TicketInv(s) && h in s.v.lists.pending
    ensures Arrived(s, h) && multiset(s.v.lists.pending)[h] == 1
  {
    assert h in multiset(s.v.lists.pending);
    assert TicketCount(s, h) == if h < s.accepted then 1 else 0;
    forall t | 0 <= t < |s.threads| ensures s.threads[t] != Submitting(h) {
      ThreadMember(s.threads, t);
      assert Holds(Submitting(h))[h] == 1;
    }
  }

  // Selecting from the old list and adding late ones keeps the queue.
  lemma SelectedKeeps(s: State, w: State, m: set<Ticket>, late: seq<Ticket>)
    requires TicketInv(s) && w.v.lists.pending == Select(s.v.lists.pending, m) + late
    requires forall h :: h in late ==> !Arrived(s, h)
    ensures QueueKept(s, w)
  {
    hide TicketInv, Arrived;
    var p, q := s.v.lists.pending, w.v.lists.pending;
    SelectMembers(p, m);
    forall h | h in p ensures h in Members(q) <==> h in m {
      PendingArrived(s, h);
    }
    SelectAgree(p, Members(q), m);
    assert q[|Select(p, m)|..] == late;
  }

  lemma SamePending(s: State, w: State)
    requires TicketInv(s) && w.v.lists.pending == s.v.lists.pending
    ensures QueueKept(s, w)
  {
    var p := s.v.lists.pending;
    SelectAll(p, Members(p));
    assert p == p + [];
    SelectedKeeps(s, w, Members(p), []);
  }

  // Taking h off a list without repetitions leaves the others.
  lemma WithoutOne(p: seq<Ticket>, h: Ticket)
    requires forall k :: k in p ==> multiset(p)[k] == 1
    ensures Without(p, h) == Select(p, Members(p) - {h})
  {
    var m := Members(p) - {h};
    SelectWithout(p, h, m);
    WithoutCounts(p, h);
    WithoutWithin(p, h);
    hide Select, Without;
    forall k | k in Without(p, h) ensures k in m {
      assert k in multiset(Without(p, h));
    }
    SelectAll(Without(p, h), m);
  }

  lemma OneLess(s: State, w: State, h: Ticket)
    requires TicketInv(s) && w.v.lists.pending == Without(s.v.lists.pending, h)
    ensures QueueKept(s, w)
  {
    var p := s.v.lists.pending;
    forall k | k in p ensures multiset(p)[k] == 1 {
      PendingArrived(s, k);
    }
    WithoutOne(p, h);
    hide TicketInv, Select, Without, QueueKept;
    var m := Members(p) - {h};
    assert w.v.lists.pending == Select(p, m) + [];
    SelectedKeeps(s, w, m, []);
  }

  // ---- every step -------------------------------------------------------------------------

  lemma ProcessStepOrder(s: State, t: nat, arrival: Option<Ticket>)
    requires PortInv(s) && t < |s.threads|
    requires s.threads[t] == match arrival case Some(h) => Submitting(h) case None => Working
    ensures SentInOrder(s.v, ProcessStep(s, t, arrival).v, s.v.lists.pending + Arrivals(arrival))
    ensures QueueKept(s, ProcessStep(s, t, arrival))
  {
    InsideMeansAlive(s, t);
    if arrival.Some? {
      NotHeldNotListed(s, t);
      assert !Arrived(s, arrival.value);
    }
    ProcessOrder(s.v, arrival);
    hide Inv, Settled, SubmitInv, CancelInv, CountInv, TicketInv, ProcessSection, SentInOrder, Arrived;
    var w := ProcessStep(s, t, arrival);
    var p, m := s.v.lists.pending, Unfinished(w.v);
    SelectAppend(p, Arrivals(arrival), m);
    SelectMembers(Arrivals(arrival), m);
    SelectedKeeps(s, w, m, Select(Arrivals(arrival), m));
  }

  lemma CancelStepOrder(s: State, t: nat)
    requires PortInv(s) && t < |s.threads| && s.threads[t].Cancelling?
    ensures QueueKept(s, AdvanceThread(s, t))
  {
    InsideMeansAlive(s, t);
    var h := s.threads[t].target;
    DequeueKeeps(s.v, h);
    hide Inv, Settled, DequeueSection, SubmitInv, CountInv;
    if h in s.v.lists.pending && StateOf(s.v, h) != Sent {
      OneLess(s, AdvanceThread(s, t), h);
    } else {
      SamePending(s, AdvanceThread(s, t));
    }
  }

  lemma HandlerStepOrder(s: State, t: nat)
    requires PortInv(s) && t < |s.threads| && s.threads[t].InHandler?
    ensures QueueKept(s, AdvanceThread(s, t))
  {
    InsideMeansAlive(s, t);
    var processing, w := s.threads[t].processing, AdvanceThread(s, t);
    if processing || s.v.flags.rflush {
      InterruptOrder(s.v, processing);
      hide Inv, Settled, InterruptSection, SubmitInv, CancelInv, CountInv, TicketInv;
      var m := s.v.urbps.Keys - Members(w.v.lists.finish);
      assert w.v.lists.pending == Select(s.v.lists.pending, m) + [];
      SelectedKeeps(s, w, m, []);
    } else {
      SamePending(s, w);
    }
  }

  lemma AdvanceOrder(s: State, t: nat)
    requires PortInv(s)
    ensures QueueKept(s, AdvanceThread(s, t))
  {
    hide Inv, Settled, TicketInv, SubmitInv, CancelInv, CountInv, QueueKept, ProcessSection, PutInternal;
    if t < |s.threads| {
      match s.threads[t]
      case Submitting(h) => ProcessStepOrder(s, t, Some(h));
      case Working => ProcessStepOrder(s, t, None);
      case Cancelling(_) => CancelStepOrder(s, t);
      case InHandler(_) => HandlerStepOrder(s, t);
      case Resetting => ResetStepOrder(s, t);
      case _ => SamePending(s, AdvanceThread(s, t));
    } else {
      SamePending(s, s);
    }
  }

  lemma ResetStepOrder(s: State, t: nat)
    requires PortInv(s) && t < |s.threads| && s.threads[t].Resetting?
    ensures QueueKept(s, AdvanceThread(s, t))
  {
    InsideMeansAlive(s, t);
    PutInternalKeeps(s.v, ResetRequest);
    hide Inv, PutInternal;
    SamePending(s, AdvanceThread(s, t));
  }

  lemma TeardownOrder(s: State)
    requires PortInv(s)
    ensures QueueKept(s, TeardownStep(s))
  {
    var w, p := TeardownStep(s), s.v.lists.pending;
    if s.teardown.Quiet? {
      FinishEachKeeps(s.v);
    }
    hide Inv, Settled, SubmitInv, CancelInv, QueueKept, FinishEach, RingEmpty, SomeRun, HandlerRunning;
    if s.teardown.Freed? && s.v.lists.release == [] && p != [] {
      assert Without(p, p[0]) == p[1..];
      OneLess(s, w, p[0]);
    } else {
      SamePending(s, w);
    }
  }

  lemma NextOrder(s: State, step: Step)
    requires PortInv(s)
    ensures QueueKept(s, Next(s, step))
  {
    hide Inv, Settled, TicketInv, SubmitInv, CancelInv, CountInv, QueueKept, PutInternal, AdvanceThread, TeardownStep;
    match step
    case Advance(t) => AdvanceOrder(s, t);
    case TeardownNext => TeardownOrder(s);
    case SpeedQuery =>
      SpeedQueryLists(s);
      SamePending(s, Next(s, step));
    case _ => SamePending(s, Next(s, step));
  }

  lemma SpeedQueryLists(s: State)
    requires PortInv(s)
    ensures Next(s, SpeedQuery).v.lists == s.v.lists
  {
    if s.teardown.Alive? {
      PutInternalKeeps(s.v, SpeedRequest);
    }
  }

  // A thread that submits after the step did so before, or submits the ticket just accepted.
  ghost predicate Submits(s: State, w: State) {
    && w.accepted >= s.accepted
    && forall t :: 0 <= t < |w.threads| && w.threads[t].Submitting? ==>
         (t < |s.threads| && w.threads[t] == s.threads[t]) || w.threads[t] == Submitting(s.accepted)
  }

  lemma AdvanceSubmits(s: State, t: nat)
    ensures Submits(s, AdvanceThread(s, t))
  {
    hide ProcessSection, DequeueSection, InterruptSection, PutInternal;
  }

  lemma NextSubmits(s: State, step: Step)
    ensures Submits(s, Next(s, step))
  {
    hide AdvanceThread, PutInternal, FinishEach, RingEmpty, SomeRun, HandlerRunning, PoolAllowed, MayStart, Submits;
    match step
    case Advance(t) => AdvanceSubmits(s, t);
    case TeardownNext => TeardownSubmits(s);
    case Enqueue(urb, linked) => EnqueueSubmits(s, urb, linked);
    case _ => OthersDoNotSubmit(s, step);
  }

  lemma EnqueueSubmits(s: State, urb: Urb, linked: bool)
    ensures Submits(s, EnqueueStep(s, urb, linked))
  {
    hide MayStart;
  }

  lemma TeardownSubmits(s: State)
    ensures Submits(s, TeardownStep(s))
  {
    hide FinishEach, RingEmpty, SomeRun, HandlerRunning;
  }

  lemma OthersDoNotSubmit(s: State, step: Step)
    requires !step.Advance? && !step.TeardownNext? && !step.Enqueue?
    ensures Submits(s, Next(s, step))
  {
    hide PutInternal, PoolAllowed, MayStart, AdvanceThread, TeardownStep, EnqueueStep;
  }

  // A urbp that has arrived does not arrive again.
  lemma ArrivedStays(s: State, step: Step, h: Ticket)
    requires Arrived(s, h)
    ensures Arrived(Next(s, step), h)
  {
    NextSubmits(s, step);
    hide Next;
  }

  // ---- every run ------------------------------------------------------------------------------

  lemma StillThere(p: seq<Ticket>, q: seq<Ticket>, m: set<Ticket>, newer: seq<Ticket>)
    requires forall h :: h in newer ==> h !in p
    ensures forall h :: h in p && h in Select(q, m) + newer ==> h in q
  {
    SelectMembers(q, m);
    hide Select;
  }

  lemma SelectedTwice(p: seq<Ticket>, n: set<Ticket>, late: seq<Ticket>, m: set<Ticket>)
    requires forall h :: h in p && h in m ==> h in n
    ensures Select(Select(p, n) + late, m) == Select(p, m) + Select(late, m)
  {
    SelectAppend(Select(p, n), late, m);
    SelectTwice(p, n, m);
    SelectAgree(p, n * m, m);
  }

  lemma KeptTwice(s: State, u: State, w: State)
    requires QueueKept(s, u) && QueueKept(u, w)
    requires forall h :: Arrived(s, h) ==> Arrived(u, h)
    requires forall h :: h in s.v.lists.pending ==> Arrived(s, h)
    ensures QueueKept(s, w)
  {
    hide Arrived, Select;
    var p, q, r := s.v.lists.pending, u.v.lists.pending, w.v.lists.pending;
    var kept, again := Select(p, Members(q)), Select(q, Members(r));
    var late, newer := q[|kept|..], r[|again|..];
    assert q == kept + late && r == again + newer;
    StillThere(p, q, Members(r), newer);
    SelectedTwice(p, Members(q), late, Members(r));
    KeptTail(p, r, late, newer);
  }

  lemma KeptTail(p: seq<Ticket>, r: seq<Ticket>, late: seq<Ticket>, newer: seq<Ticket>)
    requires r == (Select(p, Members(r)) + Select(late, Members(r))) + newer
    ensures Select(p, Members(r)) <= r
    ensures forall h :: h in r[|Select(p, Members(r))|..] ==> h in late || h in newer
  {
    SelectMembers(late, Members(r));
    hide Select, Members;
    assert r[|Select(p, Members(r))|..] == Select(late, Members(r)) + newer;
  }

  /** Over any run the urbps that stay on the pending list stay in their order, and what is
      behind them arrived later: no urbp that waits is passed by another. */
  lemma {:induction false} QueueOrder(s: State, steps: seq<Step>)
    requires PortInv(s)
    ensures QueueKept(s, Run(s, steps))
    decreases |steps|
  {
    if steps == [] {
      SamePending(s, s);
    } else {
      var u := Next(s, steps[0]);
      NextKeeps(s, steps[0]);
      NextOrder(s, steps[0]);
      forall h | Arrived(s, h) ensures Arrived(u, h) {
        ArrivedStays(s, steps[0], h);
      }
      forall h | h in s.v.lists.pending ensures Arrived(s, h) {
        PendingArrived(s, h);
      }
      hide PortInv, Next, QueueKept, Arrived;
      QueueOrder(u, steps[1..]);
      KeptTwice(s, u, Run(u, steps[1..]));
    }
  }

  /** In every reachable state the next section of a thread puts requests on the ring in the
      order of the pending list, with the urbp the thread brings at the back. */
  lemma SectionsSendInOrder(env: Env, ringSize: nat, pool: seq<Gref>, steps: seq<Step>, t: nat)
    requires Distinct(pool)
    ensures var s := Run(Init(env, ringSize, pool), steps);
            t < |s.threads| ==>
              match s.threads[t]
              case Submitting(h) => SentInOrder(s.v, AdvanceThread(s, t).v, s.v.lists.pending + [h])
              case Working => SentInOrder(s.v, AdvanceThread(s, t).v, s.v.lists.pending)
              case _ => true
  {
    ReachableInv(env, ringSize, pool, steps);
    var s := Run(Init(env, ringSize, pool), steps);
    hide PortInv, Run, Init, SentInOrder, ProcessStep;
    if t < |s.threads| {
      match s.threads[t]
      case Submitting(h) => ProcessStepOrder(s, t, Some(h));
      case Working =>
        ProcessStepOrder(s, t, None);
        assert s.v.lists.pending + [] == s.v.lists.pending;
      case _ =>
    }
  }

  // Two urbps have been accepted, a large one and then an empty one, and none is sent.
  lemma TwoAccepted(env: Env, pool: seq<Gref>)
    requires Distinct(pool)
    ensures var large := Enqueue(Urb(Bulk, 0, 2 * PAGE_SIZE, false), true);
            var s := Run(Init(env, 3, pool), [Start, large] + [Enqueue(Urb(Bulk, 0, 0, false), true)]);
            && PortInv(s) && s.threads == [Submitting(0), Submitting(1)] && s.accepted == 2
            && s.v == FreshDevice(env, 3, pool).(urbps := s.v.urbps)
            && s.v.urbps == map[0 := Urbp(large.urb, New, None, 0, false), 1 := Urbp(Urb(Bulk, 0, 0, false), New, None, 0, false)]
  {
    var large, empty := Enqueue(Urb(Bulk, 0, 2 * PAGE_SIZE, false), true), Enqueue(Urb(Bulk, 0, 0, false), true);
    var s0 := Init(env, 3, pool);
    ReachableInv(env, 3, pool, [Start, large] + [empty]);
    hide PortInv, Distinct;
    RunAppend(s0, [Start, large], [empty]);
    RunTwo(s0, Start, large);
    RunOne(Next(Next(s0, Start), large), empty);
    assert Next(s0, Start) == s0.(present := true);
    assert Next(Next(s0, Start), large).threads == [Submitting(0)];
  }

  // The first urbp of a device is refused for grant references.
  lemma FirstRefused(v: Vdev)
    requires Inv(v) && Settled(v) && MayArrive(v, Some(0)) && v.lists == Lists([], [], [])
    requires v.urbps[0].urb == Urb(Bulk, 0, 2 * PAGE_SIZE, false) && |v.slots.grants.pool| == 1
    requires v.env.maxSegments >= 2 && |v.slots.free| > 1
    ensures var w := ProcessSection(v, Some(0)).0;
            && w.lists == Lists([0], [], []) && StateOf(w, 0).New? && w.env == v.env
            && |w.slots.free| == |v.slots.free| && |w.slots.grants.pool| == 1 && OnlyUrbp(v.urbps, w.urbps, 0)
  {
    FinishThenAppend(v, Some(0));
    var v1 := Append(v, Some(0));
    assert FinishEach(v, []) == v && v1.lists.pending == [0];
    StaysNew(v1, 0);
    hide Inv, Settled, SendUrb;
    assert [0][1..] == [];
    assert SendEach(v1, [0]) == SendEach(SendUrb(v1, 0), []) == SendUrb(v1, 0);
  }

  // A later one that needs none is sent.
  lemma SecondSent(v: Vdev)
    requires Inv(v) && Remaining(v, [0, 1]) && v.lists == Lists([0, 1], [], []) && Waits(v)
    ensures var w := SendEach(v, [0, 1]); Passed(v, w, 0, 1) && w.lists == v.lists
  {
    StaysNew(v, 0);
    SendHead(v, [0, 1]);
    var u := SendUrb(v, 0);
    assert u.urbps[1] == v.urbps[1];
    GoesOut(u, 1);
    SendUrbKeeps(u, 1);
    var w := SendUrb(u, 1);
    hide Inv, SendUrb, Remaining;
    assert [0, 1][1..] == [1] && [1][1..] == [];
    assert SendEach(v, [0, 1]) == SendEach(u, [1]) == SendEach(w, []) == w;
    assert StateOf(w, 0) == StateOf(u, 0) && StateOf(u, 1) == StateOf(v, 1);
  }

  // The large urbp and the empty one are new, and there is one reference.
  ghost predicate Waits(v: Vdev) {
    && 0 in v.urbps && v.urbps[0].urb == Urb(Bulk, 0, 2 * PAGE_SIZE, false) && v.urbps[0].state.New?
    && 1 in v.urbps && v.urbps[1].urb == Urb(Bulk, 0, 0, false) && v.urbps[1].state.New?
    && |v.slots.grants.pool| == 1 && v.env.maxSegments >= 2 && |v.slots.free| > 1
  }

  lemma SecondPasses(v: Vdev)
    requires Inv(v) && Settled(v) && MayArrive(v, Some(1)) && v.lists == Lists([0], [], []) && Waits(v)
    ensures var w := ProcessSection(v, Some(1)).0; Passed(v, w, 0, 1) && w.lists == Lists([0, 1], [], [])
  {
    FinishThenAppend(v, Some(1));
    var v1 := Append(v, Some(1));
    assert FinishEach(v, []) == v && v1.lists.pending == [0, 1];
    SecondSent(v1);
    hide Inv, Settled, SendEach, Remaining, MayArrive;
  }

  /** It does happen: a URB of two pages is accepted first and needs two references, of which
      there is one; a later URB that needs none is sent before it. */
  lemma PassedOver(env: Env, g: Gref) returns (steps: seq<Step>)
    requires env.maxSegments >= 2
    ensures var s := Run(Init(env, 3, [g]), steps);
            && PortInv(s) && s.accepted == 2 && s.v.lists.pending == [0, 1]
            && StateOf(s.v, 0).New? && StateOf(s.v, 1).Sent?
  {
    var large, empty := Enqueue(Urb(Bulk, 0, 2 * PAGE_SIZE, false), true), Enqueue(Urb(Bulk, 0, 0, false), true);
    var s0, first, second := Init(env, 3, [g]), [Start, large] + [empty], [Advance(0), Advance(1)];
    TwoAccepted(env, [g]);
    var s := Run(s0, first);
    FreshWaits(env, g, s.v);
    steps := first + second;
    ReachableInv(env, 3, [g], steps);
    hide PortInv, Waits, Init, Next;
    RunAppend(s0, first, second);
    RunTwo(s, Advance(0), Advance(1));
    hide Run;
    BothAdvance(s);
  }

  lemma FreshWaits(env: Env, g: Gref, v: Vdev)
    requires env.maxSegments >= 2 && v == FreshDevice(env, 3, [g]).(urbps := v.urbps)
    requires v.urbps == map[0 := Urbp(Urb(Bulk, 0, 2 * PAGE_SIZE, false), New, None, 0, false),
                            1 := Urbp(Urb(Bulk, 0, 0, false), New, None, 0, false)]
    ensures Waits(v) && v.lists == Lists([], [], [])
  {
  }

  lemma BothAdvance(s: State)
    requires PortInv(s) && s.threads == [Submitting(0), Submitting(1)] && s.v.lists == Lists([], [], []) && Waits(s.v)
    ensures var w := Next(Next(s, Advance(0)), Advance(1));
            && w.accepted == s.accepted && w.v.lists.pending == [0, 1]
            && StateOf(w.v, 0).New? && StateOf(w.v, 1).Sent?
  {
    var s1 := Next(s, Advance(0));
    FirstAdvances(s);
    InsideMeansAlive(s1, 1);
    hide PortInv, Inv, Settled, ProcessSection;
    SecondPasses(s1.v);
  }

  lemma FirstAdvances(s: State)
    requires PortInv(s) && s.threads == [Submitting(0), Submitting(1)] && s.v.lists == Lists([], [], []) && Waits(s.v)
    ensures var w := Next(s, Advance(0));
            && PortInv(w) && w.accepted == s.accepted && w.v.lists == Lists([0], [], []) && Waits(w.v)
            && |w.threads| == 2 && w.threads[1] == Submitting(1) && MayArrive(w.v, Some(1))
  {
    InsideMeansAlive(s, 0);
    NotHeldNotListed(s, 0);
    FirstRefused(s.v);
    NextKeeps(s, Advance(0));
    hide PortInv, Inv, Settled, ProcessSection, OnlyUrbp;
    assert OnlyUrbp(s.v.urbps, Next(s, Advance(0)).v.urbps, 0);
    OnlyZero(s.v.urbps, Next(s, Advance(0)).v.urbps);
  }

  lemma OnlyZero(u: map<Ticket, Urbp>, w: map<Ticket, Urbp>)
    requires OnlyUrbp(u, w, 0) && 1 in u
    ensures 1 in w && w[1] == u[1] && 0 in w && w[0].urb == u[0].urb
  {
  }

  // ---- giving back ------------------------------------------------------------------------------

  // What thread t still has to give back.
  ghost function Left(s: State, t: nat): seq<Ticket> {
    if t < |s.threads| && s.threads[t].GivingBack? then s.threads[t].out else []
  }

  ghost predicate GivesBack(s: State, t: nat) {
    t < |s.threads| && (s.threads[t].GivingBack? || s.threads[t].Gone?)
  }

  // Thread t gives back the head of what it has left, or some other urbp is given back, or none.
  ghost predicate GaveOne(s: State, u: State, t: nat) {
    || (Left(s, t) != [] && u.givenBack == s.givenBack + [Left(s, t)[0]] && Left(u, t) == Left(s, t)[1..])
    || (Left(u, t) == Left(s, t) && (u.givenBack == s.givenBack || OneMore(s.givenBack, u.givenBack)))
  }

  ghost predicate OneMore(g: seq<Ticket>, k: seq<Ticket>) {
    |k| == |g| + 1 && k[..|g|] == g
  }

  ghost predicate Gives(s: State, u: State, k: nat)
    requires k < |s.threads| == |u.threads|
  {
    var pc := s.threads[k];
    && u.threads == s.threads[k := u.threads[k]]
    && (if pc.GivingBack? && pc.out != [] then
          u.givenBack == s.givenBack + [pc.out[0]] && u.threads[k] == GivingBack(pc.out[1..])
        else u.givenBack == s.givenBack)
    && (pc == GivingBack([]) || pc.Gone? ==> u.threads[k].Gone?)
  }

  lemma AdvanceGives(s: State, k: nat)
    requires k < |s.threads|
    ensures |AdvanceThread(s, k).threads| == |s.threads| && Gives(s, AdvanceThread(s, k), k)
  {
    var u := AdvanceThread(s, k);
    hide ProcessSection, DequeueSection, InterruptSection, PutInternal;
    match s.threads[k]
    case GivingBack(out) =>
    case Submitting(h) => hide MayStart;
    case Working => hide MayStart;
    case Cancelling(_) =>
    case InHandler(_) =>
    case Resetting =>
    case AwaitingReset =>
    case Leaving =>
    case Gone =>
  }

  lemma AdvanceGaveOne(s: State, k: nat, t: nat)
    requires GivesBack(s, t)
    ensures GivesBack(AdvanceThread(s, k), t) && GaveOne(s, AdvanceThread(s, k), t)
  {
    if k < |s.threads| {
      AdvanceGives(s, k);
      hide AdvanceThread;
    }
  }

  lemma TeardownGaveOne(s: State, t: nat)
    requires GivesBack(s, t)
    ensures GivesBack(TeardownStep(s), t) && GaveOne(s, TeardownStep(s), t)
  {
    TeardownGivesOne(s);
    hide TeardownStep;
  }

  lemma TeardownGivesOne(s: State)
    ensures var u := TeardownStep(s);
            u.threads == s.threads && (u.givenBack == s.givenBack || OneMore(s.givenBack, u.givenBack))
  {
    if s.teardown.Freed? {
    } else {
      assert TeardownStep(s).givenBack == s.givenBack by {
        hide FinishEach, RingEmpty, SomeRun, HandlerRunning;
      }
      hide FinishEach, RingEmpty, SomeRun, HandlerRunning, OneMore;
    }
  }

  // Only threads and the teardown give back.
  lemma OthersGiveNone(s: State, step: Step)
    requires !step.Advance? && !step.TeardownNext?
    ensures Next(s, step).givenBack == s.givenBack && s.threads <= Next(s, step).threads
  {
    hide PutInternal, PoolAllowed, MayStart, BackendRead, BackendAnswer;
  }

  lemma NextGaveOne(s: State, step: Step, t: nat)
    requires GivesBack(s, t)
    ensures GivesBack(Next(s, step), t) && GaveOne(s, Next(s, step), t)
  {
    match step
    case Advance(k) => AdvanceGaveOne(s, k, t);
    case TeardownNext => TeardownGaveOne(s, t);
    case _ =>
      OthersGiveNone(s, step);
      hide Next;
  }

  lemma GivenAway(s: State, t: nat, h: Ticket)
    requires TicketInv(s) && h in s.givenBack
    ensures h !in Left(s, t)
  {
    assert h in multiset(s.givenBack) && TicketCount(s, h) <= 1;
    var left: seq<nat> := Left(s, t);
    assert multiset(left)[h] == 0 by {
      if t < |s.threads| {
        ThreadMember(s.threads, t);
      }
    }
    assert h in left <==> h in multiset(left);
  }

  lemma GivenTwice(s: State, g: seq<Ticket>, h: Ticket, rest: seq<Ticket>)
    requires TicketInv(s) && s.givenBack == g + [h] + rest
    ensures h !in rest
  {
    assert TicketCount(s, h) <= 1;
    assert multiset(s.givenBack) == multiset(g) + multiset{h} + multiset(rest);
    assert h in rest <==> h in multiset(rest);
  }

  /** Whatever the other threads do, a thread gives back what it took off the release list
      in the order of that list. */
  lemma {:induction false} GiveBackOrder(s: State, steps: seq<Step>, t: nat)
    requires PortInv(s) && GivesBack(s, t)
    ensures var w := Run(s, steps);
            && GivesBack(w, t) && s.givenBack <= w.givenBack
            && Left(s, t) == Select(w.givenBack[|s.givenBack|..], Members(Left(s, t))) + Left(w, t)
    decreases |steps|
  {
    if steps != [] {
      var u, w := Next(s, steps[0]), Run(s, steps);
      NextKeeps(s, steps[0]);
      NextGaveOne(s, steps[0], t);
      RunKeeps(u, steps[1..]);
      GiveBackOrder(u, steps[1..], t);
      hide PortInv, Next, GaveOne, GivesBack;
      GivenByHead(s, u, w, t);
    }
  }

  lemma GivenByHead(s: State, u: State, w: State, t: nat)
    requires TicketInv(u) && TicketInv(w) && GaveOne(s, u, t) && u.givenBack <= w.givenBack
    requires Left(u, t) == Select(w.givenBack[|u.givenBack|..], Members(Left(u, t))) + Left(w, t)
    ensures s.givenBack <= w.givenBack
    ensures Left(s, t) == Select(w.givenBack[|s.givenBack|..], Members(Left(s, t))) + Left(w, t)
  {
    hide TicketInv, Left;
    if u.givenBack != s.givenBack {
      var h := u.givenBack[|s.givenBack|];
      var rest := w.givenBack[|u.givenBack|..];
      assert u.givenBack == s.givenBack + [h];
      assert w.givenBack == s.givenBack + [h] + rest;
      GivenTwice(w, s.givenBack, h, rest);
      GivenAway(u, t, h);
      assert w.givenBack[|s.givenBack|..] == [h] + rest;
      var was, left, left1 := Left(s, t), Left(u, t), Left(w, t);
      assert was == left || (was != [] && was[0] == h && left == was[1..]);
      hide GaveOne;
      HeadGiven(was, left, left1, h, rest);
    }
  }

  lemma HeadGiven(was: seq<Ticket>, left: seq<Ticket>, later: seq<Ticket>, h: Ticket, rest: seq<Ticket>)
    requires h !in left && h !in rest && (was == left || (was != [] && was[0] == h && left == was[1..]))
    requires left == Select(rest, Members(left)) + later
    ensures was == Select([h] + rest, Members(was)) + later
  {
    SelectHead(h, rest, Members(was));
    hide Select;
    if was == left {
      assert h !in Members(was);
    } else {
      assert was == [h] + left;
      SelectAgree(rest, Members(was), Members(left));
      assert [h] + (Select(rest, Members(left)) + later) == ([h] + Select(rest, Members(left))) + later;
    }
  }

  lemma SelectHead(h: Ticket, rest: seq<Ticket>, m: set<Ticket>)
    ensures Select([h] + rest, m) == (if h in m then [h] else []) + Select(rest, m)
  {
    assert ([h] + rest)[1..] == rest;
  }

  // ---- the teardown ---------------------------------------------------------------------------------

  // What the teardown still has to give back, in its order.
  ghost function Remains(l: Lists): seq<Ticket> {
    l.release + l.pending
  }

  ghost predicate Emptied(s: State, u: State) {
    || (u.givenBack == s.givenBack && u.v.lists == s.v.lists)
    || (Remains(s.v.lists) != []
        && u.givenBack == s.givenBack + [Remains(s.v.lists)[0]] && Remains(u.v.lists) == Remains(s.v.lists)[1..])
  }

  lemma NobodyLeft(s: State)
    requires PortInv(s) && DeviceGone(s)
    ensures !MayStart(s) && !s.teardown.Alive? && forall t :: 0 <= t < |s.threads| ==> s.threads[t].Gone?
  {
    NoneInside(s.threads);
    hide TicketInv, DeviceInv, SubmitInv, CancelInv;
  }

  lemma FreedOthers(s: State, step: Step)
    requires PortInv(s) && DeviceGone(s) && !step.TeardownNext?
    ensures Emptied(s, Next(s, step)) && DeviceGone(Next(s, step))
  {
    NobodyLeft(s);
    hide PortInv;
    if step.Advance? {
      GoneStays(s, step.thread);
      hide AdvanceThread;
    } else {
      hide PutInternal, AdvanceThread, TeardownStep, MayStart, PoolAllowed, BackendRead, BackendAnswer;
      assert Next(s, step).givenBack == s.givenBack && Next(s, step).v.lists == s.v.lists;
    }
  }

  lemma FreedNext(s: State)
    requires DeviceGone(s)
    ensures Emptied(s, TeardownStep(s)) && DeviceGone(TeardownStep(s))
  {
    var l, m := s.v.lists, TeardownStep(s).v.lists;
    if s.teardown.Freed? && l.release != [] {
      assert (l.release + l.pending)[1..] == l.release[1..] + l.pending;
    } else if s.teardown.Freed? && l.pending != [] {
      assert l.release + l.pending == l.pending && m.release + m.pending == l.pending[1..];
    }
  }

  lemma {:induction false} FreedRun(s: State, steps: seq<Step>)
    requires PortInv(s) && DeviceGone(s)
    ensures var w := Run(s, steps);
            s.givenBack <= w.givenBack && w.givenBack[|s.givenBack|..] + Remains(w.v.lists) == Remains(s.v.lists)
    decreases |steps|
  {
    hide PortInv, Next, DeviceGone, Remains, Emptied;
    if steps != [] {
      var u := Next(s, steps[0]);
      NextKeeps(s, steps[0]);
      FreedStep(s, steps[0]);
      FreedRun(u, steps[1..]);
      EmptiedThen(s, u, Run(u, steps[1..]));
    }
  }

  lemma FreedStep(s: State, step: Step)
    requires PortInv(s) && DeviceGone(s)
    ensures Emptied(s, Next(s, step)) && DeviceGone(Next(s, step))
  {
    hide PortInv, Emptied, TeardownStep;
    if step.TeardownNext? {
      FreedNext(s);
    } else {
      FreedOthers(s, step);
    }
  }

  /** Once the slots are freed, what is left is given back in order, the release list before
      the pending list, and nothing else is. */
  lemma TeardownGiveBackOrder(s: State, steps: seq<Step>)
    requires PortInv(s) && DeviceGone(s)
    ensures var w := Run(s, steps);
            && s.givenBack <= w.givenBack
            && w.givenBack[|s.givenBack|..] + (w.v.lists.release + w.v.lists.pending)
               == s.v.lists.release + s.v.lists.pending
  {
    FreedRun(s, steps);
    hide PortInv, Run, DeviceGone;
  }

  lemma EmptiedThen(s: State, u: State, w: State)
    requires Emptied(s, u) && u.givenBack <= w.givenBack
    requires w.givenBack[|u.givenBack|..] + Remains(w.v.lists) == Remains(u.v.lists)
    ensures s.givenBack <= w.givenBack
    ensures w.givenBack[|s.givenBack|..] + Remains(w.v.lists) == Remains(s.v.lists)
  {
    if u.givenBack != s.givenBack {
      var all, rest := Remains(s.v.lists), w.givenBack[|u.givenBack|..];
      assert w.givenBack == u.givenBack + rest;
      hide Remains;
      assert w.givenBack[|s.givenBack|..] == [all[0]] + rest;
      assert all == [all[0]] + all[1..];
      assert ([all[0]] + rest) + Remains(w.v.lists) == [all[0]] + (rest + Remains(w.v.lists));
    }
  }
}
