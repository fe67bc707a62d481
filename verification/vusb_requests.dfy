/** What the driver asks of the backend: cancels, resets and speed queries go out with the
    right contents, and a URB that the backend must not see does not. */
module VusbRequests {
  import opened VusbDevice
  import opened VusbSlots
  import opened VusbInvariants
  import opened VusbKeeps
  import opened VusbCompletion
  import opened VusbSections
  import opened VusbMachine
  import opened VusbRuns
  import opened VusbReach
  import opened VusbOrder

  // With a free slot one request of this kind has gone on the ring, in that slot; it carries
  // no urbp and no grants. Without one the ring and the slots are as before.
  ghost predicate Asks(v: Vdev, w: Vdev, kind: RequestKind) {
    && w.ring == v.ring.(reqs := w.ring.reqs)
    && |w.slots.shadows| == |v.slots.shadows| && w.slots.grants == v.slots.grants
    && if v.slots.free == [] then w.ring == v.ring && w.slots == v.slots
       else
         var i := v.slots.free[|v.slots.free| - 1];
         && w.ring.reqs == v.ring.reqs + [i] && w.slots.free + [i] == v.slots.free
         && i < |w.slots.shadows| && !v.slots.shadows[i].inUse && w.slots.shadows[i].inUse
         && w.slots.shadows[i].kind == kind && w.slots.shadows[i].urbp.None? && w.slots.shadows[i].grefs == []
         && forall k :: 0 <= k < |v.slots.shadows| && k != i ==> w.slots.shadows[k] == v.slots.shadows[k]
  }

  lemma InternalGoesOut(v: Vdev, kind: RequestKind)
    requires SlotInv(v)
    ensures var (w, sent) := PutInternal(v, kind);
            Asks(v, w, kind) && (sent <==> v.slots.free != []) && w.urbps == v.urbps && w.lists == v.lists
  {
    if v.slots.free != [] {
      var top := TopIsFree(v);
      hide SlotInv;
    }
  }

  /** Cancelling a urbp the backend has: with a free slot the backend is asked to cancel the
      request of the slot that carries the urbp; without one it is not asked. */
  lemma CancelGoesOut(v: Vdev, h: Ticket) returns (id: nat)
    requires Inv(v) && h in v.lists.pending && StateOf(v, h).Sent?
    ensures Carries(v, id, h) && InFlight(v.ring, id) == 1
    ensures var w := DequeueSection(v, h);
            Asks(v, w, CancelRequest(Some(id))) && w.lists == v.lists && StateOf(w, h).Cancel?
  {
    assert PendingLinked(v, h);
    id := v.urbps[h].id.value;
    var c := SetState(v, h, Cancel);
    StateKeeps(v, c, h, Cancel);
    InternalGoesOut(c, CancelRequest(Some(id)));
    hide SlotInv, LinkInv, GrantInv, PutInternal;
  }

  /** Cancelling in any reachable state, by where the urbp is: the backend has it, it waits, or
      it is on no pending list. */
  lemma CancelAsksBackend(env: Env, ringSize: nat, pool: seq<Gref>, steps: seq<Step>, t: nat)
    requires Distinct(pool)
    ensures var s := Run(Init(env, ringSize, pool), steps);
            t < |s.threads| && s.threads[t].Cancelling? ==>
              var h, w := s.threads[t].target, AdvanceThread(s, t).v;
              if h !in s.v.lists.pending then w == s.v
              else if StateOf(s.v, h).Sent? then
                exists id :: Carries(s.v, id, h) && Asks(s.v, w, CancelRequest(Some(id))) && w.lists == s.v.lists
              else
                w.ring == s.v.ring && w.slots == s.v.slots && w.flags.workQueued
                && w.lists == Lists(Without(s.v.lists.pending, h), s.v.lists.finish, s.v.lists.release + [h])
  {
    ReachableInv(env, ringSize, pool, steps);
    var s := Run(Init(env, ringSize, pool), steps);
    if t < |s.threads| && s.threads[t].Cancelling? {
      InsideMeansAlive(s, t);
      var h := s.threads[t].target;
      assert !StateOf(s.v, h).Cancel?;
      hide TicketInv, SubmitInv, CancelInv, CountInv, Run, Init;
      CancelByPlace(s.v, h);
      hide DequeueSection;
    }
  }

  lemma CancelByPlace(v: Vdev, h: Ticket)
    requires Inv(v) && StateOf(v, h) != Cancel
    ensures var w := DequeueSection(v, h);
            if h !in v.lists.pending then w == v
            else if StateOf(v, h).Sent? then
              exists id :: Carries(v, id, h) && Asks(v, w, CancelRequest(Some(id))) && w.lists == v.lists
            else
              w.ring == v.ring && w.slots == v.slots && w.flags.workQueued
              && w.lists == Lists(Without(v.lists.pending, h), v.lists.finish, v.lists.release + [h])
  {
    if h in v.lists.pending {
      if StateOf(v, h).Sent? {
        var id := CancelGoesOut(v, h);
      } else {
        assert PendingLinked(v, h);
        DequeueKeeps(v, h);
        hide Inv, Without;
      }
    }
  }

  /** A worker that resets the port asks the backend for it and waits, or leaves when no slot
      is free; a speed query goes out the same way. */
  lemma ResetAsksBackend(env: Env, ringSize: nat, pool: seq<Gref>, steps: seq<Step>, t: nat)
    requires Distinct(pool)
    ensures var s := Run(Init(env, ringSize, pool), steps);
            t < |s.threads| && s.threads[t].Resetting? ==>
              var w := AdvanceThread(s, t);
              Asks(s.v, w.v, ResetRequest) && w.threads[t] == if s.v.slots.free != [] then AwaitingReset else Leaving
    ensures var s := Run(Init(env, ringSize, pool), steps);
            s.teardown.Alive? ==> Asks(s.v, Next(s, SpeedQuery).v, SpeedRequest)
  {
    ReachableInv(env, ringSize, pool, steps);
    var s := Run(Init(env, ringSize, pool), steps);
    if t < |s.threads| && s.threads[t].Resetting? {
      InsideMeansAlive(s, t);
      InternalGoesOut(s.v, ResetRequest);
    }
    if s.teardown.Alive? {
      InternalGoesOut(s.v, SpeedRequest);
    }
    hide PortInv, Inv, Settled, PutInternal, Asks, Run, Init;
  }

  /** What an answer tells the driver: of a reset that it is done, of a speed query that the
      speed is known, and of nothing else either. */
  lemma AnswerTells(v: Vdev)
    requires Inv(v) && v.ring.rsps != []
    ensures v.ring.rsps[0] < |v.slots.shadows|
    ensures var kind := v.slots.shadows[v.ring.rsps[0]].kind; var f := ConsumeResponse(v).flags;
            && (f.resetDone <==> v.flags.resetDone || kind == ResetRequest)
            && (f.speedKnown <==> v.flags.speedKnown || kind == SpeedRequest)
            && f == v.flags.(resetDone := f.resetDone, speedKnown := f.speedKnown)
  {
    ConsumeKeeps(v);
    ResponseIsLinked(v);
    hide PutShadow, Without, SlotInv, GrantInv, FinishLinked, PendingLinked;
  }

  // ---- what the backend must not see ---------------------------------------------------------

  // The backend knows neither other pipes nor a SET_ADDRESS, which it has done by itself.
  predicate ForBackend(urb: Urb) {
    !urb.pipe.Unknown? && !(urb.pipe.Control? && urb.setAddress)
  }

  ghost predicate OnlyForBackend(v: Vdev) {
    forall h :: h in v.urbps && Outstanding(v.urbps[h]) ==> ForBackend(v.urbps[h].urb)
  }

  // Whatever the backend has in w it had in v, or it may have it.
  ghost predicate Sees(v: Vdev, w: Vdev) {
    forall h :: h in w.urbps ==>
      && h in v.urbps && w.urbps[h].urb == v.urbps[h].urb
      && (Outstanding(w.urbps[h]) ==> Outstanding(v.urbps[h]) || ForBackend(v.urbps[h].urb))
  }

  lemma SeesTransitive(u: Vdev, v: Vdev, w: Vdev)
    requires Sees(u, v) && Sees(v, w)
    ensures Sees(u, w)
  {
    hide ForBackend, Outstanding;
  }

  lemma PutUrbSees(v: Vdev, h: Ticket)
    requires h in v.urbps
    ensures var w := PutUrb(v, h).0;
            w.urbps.Keys == v.urbps.Keys
            && forall k :: k in v.urbps ==> w.urbps[k].urb == v.urbps[k].urb && w.urbps[k].state == v.urbps[k].state
  {
    hide Attach, PutShadow;
  }

  // No urbp has changed, though some may have gone.
  lemma FewerSees(v: Vdev, w: Vdev)
    requires forall h :: h in w.urbps ==> h in v.urbps && w.urbps[h] == v.urbps[h]
    ensures Sees(v, w)
  {
    hide ForBackend, Outstanding;
  }

  lemma ResultSees(v: Vdev, w0: Vdev, h: Ticket, r: SendResult)
    requires h in v.urbps && ForBackend(v.urbps[h].urb) && w0.urbps.Keys == v.urbps.Keys
    requires forall k :: k in v.urbps ==> w0.urbps[k].urb == v.urbps[k].urb && w0.urbps[k].state == v.urbps[k].state
    ensures Sees(v, RecordResult(w0, h, r))
  {
    hide ForBackend;
  }

  lemma DispatchSees(v: Vdev, h: Ticket)
    requires h in v.urbps
    ensures Sees(v, Dispatch(v, h))
  {
    if v.urbps[h].state.New? && ForBackend(v.urbps[h].urb) {
      PutUrbSees(v, h);
      ResultSees(v, PutUrb(v, h).0, h, PutUrb(v, h).1);
      hide PutUrb, Sees, RecordResult;
    } else {
      hide PutUrb;
    }
  }

  lemma SendUrbSees(v: Vdev, h: Ticket)
    requires h in v.urbps
    ensures Sees(v, SendUrb(v, h))
  {
    DispatchSees(v, h);
    var d := Dispatch(v, h);
    FewerSees(d, SendUrb(v, h)) by {
      hide Dispatch, Without;
    }
    hide Dispatch, SendUrb, Sees;
    SeesTransitive(v, d, SendUrb(v, h));
  }

  lemma {:induction false} SendEachSees(v: Vdev, hs: seq<Ticket>)
    ensures Sees(v, SendEach(v, hs))
    decreases |hs|
  {
    if hs != [] {
      var u := if hs[0] in v.urbps then SendUrb(v, hs[0]) else Bug(v);
      if hs[0] in v.urbps {
        SendUrbSees(v, hs[0]);
      }
      hide SendUrb, Sees;
      SendEachSees(u, hs[1..]);
      SeesTransitive(v, u, SendEach(u, hs[1..]));
    }
  }

  lemma {:induction false} FinishEachSees(v: Vdev, hs: seq<Ticket>)
    ensures Sees(v, FinishEach(v, hs))
    decreases |hs|
  {
    if hs != [] {
      var done := hs[0] in v.urbps && v.urbps[hs[0]].rspId < |v.slots.shadows|;
      var u := if done then FinishUrb(v, hs[0]) else Bug(v);
      assert Sees(v, u) by {
        hide PutShadow, Without;
      }
      hide FinishUrb, Sees;
      FinishEachSees(u, hs[1..]);
      SeesTransitive(v, u, FinishEach(u, hs[1..]));
    }
  }

  lemma {:induction false} ConsumeEachSees(v: Vdev)
    ensures Sees(v, ConsumeEach(v))
    decreases |v.ring.rsps|
  {
    if v.ring.rsps != [] && v.ring.rsps[0] < |v.slots.shadows| {
      var u := ConsumeResponse(v);
      assert Sees(v, u) by {
        hide PutShadow, Without;
      }
      hide ConsumeResponse, Sees;
      ConsumeEachSees(u);
      SeesTransitive(v, u, ConsumeEach(u));
    }
  }

  lemma ProcessSees(v: Vdev, arrival: Option<Ticket>)
    ensures Sees(v, ProcessSection(v, arrival).0)
  {
    var f := FinishEach(v, v.lists.finish);
    var v1 := Append(f, arrival);
    var w := SendEach(v1, v1.lists.pending);
    FinishEachSees(v, v.lists.finish);
    SendEachSees(v1, v1.lists.pending);
    hide FinishEach, SendEach, Sees;
    assert Sees(v, v1) by { SameUrbps(v, f, v1); }
    SeesTransitive(v, v1, w);
    SameUrbps(v, w, ProcessSection(v, arrival).0);
  }

  lemma SameUrbps(v: Vdev, f: Vdev, w: Vdev)
    requires Sees(v, f) && w.urbps == f.urbps
    ensures Sees(v, w)
  {
  }

  lemma InterruptSees(v: Vdev, processing: bool)
    ensures Sees(v, InterruptSection(v, processing))
  {
    ConsumeEachSees(v);
    FewerSees(v, v);
    hide ConsumeEach, Sees;
    SameUrbps(v, if processing || v.flags.rflush then ConsumeEach(v) else v, InterruptSection(v, processing));
  }

  lemma InternalSees(v: Vdev, kind: RequestKind)
    ensures Sees(v, PutInternal(v, kind).0)
  {
    FewerSees(v, PutInternal(v, kind).0) by {
      hide GetShadow;
    }
  }

  lemma DequeueSees(v: Vdev, h: Ticket)
    ensures Sees(v, DequeueSection(v, h))
  {
    var c := SetState(v, h, Cancel);
    if h in v.urbps && v.urbps[h].state.Sent? {
      InternalSees(c, CancelRequest(v.urbps[h].id));
      hide PutInternal, Without;
      SeesTransitive(v, c, PutInternal(c, CancelRequest(v.urbps[h].id)).0);
    } else {
      FewerSees(v, DequeueSection(v, h));
      hide PutInternal, Without;
    }
  }

  lemma AdvanceSees(s: State, t: nat)
    ensures Sees(s.v, AdvanceThread(s, t).v)
  {
    FewerSees(s.v, s.v);
    if t < |s.threads| {
      match s.threads[t]
      case Submitting(h) => ProcessSees(s.v, Some(h));
      case GivingBack(_) => FewerSees(s.v, AdvanceThread(s, t).v);
      case Cancelling(h) => DequeueSees(s.v, h);
      case InHandler(processing) => InterruptSees(s.v, processing);
      case AwaitingReset => FewerSees(s.v, AdvanceThread(s, t).v);
      case Working => ProcessSees(s.v, None);
      case Resetting => InternalSees(s.v, ResetRequest);
      case _ =>
    }
    hide ProcessSection, InterruptSection, DequeueSection, PutInternal, Sees;
  }

  lemma TeardownSees(s: State)
    ensures Sees(s.v, TeardownStep(s).v)
  {
    if s.teardown.Quiet? {
      FinishEachSees(s.v, s.v.lists.finish);
      hide FinishEach, Sees;
    } else {
      FewerSees(s.v, TeardownStep(s).v) by {
        hide FinishEach, RingEmpty, SomeRun, HandlerRunning;
      }
    }
  }

  lemma OtherSees(s: State, step: Step)
    requires !step.Advance? && !step.Enqueue?
    ensures Sees(s.v, Next(s, step).v)
  {
    match step
    case TeardownNext => TeardownSees(s);
    case SpeedQuery =>
      InternalSees(s.v, SpeedRequest);
      FewerSees(s.v, s.v);
      hide PutInternal, Sees;
    case _ =>
      FewerSees(s.v, Next(s, step).v) by {
        hide PutInternal, PoolAllowed, MayStart, TeardownStep, AdvanceThread;
      }
  }

  lemma NextForBackend(s: State, step: Step)
    requires OnlyForBackend(s.v)
    ensures OnlyForBackend(Next(s, step).v)
  {
    match step
    case Enqueue(_, _) =>
      hide MayStart, ForBackend;
    case Advance(t) =>
      AdvanceSees(s, t);
      hide AdvanceThread, ForBackend;
    case _ =>
      OtherSees(s, step);
      hide Next, ForBackend;
  }

  lemma {:induction false} RunForBackend(s: State, steps: seq<Step>)
    requires OnlyForBackend(s.v)
    ensures OnlyForBackend(Run(s, steps).v)
    decreases |steps|
  {
    if steps != [] {
      NextForBackend(s, steps[0]);
      hide Next, OnlyForBackend;
      RunForBackend(Next(s, steps[0]), steps[1..]);
    }
  }

  /** Over every run no request in flight carries a URB of an unknown pipe, or a SET_ADDRESS. */
  lemma BackendSees(env: Env, ringSize: nat, pool: seq<Gref>, steps: seq<Step>, i: nat)
    requires Distinct(pool)
    ensures var s := Run(Init(env, ringSize, pool), steps);
            !DeviceGone(s) && i < |s.v.slots.shadows| && InFlight(s.v.ring, i) > 0 && s.v.slots.shadows[i].kind.UrbRequest? ==>
              && s.v.slots.shadows[i].urbp.Some? && s.v.slots.shadows[i].urbp.value in s.v.urbps
              && ForBackend(s.v.urbps[s.v.slots.shadows[i].urbp.value].urb)
  {
    ReachableInv(env, ringSize, pool, steps);
    RunForBackend(Init(env, ringSize, pool), steps);
    var s := Run(Init(env, ringSize, pool), steps);
    hide Run, Init, ForBackend, InFlight;
    if !DeviceGone(s) && i < |s.v.slots.shadows| {
      assert SlotLinked(s.v, i);
    }
  }

  // ---- what a section completes by itself -------------------------------------------------------

  // Some urbp of hs is tried in a state u in which it is as it was in v; what becomes of it stays.
  lemma {:induction false} EachTried(v: Vdev, hs: seq<Ticket>, h: Ticket) returns (u: Vdev)
    requires Inv(v) && Remaining(v, hs) && h in hs && h in v.urbps
    ensures Inv(u) && h in u.lists.pending && h in u.urbps
    ensures u.urbps[h].urb == v.urbps[h].urb && u.urbps[h].state == v.urbps[h].state
    ensures StateOf(SendEach(v, hs), h) == StateOf(SendUrb(u, h), h)
    ensures NoMoreFree(SendUrb(u, h), SendEach(v, hs))
    decreases |hs|
  {
    SendHead(v, hs);
    HeadIsSent(v, hs);
    HeadOnce(v, hs);
    var n := SendUrb(v, hs[0]);
    if h == hs[0] {
      u := v;
      assert h in v.lists.pending;
      SendEachOrder(n, hs[1..]);
      NothingMoreSent(n, hs[1..]);
      hide Inv, Remaining, SendUrb, SendEach, SentInOrder, ReleasedInOrder, Balanced;
    } else {
      assert h in hs[1..];
      hide Inv, Remaining, SendUrb, Balanced, SendsOne;
      u := EachTried(n, hs[1..], h);
    }
  }

  // What becomes of a new urbp that is tried.
  ghost predicate Tried(urb: Urb, state: UrbpState) {
    if urb.pipe.Unknown? then state.Drop?
    else if urb.pipe.Control? && urb.setAddress then state.Done?
    else state in {New, Sent, Drop}
  }

  lemma TriedOne(u: Vdev, h: Ticket)
    requires Inv(u) && h in u.urbps && u.urbps[h].state.New?
    ensures var w := SendUrb(u, h);
            Tried(u.urbps[h].urb, StateOf(w, h)) && (StateOf(w, h).New? ==> w.flags.workQueued || w.flags.armed)
  {
    SendUrbRefused(u, h);
    DispatchTries(u, h);
    hide Inv, Dispatch, Without, Tried;
  }

  lemma DispatchTries(u: Vdev, h: Ticket)
    requires h in u.urbps && u.urbps[h].state.New?
    ensures h in Dispatch(u, h).urbps && Tried(u.urbps[h].urb, StateOf(Dispatch(u, h), h))
  {
    PutUrbSees(u, h);
    hide PutUrb;
    assert ForBackend(u.urbps[h].urb) ==> h in Send(u, h).urbps && StateOf(Send(u, h), h) in {New, Sent, Drop};
  }

  lemma TriedEach(v: Vdev, hs: seq<Ticket>, h: Ticket)
    requires Inv(v) && Remaining(v, hs) && h in hs && h in v.urbps && v.urbps[h].state.New?
    ensures var w := SendEach(v, hs);
            Tried(v.urbps[h].urb, StateOf(w, h)) && (StateOf(w, h).New? ==> w.flags.workQueued || w.flags.armed)
  {
    var u := EachTried(v, hs, h);
    TriedOne(u, h);
    hide Inv, Remaining, SendUrb, SendEach;
  }

  /** A section completes a new urbp of an unknown pipe as dropped and a SET_ADDRESS as done,
      and gives both back without the backend. A urbp that is still new stays pending, and
      another section is due, by the queued work or by the grant callback. */
  lemma EveryOneTried(v: Vdev, arrival: Option<Ticket>, h: Ticket)
    requires Inv(v) && Settled(v) && MayArrive(v, arrival)
    requires h in v.lists.pending + Arrivals(arrival) && h in v.urbps && v.urbps[h].state.New?
    ensures var (w, out) := ProcessSection(v, arrival);
            && Tried(v.urbps[h].urb, StateOf(w, h))
            && (StateOf(w, h).Done? || StateOf(w, h).Drop? <==> h in out && h !in w.lists.pending)
            && (StateOf(w, h).New? ==> h in w.lists.pending && (w.flags.workQueued || w.flags.armed))
  {
    FinishThenAppend(v, arrival);
    WaitingStatesKept(v, arrival);
    var v1, hs := Append(FinishEach(v, v.lists.finish), arrival), v.lists.pending + Arrivals(arrival);
    FinishEachSees(v, v.lists.finish);
    TriedEach(v1, hs, h);
    ProcessOrder(v, arrival);
    var (w, out) := ProcessSection(v, arrival);
    SendEachKeeps(v1, hs);
    assert w == SendEach(v1, hs).(lists := w.lists);
    SelectMembers(hs, Over(w));
    SelectMembers(hs, Unfinished(w));
    hide Inv, Settled, Remaining, MayArrive, SendEach, FinishEach, ProcessSection, Balanced, Select, SentInOrder, Tried;
    assert StateOf(v1, h) == StateOf(v, h);
  }
}
