/** The properties of the request engine, over every run. */
module VusbTheorems {
  import opened VusbDevice
  import opened VusbSlots
  import opened VusbInvariants
  import opened VusbKeeps
  import opened VusbCompletion
  import opened VusbSections
  import opened VusbMachine
  import opened VusbRuns
  import opened VusbReach

  ghost function SlotsInUse(v: Vdev): set<nat> {
    set i: nat | i < |v.slots.shadows| && v.slots.shadows[i].inUse
  }

  // req_prod_pvt - rsp_cons: requests written and not yet answered and consumed.
  function RingLoad(r: Ring): nat {
    |r.reqs| + |r.held| + |r.rsps|
  }

  lemma {:induction false} DistinctSize(s: seq<nat>, m: set<nat>)
    requires forall g: nat :: multiset(s)[g] == if g in m then 1 else 0
    ensures |m| == |s|
  {
    if s == [] {
      assert m == {} by {
        forall g: nat ensures g !in m {
          assert multiset(s)[g] == 0;
        }
      }
    } else {
      assert s == [s[0]] + s[1..];
      assert multiset(s)[s[0]] >= 1;
      forall g: nat ensures multiset(s[1..])[g] == if g in m - {s[0]} then 1 else 0 {
        assert multiset(s)[g] == if g in m then 1 else 0;
      }
      DistinctSize(s[1..], m - {s[0]});
    }
  }

  ghost function Below(n: nat): (r: set<nat>)
    ensures |r| == n
    ensures forall i: nat :: i in r <==> i < n
  {
    if n == 0 then {} else Below(n - 1) + {n - 1}
  }

  lemma FreeIsDistinct(free: seq<nat>)
    requires forall g: nat :: multiset(free)[g] <= 1
    ensures forall i, j :: 0 <= i < j < |free| ==> free[i] != free[j]
  {
    forall i, j | 0 <= i < j < |free| ensures free[i] != free[j] {
      assert free == free[..j] + [free[j]] + free[j + 1..];
      assert free[i] in free[..j];
      assert multiset(free)[free[j]] == multiset(free[..j])[free[j]] + 1 + multiset(free[j + 1..])[free[j]];
    }
  }

  lemma FreeCounts(v: Vdev)
    requires SlotInv(v)
    ensures forall g: nat :: multiset(v.slots.free)[g] == if g in Below(|v.slots.shadows|) - SlotsInUse(v) then 1 else 0
  {
    forall g: nat ensures multiset(v.slots.free)[g] == if g in Below(|v.slots.shadows|) - SlotsInUse(v) then 1 else 0 {
      assert PlaceCount(v, g) == if g < |v.slots.shadows| then 1 else 0;
      assert g in v.slots.free <==> g in multiset(v.slots.free);
    }
  }

  /** Outside a lock section the slots in use are those loaded on the ring and
      those on the finish list, the free stack holds every other slot once, and
      so a slot can be taken only when the ring has room for its request. */
  lemma SlotBalance(v: Vdev)
    requires SlotInv(v)
    ensures |SlotsInUse(v)| == RingLoad(v.ring) + |v.lists.finish|
    ensures forall i, j :: 0 <= i < j < |v.slots.free| ==> v.slots.free[i] != v.slots.free[j]
    ensures forall i: nat :: i in v.slots.free <==> i < |v.slots.shadows| && !v.slots.shadows[i].inUse
    ensures v.slots.free != [] ==> RingLoad(v.ring) < |v.slots.shadows|
  {
    SlotConservation(v);
    FreeCounts(v);
    FreeIsDistinct(v.slots.free);
    DistinctSize(v.slots.free, Below(|v.slots.shadows|) - SlotsInUse(v));
    assert SlotsInUse(v) <= Below(|v.slots.shadows|);
    forall i: nat ensures i in v.slots.free <==> i < |v.slots.shadows| && !v.slots.shadows[i].inUse {
      assert i in v.slots.free <==> i in multiset(v.slots.free);
    }
  }

  /** A URB is sent only if it leaves at least one slot free, for a reset or a cancel. */
  lemma UrbLeavesOneSlot(v: Vdev, h: Ticket)
    requires Inv(v) && h in v.urbps
    ensures PutUrb(v, h).1.SendOk? ==> PutUrb(v, h).0.slots.free != []
    ensures PutUrb(v, h).1.SendAgain? <==> |v.slots.free| <= 1
    ensures !PutUrb(v, h).1.SendOk? ==> PutUrb(v, h).0.slots.free == v.slots.free
  {
    var i, x := PutUrbEffect(v, h);
  }

  ghost function OutstandingTickets(v: Vdev): set<Ticket> {
    set h | h in v.lists.pending && h in v.urbps && Outstanding(v.urbps[h])
  }

  ghost function UrbSlotsInFlight(v: Vdev): set<nat> {
    set i: nat | i < |v.slots.shadows| && InFlight(v.ring, i) > 0 && v.slots.shadows[i].kind.UrbRequest?
  }

  /** The pending urbps in state SENT or CANCEL correspond one to one, by id, to
      the URB slots that are outstanding on the ring. */
  lemma SentMatchesRing(v: Vdev)
    requires Inv(v)
    ensures forall h :: h in OutstandingTickets(v) ==>
              v.urbps[h].id.Some? && v.urbps[h].id.value in UrbSlotsInFlight(v)
              && v.slots.shadows[v.urbps[h].id.value].urbp == Some(h)
    ensures forall i :: i in UrbSlotsInFlight(v) ==>
              v.slots.shadows[i].urbp.Some? && v.slots.shadows[i].urbp.value in OutstandingTickets(v)
              && v.urbps[v.slots.shadows[i].urbp.value].id == Some(i)
  {
    forall h | h in OutstandingTickets(v)
      ensures v.urbps[h].id.Some? && v.urbps[h].id.value in UrbSlotsInFlight(v)
              && v.slots.shadows[v.urbps[h].id.value].urbp == Some(h)
    {
      assert PendingLinked(v, h);
    }
    forall i | i in UrbSlotsInFlight(v)
      ensures v.slots.shadows[i].urbp.Some? && v.slots.shadows[i].urbp.value in OutstandingTickets(v)
              && v.urbps[v.slots.shadows[i].urbp.value].id == Some(i)
    {
      assert SlotLinked(v, i);
    }
  }

  /** Every accepted urbp is in exactly one place over every run, and given back at most once. */
  lemma OnePlacePerUrbp(env: Env, ringSize: nat, pool: seq<Gref>, steps: seq<Step>, h: Ticket)
    requires Distinct(pool)
    ensures var s := Run(Init(env, ringSize, pool), steps);
            && TicketCount(s, h) == (if h < s.accepted then 1 else 0)
            && multiset(s.givenBack)[h] <= 1
            && (DeviceGone(s) || !s.v.flags.bug)
  {
    ReachableInv(env, ringSize, pool, steps);
    var s := Run(Init(env, ringSize, pool), steps);
    assert TicketCount(s, h) == if h < s.accepted then 1 else 0;
  }

  // ---- processing guards the teardown --------------------------------------------------

  lemma AdvanceNeverRaises(s: State, t: nat)
    ensures AdvanceThread(s, t).processing <= s.processing
    ensures AdvanceThread(s, t).closing == s.closing && AdvanceThread(s, t).teardown == s.teardown
  {
    hide ProcessSection, DequeueSection, InterruptSection, PutInternal;
  }

  lemma StepRaisesOnlyWhenOpen(s: State, step: Step)
    requires s.closing && s.processing >= 0
    ensures Next(s, step).processing <= s.processing
    ensures !s.teardown.Alive? ==> !Next(s, step).teardown.Alive?
  {
    hide AdvanceThread, PutInternal, FinishEach, SomeRun, RingEmpty, HandlerRunning, PoolAllowed, BackendRead, BackendAnswer;
    if step.Advance? {
      AdvanceNeverRaises(s, step.thread);
    }
  }

  lemma ClosingStep(s: State, step: Step)
    requires PortInv(s) && s.closing
    ensures PortInv(Next(s, step)) && Next(s, step).processing <= s.processing
    ensures Next(s, step).closing || Next(s, step).teardown.Returned?
  {
    NextKeeps(s, step);
    StepRaisesOnlyWhenOpen(s, step);
  }

  /** From the moment closing is set until the port is returned, processing never
      rises, and it is always the number of threads inside. */
  lemma {:induction false} ClosingOnlyFalls(s: State, steps: seq<Step>)
    requires PortInv(s) && s.closing
    ensures var w := Run(s, steps);
            && w.processing <= s.processing && w.processing == InsideCount(w.threads)
            && (w.closing || w.teardown.Returned?)
    decreases |steps|
  {
    if steps != [] {
      ClosingStep(s, steps[0]);
      var w := Next(s, steps[0]);
      if w.closing {
        ClosingOnlyFalls(w, steps[1..]);
      } else {
        RunReturned(w, steps[1..]);
      }
    }
  }

  lemma ReturnedStep(s: State, step: Step)
    requires PortInv(s) && s.teardown.Returned?
    ensures var w := Next(s, step);
            w.teardown.Returned? && w.givenBack == s.givenBack && w.accepted == s.accepted
  {
    NoneInside(s.threads);
    assert !s.present && forall t :: 0 <= t < |s.threads| ==> s.threads[t].Gone?;
    hide PortInv;
    if step.Advance? {
      GoneStays(s, step.thread);
    } else {
      hide AdvanceThread, FinishEach, PutInternal, PoolAllowed, BackendRead, BackendAnswer, SomeRun, RingEmpty, HandlerRunning;
    }
  }

  lemma GoneStays(s: State, t: nat)
    requires t < |s.threads| ==> s.threads[t].Gone?
    ensures AdvanceThread(s, t) == s
  {
  }

  // A port that has been returned stays so.
  lemma {:induction false} RunReturned(s: State, steps: seq<Step>)
    requires PortInv(s) && s.teardown.Returned?
    ensures var w := Run(s, steps);
            w.teardown.Returned? && w.processing == 0 && w.processing == InsideCount(w.threads)
            && w.givenBack == s.givenBack && w.accepted == s.accepted
    decreases |steps|
  {
    if steps != [] {
      NextKeeps(s, steps[0]);
      ReturnedStep(s, steps[0]);
      RunReturned(Next(s, steps[0]), steps[1..]);
    }
  }

  /** In every reachable state processing counts the threads inside. When
      vusb_wait_stop_processing has returned there is none, and when the slots have been freed
      no handler runs either. What is queued is another matter: see VusbReferences. */
  lemma NobodyInsideAfterWait(env: Env, ringSize: nat, pool: seq<Gref>, steps: seq<Step>)
    requires Distinct(pool)
    ensures var s := Run(Init(env, ringSize, pool), steps);
            && s.processing == InsideCount(s.threads)
            && (s.teardown in {Quiet, Finished, Freed, Returned} ==>
                  && (forall t :: 0 <= t < |s.threads| ==> !Inside(s.threads[t]))
                  && Held(s.threads) == multiset{})
            && (DeviceGone(s) ==> forall t :: 0 <= t < |s.threads| ==> s.threads[t].Gone?)
  {
    ReachableInv(env, ringSize, pool, steps);
    var s := Run(Init(env, ringSize, pool), steps);
    if s.teardown in {Quiet, Finished, Freed, Returned} {
      NoneInside(s.threads);
    }
  }
}
