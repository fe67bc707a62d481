/** Grants: one for each page that a transfer touches, ended once. */
module VusbGrants {
  import opened VusbDevice
  import opened VusbSlots
  import opened VusbInvariants
  import opened VusbMachine
  import opened VusbRuns
  import opened VusbReach
  import opened VusbTheorems

  // The pages that hold the bytes addr .. addr + length - 1.
  ghost function PagesTouched(addr: nat, length: nat): set<nat> {
    set b: nat | addr <= b < addr + length :: b / PAGE_SIZE
  }

  ghost function Interval(first: nat, count: nat): (r: set<nat>)
    ensures |r| == count
    ensures forall p: nat :: p in r <==> first <= p < first + count
  {
    if count == 0 then {} else Interval(first, count - 1) + {first + count - 1}
  }

  lemma DivMonotone(a: nat, b: nat)
    requires a <= b
    ensures a / PAGE_SIZE <= b / PAGE_SIZE
  {
  }

  lemma SpanIsLastMinusFirst(addr: nat, length: nat)
    requires length > 0
    ensures SpanPages(addr, length) == (addr + length - 1) / PAGE_SIZE - addr / PAGE_SIZE + 1
  {
    var qa, ra := addr / PAGE_SIZE, addr % PAGE_SIZE;
    var ql, rl := length / PAGE_SIZE, length % PAGE_SIZE;
    assert addr == PAGE_SIZE * qa + ra && length == PAGE_SIZE * ql + rl;
    var t := ra + rl + PAGE_SIZE - 1;
    assert addr + length - 1 == PAGE_SIZE * (qa + ql - 1) + t;
  }

  /** SPAN_PAGES is the number of pages that a non-empty range touches. */
  lemma SpanPagesCountsPages(addr: nat, length: nat)
    requires length > 0
    ensures SpanPages(addr, length) == |PagesTouched(addr, length)|
  {
    var first, count := addr / PAGE_SIZE, SpanPages(addr, length);
    SpanIsLastMinusFirst(addr, length);
    DivMonotone(addr, addr + length - 1);
    forall p: nat ensures p in PagesTouched(addr, length) <==> p in Interval(first, count) {
      if first <= p < first + count {
        var b := if p == first then addr else PAGE_SIZE * p;
        assert b / PAGE_SIZE == p && addr <= b < addr + length;
        assert p in PagesTouched(addr, length);
      }
      if p in PagesTouched(addr, length) {
        var b: nat :| addr <= b < addr + length && b / PAGE_SIZE == p;
        DivMonotone(addr, b);
        DivMonotone(b, addr + length - 1);
      }
    }
    assert PagesTouched(addr, length) == Interval(first, count);
  }

  ghost predicate Direct(env: Env, urb: Urb) {
    SpanPages(urb.addr, urb.length) <= if urb.pipe.Isochronous? then env.maxIsoSegments else env.maxSegments
  }

  /** A directly granted transfer that is attached has one recorded grant for
      each page of its data, and one more for the packet page if isochronous;
      one that is not attached leaves no grant behind once its slot is given back. */
  lemma AttachedGrantsCountPages(env: Env, g: Grants, urb: Urb)
    requires urb.length > 0 && Direct(env, urb)
    ensures var a := Attach(env, g, urb);
            && (a.result.SendOk? ==>
                  |a.refs| == |PagesTouched(urb.addr, urb.length)| + if urb.pipe.Isochronous? then 1 else 0)
            && (!a.result.SendOk? ==> EndGrants(a.grants, a.refs).active == g.active)
  {
    SpanPagesCountsPages(urb.addr, urb.length);
    AttachConserves(env, g, urb);
    EndAfterAttach(g, Attach(env, g, urb));
  }

  // So many pages hold one descriptor for each of pages pages, and fewer do not.
  ghost predicate Describes(env: Env, count: nat, pages: nat) {
    count > 0 && count * env.perIndirectPage >= pages && (count - 1) * env.perIndirectPage < pages
  }

  lemma DescriptorPages(env: Env, pages: nat)
    requires pages > 0 && env.perIndirectPage > 0
    ensures Describes(env, IndirectPages(env, pages), pages)
  {
    var per, q := env.perIndirectPage, (pages - 1) / env.perIndirectPage;
    assert pages - 1 == q * per + (pages - 1) % per;
    assert (q + 1) * per == q * per + per;
  }

  // How a transfer of so many pages is attached: refused for good, or with so many references.
  ghost predicate AttachedAs(env: Env, g: Grants, a: Attached, refused: bool, direct: bool, needed: nat) {
    && (a.result.SendFailed? <==> refused)
    && (a.result.SendOk? <==> !refused && needed <= |g.pool| && (direct || env.indirect))
    && (a.result.SendBusy? <==> !refused && !(needed <= |g.pool| && (direct || env.indirect)))
    && (a.result.SendOk? ==> |a.refs| == needed <= |g.pool| && a.refs == g.pool[..needed])
  }

  /** The outcome of attaching the data of a URB, by the pages it touches. One that is not
      isochronous needs a reference for each page, or for each page of descriptors when there
      are more pages than segments; only a bulk transfer may, up to a limit. An isochronous one
      needs one more page, for its packets, and memory. The references are the next of the pool. */
  lemma AttachOutcome(env: Env, g: Grants, urb: Urb, descriptors: nat)
    requires urb.length > 0 && env.perIndirectPage > 0
    requires var p := |PagesTouched(urb.addr, urb.length)|;
             Describes(env, descriptors, if urb.pipe.Isochronous? then p + 1 else p)
    ensures var p := |PagesTouched(urb.addr, urb.length)|; var a := Attach(env, g, urb);
            if urb.pipe.Isochronous? then
              var direct := p <= env.maxIsoSegments;
              AttachedAs(env, g, a, !env.memory || (!direct && p + 1 > env.maxIndirect), direct,
                         if direct then p + 1 else descriptors)
            else
              var direct := p <= env.maxSegments;
              AttachedAs(env, g, a, !direct && (!urb.pipe.Bulk? || p > env.maxIndirect || !env.memory), direct,
                         if direct then p else descriptors)
  {
    SpanPagesCountsPages(urb.addr, urb.length);
    SpanIsLastMinusFirst(urb.addr, urb.length);
    DivMonotone(urb.addr, urb.addr + urb.length - 1);
    var p := SpanPages(urb.addr, urb.length);
    var pages := if urb.pipe.Isochronous? then p + 1 else p;
    DescriptorPages(env, pages);
    SameCount(env, descriptors, IndirectPages(env, pages), pages);
    hide SpanPages, PagesTouched, IndirectPages, Describes;
    if urb.pipe.Isochronous? {
      IsochronousOutcome(env, g, urb, p, descriptors);
    }
  }

  lemma SameCount(env: Env, m: nat, n: nat, pages: nat)
    requires env.perIndirectPage > 0 && Describes(env, m, pages) && Describes(env, n, pages)
    ensures m == n
  {
    MulMonotone(m, n - 1, env.perIndirectPage);
    MulMonotone(n, m - 1, env.perIndirectPage);
  }

  lemma MulMonotone(m: nat, n: nat, per: nat)
    ensures m <= n ==> m * per <= n * per
  {
  }

  lemma IsochronousOutcome(env: Env, g: Grants, urb: Urb, p: nat, descriptors: nat)
    requires urb.pipe.Isochronous? && p == SpanPages(urb.addr, urb.length) > 0
    requires descriptors == IndirectPages(env, p + 1)
    ensures var direct := p <= env.maxIsoSegments;
            AttachedAs(env, g, Attach(env, g, urb), !env.memory || (!direct && p + 1 > env.maxIndirect), direct,
                       if direct then p + 1 else descriptors)
  {
    hide SpanPages, IndirectPages;
    if |g.pool| > p {
      assert [g.pool[0]] + g.pool[1..][..p] == g.pool[..p + 1];
    }
  }

  // ---- over every run -------------------------------------------------------------------

  lemma {:induction false} GrantHolder(shadows: seq<Shadow>, ref: Gref)
    requires ref in AllGrants(shadows)
    ensures exists i :: 0 <= i < |shadows| && ref in GrantsOf(shadows[i])
  {
    if ref !in GrantsOf(shadows[0]) {
      GrantHolder(shadows[1..], ref);
      var i :| 0 <= i < |shadows[1..]| && ref in GrantsOf(shadows[1..][i]);
      assert shadows[i + 1] == shadows[1..][i];
    }
  }

  lemma {:induction false} GrantsAdd(shadows: seq<Shadow>, i: nat, j: nat, ref: Gref)
    requires i < j < |shadows|
    ensures AllGrants(shadows)[ref] >= GrantsOf(shadows[i])[ref] + GrantsOf(shadows[j])[ref]
  {
    hide GrantsOf;
    if i == 0 {
      GrantsWithin(shadows[1..], j - 1);
    } else {
      GrantsAdd(shadows[1..], i - 1, j - 1, ref);
    }
  }

  /** In every reachable state a reference is active exactly when one slot in
      use records it, and then it is recorded once and is not in the pool. */
  lemma ActiveGrantsAreRecorded(env: Env, ringSize: nat, pool: seq<Gref>, steps: seq<Step>, ref: Gref)
    requires Distinct(pool)
    ensures var s := Run(Init(env, ringSize, pool), steps);
            var sh := s.v.slots.shadows;
            !DeviceGone(s) ==>
              && s.v.slots.grants.active[ref] <= 1
              && (ref in s.v.slots.grants.active <==> exists i :: 0 <= i < |sh| && ref in GrantsOf(sh[i]))
              && (forall i, j :: 0 <= i < j < |sh| && ref in GrantsOf(sh[i]) ==> ref !in GrantsOf(sh[j]))
              && (ref in s.v.slots.grants.active ==> ref !in s.v.slots.grants.pool)
  {
    ReachableInv(env, ringSize, pool, steps);
    var s := Run(Init(env, ringSize, pool), steps);
    if !DeviceGone(s) {
      var sh, g := s.v.slots.shadows, s.v.slots.grants;
      assert (multiset(g.pool) + g.active)[ref] <= 1;
      assert ref in g.pool <==> ref in multiset(g.pool);
      if ref in g.active {
        GrantHolder(sh, ref);
      }
      forall i | 0 <= i < |sh| && ref in GrantsOf(sh[i]) ensures ref in g.active {
        GrantsWithin(sh, i);
      }
      forall i, j | 0 <= i < j < |sh| && ref in GrantsOf(sh[i]) ensures ref !in GrantsOf(sh[j]) {
        GrantsAdd(sh, i, j, ref);
      }
    }
  }

  // ---- the number of slots ------------------------------------------------------------

  lemma {:induction false} FinishEachSize(v: Vdev, hs: seq<Ticket>)
    ensures |FinishEach(v, hs).slots.shadows| == |v.slots.shadows|
    decreases |hs|
  {
    if hs != [] {
      if hs[0] in v.urbps && v.urbps[hs[0]].rspId < |v.slots.shadows| {
        FinishEachSize(FinishUrb(v, hs[0]), hs[1..]);
      } else {
        FinishEachSize(Bug(v), hs[1..]);
      }
    }
  }

  lemma {:induction false} SendEachSize(v: Vdev, hs: seq<Ticket>)
    ensures |SendEach(v, hs).slots.shadows| == |v.slots.shadows|
    decreases |hs|
  {
    if hs != [] {
      if hs[0] in v.urbps {
        SendEachSize(SendUrb(v, hs[0]), hs[1..]);
      } else {
        SendEachSize(Bug(v), hs[1..]);
      }
    }
  }

  lemma {:induction false} ConsumeEachSize(v: Vdev)
    ensures |ConsumeEach(v).slots.shadows| == |v.slots.shadows|
    decreases |v.ring.rsps|
  {
    if v.ring.rsps != [] && v.ring.rsps[0] < |v.slots.shadows| {
      ConsumeEachSize(ConsumeResponse(v));
    }
  }

  lemma StepSize(s: State, step: Step)
    ensures |Next(s, step).v.slots.shadows| == |s.v.slots.shadows|
  {
    hide EnqueueStep, DequeueStep, AdvanceThread, FinishEach, PutShadow;
    match step
    case TeardownNext => FinishEachSize(s.v, s.v.lists.finish);
    case Advance(t) => AdvanceSize(s, t);
    case Enqueue(urb, linked) => EnqueueSize(s, urb, linked);
    case Dequeue(h) => DequeueSize(s, h);
    case _ =>
  }

  lemma EnqueueSize(s: State, urb: Urb, linked: bool)
    ensures |EnqueueStep(s, urb, linked).v.slots.shadows| == |s.v.slots.shadows|
  {
  }

  lemma DequeueSize(s: State, h: Ticket)
    ensures |DequeueStep(s, h).v.slots.shadows| == |s.v.slots.shadows|
  {
  }

  lemma AdvanceSize(s: State, t: nat)
    ensures |AdvanceThread(s, t).v.slots.shadows| == |s.v.slots.shadows|
  {
    if t < |s.threads| {
      match s.threads[t]
      case Submitting(h) => ProcessSize(s.v, Some(h));
      case Working => ProcessSize(s.v, None);
      case InHandler(_) => ConsumeEachSize(s.v);
      case _ =>
    }
  }

  lemma ProcessSize(v: Vdev, arrival: Option<Ticket>)
    ensures |ProcessSection(v, arrival).0.slots.shadows| == |v.slots.shadows|
  {
    FinishEachSize(v, v.lists.finish);
    var v1 := Append(FinishEach(v, v.lists.finish), arrival);
    SendEachSize(v1, v1.lists.pending);
  }

  lemma {:induction false} RunSize(s: State, steps: seq<Step>)
    ensures |Run(s, steps).v.slots.shadows| == |s.v.slots.shadows|
    decreases |steps|
  {
    if steps != [] {
      StepSize(s, steps[0]);
      RunSize(Next(s, steps[0]), steps[1..]);
    }
  }

  /** In every reachable state with a live device: the slots in use balance the
      ring and the finish list, a free slot implies room on the ring, and sent
      urbps and slots on the ring name each other, one to one. */
  lemma EngineBalance(env: Env, ringSize: nat, pool: seq<Gref>, steps: seq<Step>)
    requires Distinct(pool)
    ensures var s := Run(Init(env, ringSize, pool), steps);
            !DeviceGone(s) ==>
              && |s.v.slots.shadows| == ringSize && |s.v.slots.free| + |SlotsInUse(s.v)| == ringSize
              && |SlotsInUse(s.v)| == RingLoad(s.v.ring) + |s.v.lists.finish|
              && (s.v.slots.free != [] ==> RingLoad(s.v.ring) < ringSize)
              && (forall h :: h in OutstandingTickets(s.v) ==>
                    && s.v.urbps[h].id.Some? && s.v.urbps[h].id.value in UrbSlotsInFlight(s.v)
                    && s.v.slots.shadows[s.v.urbps[h].id.value].urbp == Some(h))
              && (forall i :: i in UrbSlotsInFlight(s.v) ==>
                    && s.v.slots.shadows[i].urbp.Some? && s.v.slots.shadows[i].urbp.value in OutstandingTickets(s.v)
                    && s.v.urbps[s.v.slots.shadows[i].urbp.value].id == Some(i))
  {
    ReachableInv(env, ringSize, pool, steps);
    RunSize(Init(env, ringSize, pool), steps);
    var s := Run(Init(env, ringSize, pool), steps);
    if !DeviceGone(s) {
      SlotBalance(s.v);
      SlotConservation(s.v);
      SentMatchesRing(s.v);
    }
  }
}
