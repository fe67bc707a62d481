/** The device as the driver keeps it: shadow and free-list arrays, a shared
    ring of fixed size addressed modulo that size, lists that are reassigned,
    and the counter of the threads inside. Each method is a routine of the
    driver and is proved to do what the function of the same name in VusbDevice
    or VusbMachine says.
*/
module VusbDriver {
  import opened Arithmetic
  import opened VusbDevice
  import opened VusbSlots
  import opened VusbInvariants
  import opened VusbKeeps
  import opened VusbCompletion
  import opened VusbSections
  import opened VusbMachine
  import opened VusbRuns

  // The ids in ring entries first, first + 1, ... up to but not including last.
  function Window(ring: seq<nat>, first: nat, last: nat): seq<nat>
    requires |ring| > 0 && first <= last
  {
    seq(last - first, k requires 0 <= k < last - first => ring[(first + k) % |ring|])
  }

  // Writing entry p leaves every window alone that does not reach it.
  lemma WindowFrame(ring: seq<nat>, first: nat, last: nat, p: nat, id: nat)
    requires |ring| > 0 && first <= last
    requires last <= p < first + |ring| || p < first <= last <= p + |ring|
    ensures Window(ring[p % |ring| := id], first, last) == Window(ring, first, last)
  {
    var w := ring[p % |ring| := id];
    forall k | 0 <= k < last - first ensures Window(w, first, last)[k] == Window(ring, first, last)[k] {
      ModDistinct(if p < first then p else first + k, if p < first then first + k else p, |ring|);
      assert (first + k) % |ring| != p % |ring|;
    }
  }

  lemma WindowPush(ring: seq<nat>, first: nat, last: nat, id: nat)
    requires |ring| > 0 && first <= last < first + |ring|
    ensures Window(ring[last % |ring| := id], first, last + 1) == Window(ring, first, last) + [id]
  {
    WindowFrame(ring, first, last, last, id);
    var w := ring[last % |ring| := id];
    assert Window(w, first, last + 1) == Window(w, first, last) + [w[last % |ring|]];
  }

  lemma WindowPop(ring: seq<nat>, first: nat, last: nat)
    requires |ring| > 0 && first < last
    ensures Window(ring, first, last) == [ring[first % |ring|]] + Window(ring, first + 1, last)
  {
  }

  // The grants once n references have come off the pool of g.
  function Drawn(g: Grants, n: nat): Grants
    requires n <= |g.pool|
  {
    Grants(g.pool[n..], g.active + multiset(g.pool[..n]))
  }

  lemma NextRef(g: Grants, n: nat, refs: seq<Gref>)
    requires n < |g.pool|
    ensures var d := Drawn(g, n);
            && |d.pool| == |g.pool| - n
            && Drawn(g, n + 1) == Grants(d.pool[1..], d.active + multiset{d.pool[0]})
            && refs + g.pool[..n] + [d.pool[0]] == refs + g.pool[..n + 1]
  {
    var p := g.pool;
    assert p[..n + 1] == p[..n] + [p[n]];
    assert g.active + (multiset(p[..n]) + multiset{p[n]}) == g.active + multiset(p[..n]) + multiset{p[n]};
  }

  lemma AttachedIso(env: Env, g: Grants, pages: nat)
    ensures VusbDevice.AttachPackets(g, pages).iso && VusbDevice.AttachIndirect(env, g, pages + 1, true).iso
  {
  }

  lemma SegmentsIso(env: Env, g: Grants, pages: nat)
    ensures VusbDevice.AttachSegments(env, g, pages).iso
  {
  }

  lemma CountsInside(s: State)
    requires PortInv(s)
    ensures s.processing == InsideCount(s.threads)
  {
  }

  // From lists l to lists m urbp h has moved to the release list, and no other urbp has moved.
  ghost predicate MovedOne(l: Lists, m: Lists, h: Ticket) {
    && (forall k: Ticket :: ListCount(m, k) == ListCount(l, k))
    && multiset(m.release) == multiset(l.release) + multiset{h}
    && (forall k: Ticket :: k != h ==> multiset(m.pending)[k] == multiset(l.pending)[k])
    && (forall k: Ticket :: k != h ==> multiset(m.finish)[k] == multiset(l.finish)[k])
  }

  lemma ReleaseMoves(l: Lists, h: Ticket)
    requires (h in l.pending) != (h in l.finish)
    ensures MovedOne(l, Lists(Without(l.pending, h), Without(l.finish, h), l.release + [h]), h)
  {
    hide Without;
    var m := Lists(Without(l.pending, h), Without(l.finish, h), l.release + [h]);
    WithoutCounts(l.pending, h);
    WithoutCounts(l.finish, h);
    assert h in l.pending <==> multiset(l.pending)[h] > 0;
    assert h in l.finish <==> multiset(l.finish)[h] > 0;
    assert multiset(m.release) == multiset(l.release) + multiset{h};
    forall k: Ticket ensures ListCount(m, k) == ListCount(l, k) {
      CountMoves(multiset(l.pending), multiset(l.finish), multiset(l.release), h, k);
    }
  }

  lemma CountMoves(p: multiset<Ticket>, f: multiset<Ticket>, r: multiset<Ticket>, h: Ticket, k: Ticket)
    requires (p[h] > 0) != (f[h] > 0)
    ensures (p - multiset{h})[k] + (f - multiset{h})[k] + (r + multiset{h})[k] == p[k] + f[k] + r[k]
  {
  }

  class Vport {
    const shadows: array<Shadow>
    const freeList: array<nat>
    var shadowFree: nat
    const ring: array<nat>
    var reqProdPvt: nat
    var rspCons: nat
    // The backend's side of the ring.
    var reqCons: nat
    var rspProd: nat
    var held: multiset<nat>

    var urbps: map<Ticket, Urbp>
    var pending: seq<Ticket>
    var finish: seq<Ticket>
    var release: seq<Ticket>
    var grants: Grants
    var env: Env
    var flags: Flags

    var running: bool
    var present: bool
    var closing: bool
    var processing: int

    ghost predicate Valid()
      reads this
    {
      && ring.Length > 0 && shadows.Length == ring.Length && freeList.Length == ring.Length && freeList != ring
      && shadowFree <= freeList.Length
      && rspCons <= rspProd <= reqCons <= reqProdPvt <= rspCons + ring.Length
      && |held| == reqCons - rspProd
    }

    ghost function AbsSlots(): Slots
      requires shadowFree <= freeList.Length
      reads this, shadows, freeList
    {
      Slots(shadows[..], freeList[..shadowFree], grants)
    }

    ghost function AbsRing(): Ring
      requires Valid()
      reads this, ring
    {
      Ring(Window(ring[..], reqCons, reqProdPvt), held, Window(ring[..], rspCons, rspProd))
    }

    ghost function Abs(): Vdev
      requires Valid()
      reads this, shadows, freeList, ring
    {
      Vdev(env, AbsSlots(), AbsRing(), urbps, Lists(pending, finish, release), flags)
    }

    // This port is the one of state s of the machine.
    ghost predicate Represents(s: State)
      reads this, shadows, freeList, ring
    {
      && Valid() && s.v == Abs()
      && s.running == running && s.present == present && s.closing == closing && s.processing == processing
    }

    // ---- slots ----------------------------------------------------------------

    method GetShadow() returns (slot: Option<nat>)
      requires Valid()
      modifies this`shadowFree, shadows
      ensures Valid()
      ensures (AbsSlots(), slot) == VusbDevice.GetShadow(old(AbsSlots()))
    {
      if shadowFree == 0 {
        return None;
      }
      shadowFree := shadowFree - 1;
      var i := freeList[shadowFree];
      assert freeList[..shadowFree] == freeList[..shadowFree + 1][..shadowFree];
      if i >= shadows.Length || shadows[i].inUse {
        return None;
      }
      shadows[i] := shadows[i].(inUse := true, grefs := [], directData := false);
      slot := Some(i);
    }

    method PutShadow(i: nat)
      requires Valid() && i < shadows.Length
      modifies this`shadowFree, this`grants, shadows, freeList
      ensures Valid()
      ensures AbsSlots() == VusbDevice.PutShadow(old(AbsSlots()), i)
    {
      var x := shadows[i];
      if !x.inUse {
        return;
      }
      if !x.directData {
        grants := EndGrants(grants, x.grefs);
      } else {
        grants := EndGrants(grants, []);
      }
      shadows[i] := x.(inUse := false, urbp := None, iso := false);
      if shadowFree >= shadows.Length {
        return;
      }
      freeList[shadowFree] := x.id;
      shadowFree := shadowFree + 1;
      assert freeList[..shadowFree] == freeList[..shadowFree - 1] + [x.id];
    }

    // ---- grants -----------------------------------------------------------------

    twostate predicate OthersSame(i: nat)
      reads shadows
    {
      forall k :: 0 <= k < shadows.Length && k != i ==> shadows[k] == old(shadows[k])
    }

    // The references come off the pool one by one and are recorded in the slot.
    method AllocateGrefs(i: nat, pages: nat) returns (ok: bool)
      requires i < shadows.Length
      modifies this`grants, shadows
      ensures var (g, refs) := Claim(old(grants), pages);
              && grants == g && (ok <==> refs.Some?)
              && shadows[i] == old(shadows[i]).(grefs := old(shadows[i]).grefs + if ok then refs.value else [])
      ensures OthersSame(i)
    {
      assert shadows[i].grefs + [] == shadows[i].grefs;
      if |grants.pool| < pages {
        return false;
      }
      ghost var was, x := grants, shadows[i];
      assert grants == Drawn(was, 0);
      for n := 0 to pages
        invariant grants == Drawn(was, n)
        invariant shadows[i] == x.(grefs := x.grefs + was.pool[..n])
        invariant OthersSame(i)
      {
        hide Drawn;
        NextRef(was, n, x.grefs);
        var gref := grants.pool[0];
        shadows[i] := shadows[i].(grefs := shadows[i].grefs + [gref]);
        grants := Grants(grants.pool[1..], grants.active + multiset{gref});
      }
      ok := true;
    }

    // Slot i holds the grants of an attachment that started with none.
    twostate predicate Granted(i: nat, a: Attached)
      reads this`grants, shadows
    {
      && i < shadows.Length
      && grants == a.grants && OthersSame(i)
      && shadows[i] == old(shadows[i]).(grefs := a.refs, iso := a.iso || old(shadows[i]).iso)
    }

    method AttachIndirect(i: nat, pages: nat, iso: bool) returns (result: SendResult)
      requires i < shadows.Length && pages > 0 && shadows[i].grefs == [] && (iso ==> shadows[i].iso)
      modifies this`grants, shadows
      ensures var a := VusbDevice.AttachIndirect(env, old(grants), pages, iso);
              Granted(i, a) && result == a.result
    {
      if !env.memory {
        return SendFailed;
      }
      var ok := AllocateGrefs(i, IndirectPages(env, pages));
      if !ok {
        return SendBusy;
      }
      assert shadows[i].grefs == Claim(old(grants), IndirectPages(env, pages)).1.value;
      if !env.indirect {
        grants := EndGrants(grants, shadows[i].grefs);
        shadows[i] := shadows[i].(grefs := []);
        return SendBusy;
      }
      result := SendOk;
    }

    method AttachData(i: nat, urb: Urb) returns (result: SendResult)
      requires i < shadows.Length && shadows[i].grefs == []
      modifies this`grants, shadows
      ensures var a := VusbDevice.AttachData(env, old(grants), urb);
              Granted(i, a) && result == a.result
    {
      var pages := 0;
      if urb.length > 0 {
        pages := SpanPages(urb.addr, urb.length);
      }
      if pages > env.maxSegments {
        if !urb.pipe.Bulk? || pages > env.maxIndirect {
          return SendFailed;
        }
        result := AttachIndirect(i, pages, false);
      } else if pages > 0 {
        var ok := AllocateGrefs(i, pages);
        assert ok ==> shadows[i].grefs == Claim(old(grants), pages).1.value;
        result := if ok then SendOk else SendBusy;
      } else {
        result := SendOk;
      }
    }

    // The packet page, then the data.
    method AttachPackets(i: nat, pages: nat) returns (result: SendResult)
      requires i < shadows.Length && shadows[i].grefs == [] && shadows[i].iso
      modifies this`grants, shadows
      ensures Granted(i, VusbDevice.AttachPackets(old(grants), pages))
      ensures result == VusbDevice.AttachPackets(old(grants), pages).result
    {
      var ok := AllocateGrefs(i, 1);
      if !ok {
        return SendBusy;
      }
      assert shadows[i].grefs == Claim(old(grants), 1).1.value;
      ok := AllocateGrefs(i, pages);
      result := if ok then SendOk else SendBusy;
    }

    method AttachIsochronous(i: nat, urb: Urb) returns (result: SendResult)
      requires i < shadows.Length && shadows[i].grefs == []
      modifies this`grants, shadows
      ensures var a := VusbDevice.AttachIsochronous(env, old(grants), urb);
              Granted(i, a) && result == a.result
    {
      hide SpanPages, VusbDevice.AttachSegments;
      if !env.memory {
        return SendFailed;
      }
      SegmentsIso(env, grants, SpanPages(urb.addr, urb.length));
      shadows[i] := shadows[i].(iso := true);
      result := AttachSegments(i, SpanPages(urb.addr, urb.length));
    }

    // The part of an isochronous attachment that depends on the number of pages.
    method AttachSegments(i: nat, pages: nat) returns (result: SendResult)
      requires i < shadows.Length && shadows[i].grefs == [] && shadows[i].iso
      modifies this`grants, shadows
      ensures var a := VusbDevice.AttachSegments(env, old(grants), pages);
              Granted(i, a) && result == a.result
    {
      hide VusbDevice.AttachPackets, VusbDevice.AttachIndirect;
      if pages == 0 {
        return SendFailed;
      }
      AttachedIso(env, grants, pages);
      if pages > env.maxIsoSegments {
        if pages + 1 > env.maxIndirect {
          return SendFailed;
        }
        result := AttachIndirect(i, pages + 1, true);
      } else {
        result := AttachPackets(i, pages);
      }
    }

    method Attach(i: nat, urb: Urb) returns (result: SendResult)
      requires i < shadows.Length && shadows[i].grefs == []
      modifies this`grants, shadows
      ensures var a := VusbDevice.Attach(env, old(grants), urb);
              Granted(i, a) && result == a.result
    {
      if urb.pipe.Isochronous? {
        result := AttachIsochronous(i, urb);
      } else {
        result := AttachData(i, urb);
      }
    }

    // ---- the ring -----------------------------------------------------------------

    /** A request may be written when the ring is not full; no entry that the
        backend has yet to read, or the driver has yet to consume, is overwritten. */
    method PutRing(i: nat)
      requires Valid() && i < shadows.Length && reqProdPvt < rspCons + ring.Length
      modifies this`reqProdPvt, ring
      ensures Valid()
      ensures AbsRing() == old(AbsRing()).(reqs := old(AbsRing()).reqs + [shadows[i].id])
    {
      WindowPush(ring[..], reqCons, reqProdPvt, shadows[i].id);
      WindowFrame(ring[..], rspCons, rspProd, reqProdPvt, shadows[i].id);
      ring[reqProdPvt % ring.Length] := shadows[i].id;
      reqProdPvt := reqProdPvt + 1;
    }

    // The backend takes the next request off the ring.
    method BackendRead()
      requires Valid() && reqCons < reqProdPvt
      modifies this`reqCons, this`held
      ensures Valid() && Abs() == VusbDevice.BackendRead(old(Abs()))
    {
      WindowPop(ring[..], reqCons, reqProdPvt);
      held := held + multiset{ring[reqCons % ring.Length]};
      reqCons := reqCons + 1;
    }

    // The backend answers a request it holds, over an entry it has read.
    method BackendAnswer(id: nat)
      requires Valid() && id in held
      modifies this`rspProd, this`held, ring
      ensures Valid() && Abs() == VusbDevice.BackendAnswer(old(Abs()), id)
    {
      WindowPush(ring[..], rspCons, rspProd, id);
      WindowFrame(ring[..], reqCons, reqProdPvt, rspProd, id);
      held := held - multiset{id};
      ring[rspProd % ring.Length] := id;
      rspProd := rspProd + 1;
    }

    // ---- sending --------------------------------------------------------------------

    // A held slot implies room on the ring.
    lemma RoomForSlot()
      requires Valid() && SlotInv(Abs()) && shadowFree > 0
      ensures reqProdPvt < rspCons + ring.Length
    {
      SlotConservation(Abs());
    }

    method Launch(i: nat, x: Shadow)
      requires Valid() && i < shadows.Length && reqProdPvt < rspCons + ring.Length
      modifies this`reqProdPvt, ring, shadows
      ensures Valid()
      ensures Abs() == VusbDevice.Launch(old(Abs()), old(AbsSlots()), i, x)
    {
      shadows[i] := x;
      PutRing(i);
    }

    method Conclude(i: nat, attached: bool)
      requires Valid() && i < shadows.Length && reqProdPvt < rspCons + ring.Length
      modifies this`reqProdPvt, this`shadowFree, this`grants, ring, shadows, freeList
      ensures Valid()
      ensures Abs() == VusbDevice.Conclude(old(Abs()), i, attached)
    {
      if attached {
        Launch(i, shadows[i].(kind := UrbRequest));
      } else {
        PutShadow(i);
      }
    }

    method Submit(h: Ticket, i: nat) returns (result: SendResult)
      requires Valid() && i < shadows.Length && shadows[i].grefs == [] && h in urbps
      requires reqProdPvt < rspCons + ring.Length
      modifies this`reqProdPvt, this`shadowFree, this`grants, this`urbps, ring, shadows, freeList
      ensures Valid()
      ensures var a := VusbDevice.Attach(env, old(grants), old(urbps)[h].urb);
              Abs() == VusbDevice.Submit(old(Abs()), h, i, a) && result == a.result
    {
      hide SpanPages;
      hide VusbDevice.Attach, VusbDevice.Conclude, Window;
      ghost var a := VusbDevice.Attach(env, grants, urbps[h].urb);
      ghost var x := shadows[i].(urbp := Some(h), grefs := a.refs, iso := a.iso || shadows[i].iso);
      shadows[i] := shadows[i].(urbp := Some(h));
      urbps := urbps[h := urbps[h].(id := Some(shadows[i].id))];
      result := Attach(i, urbps[h].urb);
      assert shadows[..] == old(shadows[..])[i := x];
      Conclude(i, result.SendOk?);
    }

    method PutUrb(h: Ticket) returns (result: SendResult)
      requires Valid() && SlotInv(Abs()) && h in urbps
      modifies this`reqProdPvt, this`shadowFree, this`grants, this`urbps, ring, shadows, freeList
      ensures Valid()
      ensures (Abs(), result) == VusbDevice.PutUrb(old(Abs()), h)
    {
      hide VusbDevice.Attach, VusbDevice.Submit, SlotInv, Window;
      if shadowFree <= 1 {
        return SendAgain;
      }
      RoomForSlot();
      ghost var top := TopIsFree(Abs());
      var slot := GetShadow();
      result := Submit(h, slot.value);
    }

    method PutInternalRequest(kind: RequestKind) returns (sent: bool)
      requires Valid() && SlotInv(Abs())
      modifies this`reqProdPvt, this`shadowFree, ring, shadows
      ensures Valid()
      ensures (Abs(), sent) == VusbDevice.PutInternal(old(Abs()), kind)
    {
      if shadowFree == 0 {
        return false;
      }
      RoomForSlot();
      ghost var top := TopIsFree(Abs());
      var slot := GetShadow();
      var i := slot.value;
      Launch(i, shadows[i].(urbp := None, directData := kind.CancelRequest?, kind := kind));
      sent := true;
    }

    method QueueRelease(h: Ticket)
      requires Valid()
      modifies this`pending, this`finish, this`release, this`flags
      ensures Valid() && Abs() == VusbDevice.QueueRelease(old(Abs()), h)
      ensures (h in old(pending)) != (h in old(finish)) ==>
                MovedOne(old(Abs().lists), Abs().lists, h)
    {
      if (h in pending) != (h in finish) {
        ReleaseMoves(Lists(pending, finish, release), h);
      }
      pending := Without(pending, h);
      finish := Without(finish, h);
      release := release + [h];
      flags := flags.(workQueued := true);
    }

    method Send(h: Ticket)
      requires Valid() && SlotInv(Abs()) && h in urbps
      modifies this`reqProdPvt, this`shadowFree, this`grants, this`urbps, this`flags, ring, shadows, freeList
      ensures Valid() && Abs() == VusbDevice.Send(old(Abs()), h)
    {
      var result := PutUrb(h);
      match result
      case SendOk =>
        if h in urbps { urbps := urbps[h := urbps[h].(state := Sent)]; }
      case SendAgain =>
        flags := flags.(workQueued := true);
      case SendBusy =>
        // The allocation that failed has registered the grant callback.
        flags := flags.(armed := true);
      case SendFailed =>
        if h in urbps { urbps := urbps[h := urbps[h].(state := Drop)]; }
    }

    method Dispatch(h: Ticket)
      requires Valid() && SlotInv(Abs()) && h in urbps
      modifies this`reqProdPvt, this`shadowFree, this`grants, this`urbps, this`flags, ring, shadows, freeList
      ensures Valid() && Abs() == VusbDevice.Dispatch(old(Abs()), h)
    {
      var urb := urbps[h].urb;
      if urbps[h].state.New? {
        if urb.pipe.Unknown? {
          urbps := urbps[h := urbps[h].(state := Drop)];
        } else if urb.pipe.Control? && urb.setAddress {
          urbps := urbps[h := urbps[h].(state := Done)];
        } else {
          Send(h);
        }
      }
    }

    method SendUrb(h: Ticket)
      requires Valid() && SlotInv(Abs()) && h in urbps
      modifies this`reqProdPvt, this`shadowFree, this`grants, this`urbps, this`flags, ring, shadows, freeList
      modifies this`pending, this`finish, this`release
      ensures Valid() && Abs() == VusbDevice.SendUrb(old(Abs()), h)
    {
      Dispatch(h);
      if h in urbps && (urbps[h].state.Done? || urbps[h].state.Drop?) {
        QueueRelease(h);
      }
    }

    // ---- completion -------------------------------------------------------------------

    method UrbFinish(h: Ticket)
      requires Valid() && h in urbps && urbps[h].rspId < shadows.Length
      modifies this`shadowFree, this`grants, this`urbps, this`flags, shadows, freeList
      modifies this`pending, this`finish, this`release
      ensures Valid() && Abs() == VusbDevice.FinishUrb(old(Abs()), h)
    {
      hide VusbDevice.PutShadow, VusbDevice.QueueRelease, Window;
      FreeShadow(h);
      QueueRelease(h);
    }

    // The slot of the response is given back and the urbp is done.
    method FreeShadow(h: Ticket)
      requires Valid() && h in urbps && urbps[h].rspId < shadows.Length
      modifies this`shadowFree, this`grants, this`urbps, this`flags, shadows, freeList
      ensures Valid()
      ensures var v := old(Abs());
              var v0 := if v.urbps[h].urb.pipe.Isochronous? && !v.urbps[h].iso then Bug(v) else v;
              Abs() == SetState(v0.(slots := VusbDevice.PutShadow(v.slots, v.urbps[h].rspId)), h, Done)
    {
      hide VusbDevice.PutShadow, Window;
      if urbps[h].urb.pipe.Isochronous? && !urbps[h].iso {
        flags := flags.(bug := true);
      }
      PutShadow(urbps[h].rspId);
      urbps := urbps[h := urbps[h].(state := Done)];
    }

    /** vusb_process under the device lock; what it returns is given back outside the lock. */
    method Process(arrival: Option<Ticket>) returns (out: seq<Ticket>)
      requires Valid() && Inv(Abs()) && Settled(Abs()) && MayArrive(Abs(), arrival)
      modifies this, ring, shadows, freeList
      ensures Valid() && (Abs(), out) == ProcessSection(old(Abs()), arrival)
    {
      FinishAndAppend(arrival);
      SendAll();
      out := release;
      release := [];
    }

    method FinishAndAppend(arrival: Option<Ticket>)
      requires Valid() && Inv(Abs()) && Settled(Abs()) && MayArrive(Abs(), arrival)
      modifies this, ring, shadows, freeList
      ensures Valid() && Abs() == Append(FinishEach(old(Abs()), old(Abs()).lists.finish), arrival)
      ensures Inv(Abs()) && Remaining(Abs(), pending)
    {
      hide Inv, Settled, FinishEach, Window, Remaining, MayArrive;
      ghost var v := Abs();
      FinishAll();
      if arrival.Some? {
        pending := pending + [arrival.value];
      }
      FinishThenAppend(v, arrival);
    }

    method FinishAll()
      requires Valid() && Inv(Abs())
      modifies this, ring, shadows, freeList
      ensures Valid() && Abs() == FinishEach(old(Abs()), old(Abs()).lists.finish)
    {
      while finish != []
        invariant Valid() && Inv(Abs())
        invariant FinishEach(Abs(), Abs().lists.finish) == FinishEach(old(Abs()), old(Abs()).lists.finish)
        decreases |finish|
      {
        FinishHead(Abs());
        UrbFinish(finish[0]);
      }
    }

    method SendAll()
      requires Valid() && Inv(Abs()) && Remaining(Abs(), pending)
      modifies this, ring, shadows, freeList
      ensures Valid() && Abs() == SendEach(old(Abs()), old(Abs()).lists.pending)
    {
      var hs := pending;
      for n := 0 to |hs|
        invariant Valid() && Inv(Abs()) && Remaining(Abs(), hs[n..])
        invariant SendEach(Abs(), hs[n..]) == SendEach(old(Abs()), hs)
      {
        SendHead(Abs(), hs[n..]);
        assert hs[n..][1..] == hs[n + 1..];
        SendUrb(hs[n]);
      }
    }

    method RetireInternal(i: nat)
      requires Valid() && i < shadows.Length
      modifies this`flags, this`shadowFree, this`grants, shadows, freeList
      ensures Valid() && Abs() == VusbDevice.RetireInternal(old(Abs()), i)
    {
      if shadows[i].kind.SpeedRequest? {
        flags := flags.(speedKnown := true);
      } else if shadows[i].kind.ResetRequest? {
        flags := flags.(resetDone := true);
      }
      PutShadow(i);
    }

    method CompleteUrb(i: nat, h: Ticket)
      requires Valid() && i < shadows.Length && h in urbps
      modifies this`urbps, this`pending, this`finish, shadows
      ensures Valid() && Abs() == VusbDevice.CompleteUrb(old(Abs()), i, h)
    {
      urbps := urbps[h := urbps[h].(rspId := i, iso := shadows[i].iso)];
      shadows[i] := shadows[i].(iso := false);
      pending := Without(pending, h);
      finish := finish + [h];
    }

    method PopResponse() returns (i: nat)
      requires Valid() && rspCons < rspProd
      modifies this`rspCons
      ensures Valid() && rspCons == old(rspCons) + 1
      ensures old(Abs()).ring.rsps != [] && i == old(Abs()).ring.rsps[0]
      ensures Abs() == VusbDevice.PopResponse(old(Abs()))
    {
      WindowPop(ring[..], rspCons, rspProd);
      i := ring[rspCons % ring.Length];
      rspCons := rspCons + 1;
    }

    method ConsumeResponse()
      requires Valid() && Inv(Abs()) && rspCons < rspProd
      requires Abs().ring.rsps[0] < shadows.Length
      modifies this, ring, shadows, freeList
      ensures Valid() && Abs() == VusbDevice.ConsumeResponse(old(Abs()))
      ensures rspProd == old(rspProd) && rspCons == old(rspCons) + 1
    {
      ResponseIsLinked(Abs());
      var i := PopResponse();
      if shadows[i].kind.UrbRequest? {
        CompleteUrb(i, shadows[i].urbp.value);
      } else {
        RetireInternal(i);
      }
    }

    method Interrupt(processing: bool)
      requires Valid() && Inv(Abs())
      modifies this, ring, shadows, freeList
      ensures Valid() && Abs() == InterruptSection(old(Abs()), processing)
    {
      if !processing && !flags.rflush {
        return;
      }
      while rspCons < rspProd
        invariant Valid() && Inv(Abs())
        invariant ConsumeEach(Abs()) == ConsumeEach(old(Abs()))
        decreases rspProd - rspCons
      {
        ConsumeHead(Abs());
        ConsumeResponse();
      }
      flags := flags.(rflush := false, workQueued := flags.workQueued || processing);
    }

    method Dequeue(h: Ticket)
      requires Valid() && Inv(Abs()) && StateOf(Abs(), h) != Cancel
      modifies this, ring, shadows, freeList
      ensures Valid() && Abs() == DequeueSection(old(Abs()), h)
    {
      if h in pending && h in urbps {
        if !urbps[h].state.Sent? {
          QueueRelease(h);
        } else {
          var id := urbps[h].id;
          StateKeeps(Abs(), SetState(Abs(), h, Cancel), h, Cancel);
          urbps := urbps[h := urbps[h].(state := Cancel)];
          var sent := PutInternalRequest(CancelRequest(id));
        }
      }
    }

    // ---- the processing counter -----------------------------------------------------------

    // The thread that asks becomes pc if it is let in.
    method StartProcessing(ghost s: State, ghost pc: Thread) returns (ok: bool)
      requires Represents(s)
      modifies this`processing
      ensures ok <==> MayStart(s)
      ensures Represents(if ok then Spawn(s, pc) else s)
      ensures PortInv(s) && Inside(pc) && ok ==> processing == InsideCount(s.threads + [pc])
    {
      hide PortInv;
      if PortInv(s) {
        CountsInside(s);
      }
      ThreadsAppend(s.threads, pc);
      if !running || !present {
        return false;
      }
      if closing {
        return false;
      }
      processing := processing + 1;
      ok := true;
    }

    // Thread t leaves.
    method StopProcessing(ghost s: State, ghost t: nat)
      requires Represents(s) && t < |s.threads| && Inside(s.threads[t])
      modifies this`processing
      ensures Represents(VusbMachine.StopProcessing(s, t))
      ensures PortInv(s) ==> 0 <= processing == InsideCount(s.threads[t := Gone])
    {
      hide PortInv;
      if PortInv(s) {
        CountsInside(s);
      }
      ThreadsUpdate(s.threads, t, Gone);
      processing := processing - 1;
    }

    // ---- setting up -----------------------------------------------------------------------

    /** vusb_setup_usbfront: every slot is put on the free stack as if it had been in use. */
    constructor (env: Env, ringSize: nat, pool: seq<Gref>)
      requires ringSize > 0
      ensures Valid() && fresh(shadows) && fresh(freeList) && fresh(ring)
      ensures Abs() == FreshDevice(env, ringSize, pool)
      ensures running && !present && !closing && processing == 0
    {
      shadows := new Shadow[ringSize](_ => FreshShadow(0));
      freeList := new nat[ringSize](_ => 0);
      ring := new nat[ringSize](_ => 0);
      shadowFree, reqProdPvt, rspCons, reqCons, rspProd, held := 0, 0, 0, 0, 0, multiset{};
      urbps, pending, finish, release := map[], [], [], [];
      this.env, grants, flags := env, Grants(pool, multiset{}), Flags(false, false, false, false, false, false);
      running, present, closing, processing := true, false, false, 0;
      new;
      SetupShadows();
    }

    method SetupShadows()
      requires Valid() && shadowFree == 0 && grants.active == multiset{}
      requires forall k :: 0 <= k < ring.Length ==> shadows[k] == FreshShadow(0)
      modifies this`shadowFree, this`grants, shadows, freeList
      ensures Valid() && grants == old(grants)
      ensures AbsSlots() == Slots(FreshDevice(env, ring.Length, []).slots.shadows, FreshDevice(env, ring.Length, []).slots.free, grants)
    {
      for i := 0 to ring.Length
        invariant Valid() && shadowFree == i && grants == old(grants)
        invariant forall k :: 0 <= k < i ==> shadows[k] == FreshShadow(k) && freeList[k] == k
        invariant forall k :: i <= k < ring.Length ==> shadows[k] == FreshShadow(0)
      {
        PutFirst(i);
      }
      assert freeList[..ring.Length] == FreshDevice(env, ring.Length, []).slots.free;
    }

    method PutFirst(i: nat)
      requires Valid() && shadowFree == i < ring.Length && grants.active == multiset{} && shadows[i] == FreshShadow(0)
      modifies this`shadowFree, this`grants, shadows, freeList
      ensures Valid() && shadowFree == i + 1 && grants == old(grants)
      ensures shadows[i] == FreshShadow(i) && freeList[i] == i && OthersSame(i)
      ensures forall k :: 0 <= k < i ==> freeList[k] == old(freeList[k])
    {
      shadows[i] := shadows[i].(id := i, inUse := true);
      label before:
      PutShadow(i);
      assert shadows[..] == old@before(shadows[..])[i := FreshShadow(i)];
      assert freeList[..shadowFree] == old@before(freeList[..i]) + [i];
      forall k | 0 <= k < i ensures freeList[k] == old(freeList[k]) {
        assert freeList[..shadowFree][k] == old@before(freeList[..i])[k];
      }
      assert old(grants).pool + [] == old(grants).pool;
      forall k | 0 <= k < shadows.Length && k != i ensures shadows[k] == old(shadows[k]) {
        assert shadows[..][k] == old@before(shadows[..])[k];
      }
    }
  }
}
