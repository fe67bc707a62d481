/** The invariant of the device state, and its preservation by each routine. */
module VusbInvariants {
  import opened VusbDevice
  import opened VusbSlots

  // How many places hold slot i: the free stack, the ring, the backend, the finish list.
  ghost function PlaceCount(v: Vdev, i: nat): nat {
    multiset(v.slots.free)[i] + InFlight(v.ring, i) + FinishIds(v.urbps, v.lists.finish)[i]
  }

  ghost function InFlight(r: Ring, i: nat): nat {
    multiset(r.reqs)[i] + r.held[i] + multiset(r.rsps)[i]
  }

  ghost predicate SlotInv(v: Vdev) {
    && (forall i :: 0 <= i < |v.slots.shadows| ==> v.slots.shadows[i].id == i)
    && (forall i: nat :: PlaceCount(v, i) == if i < |v.slots.shadows| then 1 else 0)
    && (forall i :: 0 <= i < |v.slots.shadows| ==> (v.slots.shadows[i].inUse <==> i !in v.slots.free))
  }

  ghost predicate Outstanding(u: Urbp) {
    u.state.Sent? || u.state.Cancel?
  }

  // Slot i carries the request of urbp h.
  ghost predicate Carries(v: Vdev, i: nat, h: Ticket) {
    && i < |v.slots.shadows|
    && v.slots.shadows[i].inUse
    && v.slots.shadows[i].kind.UrbRequest?
    && v.slots.shadows[i].urbp == Some(h)
    && h in v.urbps
    && Outstanding(v.urbps[h])
  }

  ghost predicate PendingLinked(v: Vdev, h: Ticket) {
    && h in v.urbps
    && (Outstanding(v.urbps[h]) ==>
          && v.urbps[h].id.Some?
          && Carries(v, v.urbps[h].id.value, h)
          && InFlight(v.ring, v.urbps[h].id.value) == 1)
  }

  ghost predicate SlotLinked(v: Vdev, i: nat)
    requires i < |v.slots.shadows|
  {
    InFlight(v.ring, i) > 0 && v.slots.shadows[i].kind.UrbRequest? ==>
      && v.slots.shadows[i].urbp.Some?
      && var h := v.slots.shadows[i].urbp.value;
         && Carries(v, i, h)
         && h in v.lists.pending
         && v.urbps[h].id == Some(i)
         && (v.urbps[h].urb.pipe.Isochronous? ==> v.slots.shadows[i].iso)
  }

  ghost predicate FinishLinked(v: Vdev, h: Ticket) {
    && h in v.urbps
    && Carries(v, v.urbps[h].rspId, h)
    && (v.urbps[h].urb.pipe.Isochronous? ==> v.urbps[h].iso)
  }

  ghost function ListCount(l: Lists, h: Ticket): nat {
    multiset(l.pending)[h] + multiset(l.finish)[h] + multiset(l.release)[h]
  }

  ghost predicate LinkInv(v: Vdev) {
    && (forall h :: h in v.lists.pending ==> PendingLinked(v, h))
    && (forall i :: 0 <= i < |v.slots.shadows| ==> SlotLinked(v, i))
    && (forall h :: h in v.lists.finish ==> FinishLinked(v, h))
    && (forall h :: h in v.lists.release ==> h in v.urbps)
    && (forall h: Ticket :: ListCount(v.lists, h) <= 1)
  }

  ghost predicate Inv(v: Vdev) {
    SlotInv(v) && LinkInv(v) && GrantInv(v.slots) && !v.flags.bug
  }

  // No urbp that is ready to be released is left on the pending list.
  ghost predicate Settled(v: Vdev) {
    forall h :: h in v.lists.pending ==> StateOf(v, h) in {New, Sent, Cancel}
  }

  // ---- every slot is somewhere ------------------------------------------------

  ghost function Range(n: nat): (m: multiset<nat>)
    ensures |m| == n
    ensures forall i: nat :: m[i] == if i < n then 1 else 0
  {
    if n == 0 then multiset{} else Range(n - 1) + multiset{n - 1}
  }

  /** The slots in use are those on the ring (req_prod_pvt - rsp_cons of them)
      and those on the finish list; the rest are on the free stack. */
  lemma SlotConservation(v: Vdev)
    requires SlotInv(v)
    ensures |v.slots.free| + |v.ring.reqs| + |v.ring.held| + |v.ring.rsps| + |v.lists.finish| == |v.slots.shadows|
  {
    var r := multiset(v.ring.reqs) + v.ring.held + multiset(v.ring.rsps);
    var all := multiset(v.slots.free) + r + FinishIds(v.urbps, v.lists.finish);
    forall i: nat ensures all[i] == Range(|v.slots.shadows|)[i] {
      assert all[i] == PlaceCount(v, i);
    }
    assert all == Range(|v.slots.shadows|);
  }

  // ---- the routines that move one slot --------------------------------------

  lemma TopIsFree(v: Vdev) returns (i: nat)
    requires SlotInv(v) && v.slots.free != []
    ensures i == v.slots.free[|v.slots.free| - 1]
    ensures i < |v.slots.shadows| && !v.slots.shadows[i].inUse && v.slots.shadows[i].id == i
    ensures InFlight(v.ring, i) == 0 && FinishIds(v.urbps, v.lists.finish)[i] == 0
    ensures multiset(v.slots.free) == multiset(v.slots.free[..|v.slots.free| - 1]) + multiset{i}
    ensures i !in v.slots.free[..|v.slots.free| - 1]
    ensures v.slots.free == v.slots.free[..|v.slots.free| - 1] + [i]
  {
    i := v.slots.free[|v.slots.free| - 1];
    assert v.slots.free == v.slots.free[..|v.slots.free| - 1] + [i];
    assert i in multiset(v.slots.free);
    assert PlaceCount(v, i) <= 1;
  }

  // A free slot i has become x, in use, and its request is on the ring.
  ghost predicate Launched(v: Vdev, w: Vdev, i: nat, x: Shadow) {
    && v.slots.free != [] && i == v.slots.free[|v.slots.free| - 1] && i < |v.slots.shadows|
    && w.slots.shadows == v.slots.shadows[i := x]
    && w.slots.free == v.slots.free[..|v.slots.free| - 1]
    && w.ring == v.ring.(reqs := v.ring.reqs + [i])
    && w.lists == v.lists && w.flags == v.flags && w.env == v.env
    && x.inUse && x.id == i
  }

  // A free slot i has become x, still free, and nothing was sent.
  ghost predicate Abandoned(v: Vdev, w: Vdev, i: nat, x: Shadow) {
    && v.slots.free != [] && i == v.slots.free[|v.slots.free| - 1] && i < |v.slots.shadows|
    && w.slots.shadows == v.slots.shadows[i := x]
    && w.slots.free == v.slots.free
    && w.ring == v.ring && w.lists == v.lists && w.flags == v.flags && w.env == v.env
    && !x.inUse && x.id == i
  }

  lemma GrantLaunched(s: Slots, t: Slots, i: nat, x: Shadow, a: Attached)
    requires GrantInv(s) && i < |s.shadows| && GrantsOf(s.shadows[i]) == multiset{}
    requires Conserves(s.grants, a)
    requires t.shadows == s.shadows[i := x] && t.grants == a.grants && GrantsOf(x) == multiset(a.refs)
    ensures GrantInv(t)
  {
    AllGrantsUpdate(s.shadows, i, x);
    forall g ensures (multiset(t.grants.pool) + t.grants.active)[g] <= 1 {
      assert (multiset(s.grants.pool) + s.grants.active)[g] <= 1;
    }
  }

  lemma EndAfterAttach(g: Grants, a: Attached)
    requires Conserves(g, a)
    ensures EndGrants(a.grants, a.refs).active == g.active
    ensures multiset(EndGrants(a.grants, a.refs).pool) == multiset(g.pool)
  {
  }

  lemma SameGrants(shadows: seq<Shadow>, i: nat, x: Shadow)
    requires i < |shadows| && GrantsOf(shadows[i]) == GrantsOf(x)
    ensures AllGrants(shadows[i := x]) == AllGrants(shadows)
  {
    AllGrantsUpdate(shadows, i, x);
    var p, q, d := AllGrants(shadows[i := x]), AllGrants(shadows), GrantsOf(x);
    assert p == (p + d) - d == (q + d) - d == q;
  }

  lemma GrantAbandoned(s: Slots, t: Slots, i: nat, x: Shadow, a: Attached)
    requires GrantInv(s) && i < |s.shadows| && !s.shadows[i].inUse
    requires Conserves(s.grants, a)
    requires t.shadows == s.shadows[i := x] && t.grants == EndGrants(a.grants, a.refs) && !x.inUse
    ensures GrantInv(t)
  {
    SameGrants(s.shadows, i, x);
    EndAfterAttach(s.grants, a);
    assert multiset(t.grants.pool) + t.grants.active == multiset(s.grants.pool) + s.grants.active;
  }

  ghost predicate PutOutcome(v: Vdev, h: Ticket, w: Vdev, r: SendResult, i: nat, x: Shadow)
    requires h in v.urbps
  {
    && GrantInv(w.slots)
    && (r.SendAgain? <==> |v.slots.free| <= 1)
    && (r.SendAgain? ==> w == v)
    && (!r.SendAgain? ==> w.urbps == v.urbps[h := v.urbps[h].(id := Some(i))])
    && (r.SendOk? ==>
          && Launched(v, w, i, x) && x.kind.UrbRequest? && x.urbp == Some(h)
          && (v.urbps[h].urb.pipe.Isochronous? ==> x.iso))
    && (r.SendBusy? || r.SendFailed? ==> Abandoned(v, w, i, x))
  }

  // Slot i of v.slots has been taken off the free stack, and nothing else has changed.
  ghost predicate Taken(v: Vdev, t: Vdev, i: nat) {
    && v.slots.free != [] && i == v.slots.free[|v.slots.free| - 1] && i < |v.slots.shadows|
    && t == v.(slots := t.slots)
    && t.slots.free == v.slots.free[..|v.slots.free| - 1]
    && |t.slots.shadows| == |v.slots.shadows|
    && t.slots.shadows == v.slots.shadows[i := t.slots.shadows[i]]
    && t.slots.shadows[i].inUse && t.slots.shadows[i].id == i && !t.slots.shadows[i].directData
    && t.slots.grants == v.slots.grants
  }

  lemma SubmitEffect(v: Vdev, t: Vdev, h: Ticket, i: nat, a: Attached)
    requires SlotInv(v) && GrantInv(v.slots) && h in v.urbps && |v.slots.free| > 1 && Taken(v, t, i)
    requires Conserves(v.slots.grants, a) && !a.result.SendAgain?
    requires a.result.SendOk? && v.urbps[h].urb.pipe.Isochronous? ==> a.iso
    ensures PutOutcome(v, h, Submit(t, h, i, a), a.result, i, Submit(t, h, i, a).slots.shadows[i])
  {
    var top := TopIsFree(v);
    SlotConservation(v);
    var w := Submit(t, h, i, a);
    var x := w.slots.shadows[i];
    assert w.slots.shadows == v.slots.shadows[i := x];
    if a.result.SendOk? {
      GrantLaunched(v.slots, w.slots, i, x, a);
    } else {
      GrantAbandoned(v.slots, w.slots, i, x, a);
    }
  }

  // What a send does: nothing, or one slot is launched for h, or taken and given back.
  lemma PutUrbEffect(v: Vdev, h: Ticket) returns (i: nat, x: Shadow)
    requires SlotInv(v) && GrantInv(v.slots) && h in v.urbps
    ensures PutOutcome(v, h, PutUrb(v, h).0, PutUrb(v, h).1, i, x)
  {
    i, x := 0, Shadow(0, false, UrbRequest, None, [], false, false);
    if |v.slots.free| > 1 {
      i := TopIsFree(v);
      var s := GetShadow(v.slots).0;
      var a := Attach(v.env, v.slots.grants, v.urbps[h].urb);
      AttachConserves(v.env, v.slots.grants, v.urbps[h].urb);
      SubmitEffect(v, v.(slots := s), h, i, a);
      x := Submit(v.(slots := s), h, i, a).slots.shadows[i];
    }
  }
}
