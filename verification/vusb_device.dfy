/** The vUSB front-end device: shadow slots, request ring and URB lists.

    Every function here is the net effect of one routine of the driver on the
    state that the device lock protects. The class in vusb_driver.dfy does the
    same on arrays and indices and is proved equal to these functions.
*/
module VusbDevice {

  datatype Option<+T> = None | Some(value: T)

  // An accepted struct vusb_urbp; the n-th accepted urbp is ticket n.
  type Ticket = nat
  type Gref = nat

  const PAGE_SIZE: nat := 4096

  datatype Pipe = Control | Isochronous | Interrupt | Bulk | Unknown

  // What the driver reads of a struct urb.
  datatype Urb = Urb(pipe: Pipe, addr: nat, length: nat, setAddress: bool)

  datatype UrbpState = New | Sent | Done | Drop | Cancel

  datatype Urbp = Urbp(urb: Urb, state: UrbpState, id: Option<nat>, rspId: nat, iso: bool)

  // The request types at or below USBIF_T_INT are one case, UrbRequest.
  datatype RequestKind = UrbRequest | ResetRequest | SpeedRequest | CancelRequest(target: Option<nat>)

  datatype Shadow = Shadow(id: nat, inUse: bool, kind: RequestKind, urbp: Option<Ticket>,
                           grefs: seq<Gref>, directData: bool, iso: bool)

  /** The environment: constants of the Xen USB interface header, which is not
      part of the repository, and whether allocations succeed right now. */
  datatype Env = Env(maxSegments: nat, maxIsoSegments: nat, maxIndirect: nat, perIndirectPage: nat,
                     memory: bool,    // atomic allocations succeed
                     indirect: bool)  // granting the second level of an indirect request succeeds

  // The grant references that would be handed out next, and those given to the backend.
  datatype Grants = Grants(pool: seq<Gref>, active: multiset<Gref>)

  // `free` is the used prefix of shadow_free_list; the top of the stack is last.
  datatype Slots = Slots(shadows: seq<Shadow>, free: seq<nat>, grants: Grants)

  // Requests not yet read by the backend, read but not answered, answered but not consumed.
  datatype Ring = Ring(reqs: seq<nat>, held: multiset<nat>, rsps: seq<nat>)

  datatype Lists = Lists(pending: seq<Ticket>, finish: seq<Ticket>, release: seq<Ticket>)

  datatype Flags = Flags(rflush: bool, resetDone: bool, speedKnown: bool,
                         workQueued: bool,   // the device work is queued
                         armed: bool,        // the grant callback is registered; it will queue the work
                         bug: bool)          // a BUG_ON has fired

  datatype Vdev = Vdev(env: Env, slots: Slots, ring: Ring, urbps: map<Ticket, Urbp>, lists: Lists, flags: Flags)

  function Without(s: seq<Ticket>, h: Ticket): seq<Ticket> {
    if s == [] then [] else if s[0] == h then s[1..] else [s[0]] + Without(s[1..], h)
  }

  function StateOf(v: Vdev, h: Ticket): UrbpState {
    if h in v.urbps then v.urbps[h].state else New
  }

  function SetState(v: Vdev, h: Ticket, state: UrbpState): Vdev {
    if h in v.urbps then v.(urbps := v.urbps[h := v.urbps[h].(state := state)]) else v
  }

  function Bug(v: Vdev): Vdev {
    v.(flags := v.flags.(bug := true))
  }

  // ---- shadow slots -----------------------------------------------------

  function GetShadow(s: Slots): (Slots, Option<nat>)
  {
    if s.free == [] then (s, None)
    else
      var top := |s.free| - 1;
      var i := s.free[top];
      if i >= |s.shadows| || s.shadows[i].inUse then (s.(free := s.free[..top]), None)
      else
        (s.(free := s.free[..top],
            shadows := s.shadows[i := s.shadows[i].(inUse := true, grefs := [], directData := false)]), Some(i))
  }

  function PutShadow(s: Slots, i: nat): Slots
    requires i < |s.shadows|
  {
    var x := s.shadows[i];
    if !x.inUse then s
    else
      var ended := if x.directData then [] else x.grefs;
      Slots(s.shadows[i := x.(inUse := false, urbp := None, iso := false)],
            if |s.free| >= |s.shadows| then s.free else s.free + [x.id],
            EndGrants(s.grants, ended))
  }

  // ---- grants -------------------------------------------------------------

  function SpanPages(addr: nat, length: nat): nat {
    length / PAGE_SIZE + (addr % PAGE_SIZE + length % PAGE_SIZE + PAGE_SIZE - 1) / PAGE_SIZE
  }

  function EndGrants(g: Grants, refs: seq<Gref>): Grants {
    Grants(g.pool + refs, g.active - multiset(refs))
  }

  function Claim(g: Grants, n: nat): (Grants, Option<seq<Gref>>) {
    if |g.pool| < n then (g, None)
    else (Grants(g.pool[n..], g.active + multiset(g.pool[..n])), Some(g.pool[..n]))
  }

  datatype SendResult = SendOk | SendAgain | SendBusy | SendFailed

  // What is recorded in the shadow when its data has been granted, or not.
  datatype Attached = Attached(grants: Grants, refs: seq<Gref>, iso: bool, result: SendResult)

  function IndirectPages(env: Env, pages: nat): nat
    requires pages > 0
  {
    if env.perIndirectPage == 0 then 1 else (pages - 1) / env.perIndirectPage + 1
  }

  // The recorded grants of an indirect request cover its descriptor pages; the
  // grants listed inside those pages are not tracked.
  function AttachIndirect(env: Env, g: Grants, pages: nat, iso: bool): Attached
    requires pages > 0
  {
    if !env.memory then Attached(g, [], iso, SendFailed)
    else
      match Claim(g, IndirectPages(env, pages))
      case (g1, None) => Attached(g1, [], iso, SendBusy)
      case (g1, Some(refs)) =>
        if env.indirect then Attached(g1, refs, iso, SendOk) else Attached(EndGrants(g1, refs), [], iso, SendBusy)
  }

  function AttachData(env: Env, g: Grants, urb: Urb): Attached {
    var pages := if urb.length > 0 then SpanPages(urb.addr, urb.length) else 0;
    if pages > env.maxSegments then
      if !urb.pipe.Bulk? || pages > env.maxIndirect then Attached(g, [], false, SendFailed)
      else AttachIndirect(env, g, pages, false)
    else if pages > 0 then
      match Claim(g, pages)
      case (g1, None) => Attached(g1, [], false, SendBusy)
      case (g1, Some(refs)) => Attached(g1, refs, false, SendOk)
    else Attached(g, [], false, SendOk)
  }

  // The page of packet descriptors, then the data.
  function AttachPackets(g: Grants, pages: nat): Attached {
    match Claim(g, 1)
    case (g1, None) => Attached(g1, [], true, SendBusy)
    case (g1, Some(packetRef)) =>
      match Claim(g1, pages)
      case (g2, None) => Attached(g2, packetRef, true, SendBusy)
      case (g2, Some(refs)) => Attached(g2, packetRef + refs, true, SendOk)
  }

  function AttachSegments(env: Env, g: Grants, pages: nat): Attached {
    if pages == 0 then Attached(g, [], true, SendFailed)
    else if pages > env.maxIsoSegments then
      if pages + 1 > env.maxIndirect then Attached(g, [], true, SendFailed)
      else AttachIndirect(env, g, pages + 1, true)
    else AttachPackets(g, pages)
  }

  function AttachIsochronous(env: Env, g: Grants, urb: Urb): Attached {
    if env.memory then AttachSegments(env, g, SpanPages(urb.addr, urb.length)) else Attached(g, [], false, SendFailed)
  }

  function Attach(env: Env, g: Grants, urb: Urb): Attached {
    if urb.pipe.Isochronous? then AttachIsochronous(env, g, urb) else AttachData(env, g, urb)
  }

  // ---- sending a request --------------------------------------------------

  // The slot is filled and its request goes on the ring.
  function Launch(v: Vdev, s: Slots, i: nat, x: Shadow): Vdev
    requires i < |s.shadows|
  {
    v.(slots := s.(shadows := s.shadows[i := x]), ring := v.ring.(reqs := v.ring.reqs + [x.id]))
  }

  // The filled slot i is launched, or given back if its data could not be attached.
  function Conclude(v: Vdev, i: nat, attached: bool): Vdev
    requires i < |v.slots.shadows|
  {
    if attached then Launch(v, v.slots, i, v.slots.shadows[i].(kind := UrbRequest))
    else v.(slots := PutShadow(v.slots, i))
  }

  // Slot i has just been taken for h.
  function Submit(v: Vdev, h: Ticket, i: nat, a: Attached): Vdev
    requires h in v.urbps && i < |v.slots.shadows|
  {
    var x := v.slots.shadows[i].(urbp := Some(h), grefs := a.refs, iso := a.iso || v.slots.shadows[i].iso);
    var v1 := v.(slots := v.slots.(shadows := v.slots.shadows[i := x], grants := a.grants),
                 urbps := v.urbps[h := v.urbps[h].(id := Some(x.id))]);
    Conclude(v1, i, a.result.SendOk?)
  }

  function PutUrb(v: Vdev, h: Ticket): (Vdev, SendResult)
    requires h in v.urbps
  {
    if |v.slots.free| <= 1 then (v, SendAgain)
    else
      match GetShadow(v.slots)
      case (s, None) => (Bug(v.(slots := s)), SendFailed)
      case (s, Some(i)) =>
        var a := Attach(v.env, s.grants, v.urbps[h].urb);
        (Submit(v.(slots := s), h, i, a), a.result)
  }

  function PutInternal(v: Vdev, kind: RequestKind): (Vdev, bool)
  {
    if v.slots.free == [] then (v, false)
    else
      match GetShadow(v.slots)
      case (s, None) => (Bug(v.(slots := s)), false)
      case (s, Some(i)) =>
        (Launch(v, s, i, s.shadows[i].(urbp := None, directData := kind.CancelRequest?, kind := kind)), true)
  }

  function QueueRelease(v: Vdev, h: Ticket): Vdev {
    v.(lists := Lists(Without(v.lists.pending, h), Without(v.lists.finish, h), v.lists.release + [h]),
       flags := v.flags.(workQueued := true))
  }

  function RecordResult(v: Vdev, h: Ticket, r: SendResult): Vdev {
    match r
    case SendOk => SetState(v, h, Sent)
    case SendAgain => v.(flags := v.flags.(workQueued := true))
    case SendBusy => v.(flags := v.flags.(armed := true))
    case SendFailed => SetState(v, h, Drop)
  }

  function Send(v: Vdev, h: Ticket): Vdev
    requires h in v.urbps
  {
    var (v1, r) := PutUrb(v, h);
    RecordResult(v1, h, r)
  }

  function Dispatch(v: Vdev, h: Ticket): Vdev
    requires h in v.urbps
  {
    var urb := v.urbps[h].urb;
    if !v.urbps[h].state.New? then v
    else if urb.pipe.Unknown? then SetState(v, h, Drop)
    else if urb.pipe.Control? && urb.setAddress then SetState(v, h, Done)
    else Send(v, h)
  }

  function Retire(v: Vdev, h: Ticket): Vdev {
    if StateOf(v, h).Done? || StateOf(v, h).Drop? then QueueRelease(v, h) else v
  }

  function SendUrb(v: Vdev, h: Ticket): Vdev
    requires h in v.urbps
  {
    Retire(Dispatch(v, h), h)
  }

  // ---- completion -----------------------------------------------------------

  function FinishUrb(v: Vdev, h: Ticket): Vdev
    requires h in v.urbps && v.urbps[h].rspId < |v.slots.shadows|
  {
    var v0 := if v.urbps[h].urb.pipe.Isochronous? && !v.urbps[h].iso then Bug(v) else v;
    QueueRelease(SetState(v0.(slots := PutShadow(v.slots, v.urbps[h].rspId)), h, Done), h)
  }

  function PopResponse(v: Vdev): Vdev
    requires v.ring.rsps != []
  {
    v.(ring := v.ring.(rsps := v.ring.rsps[1..]))
  }

  // The urbp of slot i gets the response and waits on the finish list.
  function CompleteUrb(v: Vdev, i: nat, h: Ticket): Vdev
    requires i < |v.slots.shadows| && h in v.urbps
  {
    var x := v.slots.shadows[i];
    v.(urbps := v.urbps[h := v.urbps[h].(rspId := i, iso := x.iso)],
       slots := v.slots.(shadows := v.slots.shadows[i := x.(iso := false)]),
       lists := v.lists.(pending := Without(v.lists.pending, h), finish := v.lists.finish + [h]))
  }

  // An internal request is over when it is answered.
  function RetireInternal(v: Vdev, i: nat): Vdev
    requires i < |v.slots.shadows|
  {
    var kind := v.slots.shadows[i].kind;
    v.(slots := PutShadow(v.slots, i),
       flags := v.flags.(speedKnown := v.flags.speedKnown || kind.SpeedRequest?,
                         resetDone := v.flags.resetDone || kind.ResetRequest?))
  }

  function ConsumeResponse(v: Vdev): Vdev
    requires v.ring.rsps != [] && v.ring.rsps[0] < |v.slots.shadows|
  {
    var i := v.ring.rsps[0];
    var x := v.slots.shadows[i];
    var v0 := PopResponse(v);
    if !x.inUse then Bug(v0)
    else if !x.kind.UrbRequest? then RetireInternal(v0, i)
    else if x.urbp.None? || x.urbp.value !in v.urbps then Bug(v0)  // a null or stale pointer
    else CompleteUrb(v0, i, x.urbp.value)
  }

  // ---- the lock sections ------------------------------------------------------

  // An index outside the shadow array, or a pointer to no urbp, counts as a BUG.
  function FinishEach(v: Vdev, hs: seq<Ticket>): Vdev
    decreases |hs|
  {
    if hs == [] then v
    else if hs[0] in v.urbps && v.urbps[hs[0]].rspId < |v.slots.shadows| then
      FinishEach(FinishUrb(v, hs[0]), hs[1..])
    else FinishEach(Bug(v), hs[1..])
  }

  function SendEach(v: Vdev, hs: seq<Ticket>): Vdev
    decreases |hs|
  {
    if hs == [] then v
    else if hs[0] in v.urbps then SendEach(SendUrb(v, hs[0]), hs[1..])
    else SendEach(Bug(v), hs[1..])
  }

  function Append(v: Vdev, arrival: Option<Ticket>): Vdev {
    if arrival.None? then v
    else v.(lists := v.lists.(pending := v.lists.pending + [arrival.value]))
  }

  // vusb_process: the new state and the urbps to give back outside the lock.
  function ProcessSection(v: Vdev, arrival: Option<Ticket>): (Vdev, seq<Ticket>) {
    var v1 := Append(FinishEach(v, v.lists.finish), arrival);
    var v2 := SendEach(v1, v1.lists.pending);
    (v2.(lists := v2.lists.(release := [])), v2.lists.release)
  }

  function ConsumeEach(v: Vdev): Vdev
    decreases |v.ring.rsps|
  {
    if v.ring.rsps == [] then v
    else if v.ring.rsps[0] < |v.slots.shadows| then ConsumeEach(ConsumeResponse(v))
    else Bug(v)
  }

  function InterruptSection(v: Vdev, processing: bool): Vdev {
    if !processing && !v.flags.rflush then v
    else
      var v1 := ConsumeEach(v);
      v1.(flags := v1.flags.(rflush := false, workQueued := v1.flags.workQueued || processing))
  }

  // The rest of vusb_hcd_urb_dequeue

  function DequeueSection(v: Vdev, h: Ticket): Vdev
  {
    if h !in v.lists.pending || h !in v.urbps then v
    else if !v.urbps[h].state.Sent? then QueueRelease(v, h)
    else PutInternal(SetState(v, h, Cancel), CancelRequest(v.urbps[h].id)).0
  }

  // ---- the other side of the ring -------------------------------------------

  function BackendRead(v: Vdev): Vdev
    requires v.ring.reqs != []
  {
    v.(ring := v.ring.(held := v.ring.held + multiset{v.ring.reqs[0]}, reqs := v.ring.reqs[1..]))
  }

  function BackendAnswer(v: Vdev, id: nat): Vdev
    requires id in v.ring.held
  {
    v.(ring := v.ring.(held := v.ring.held - multiset{id}, rsps := v.ring.rsps + [id]))
  }
}
