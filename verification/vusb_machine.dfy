/** A port of the root hub with its device, and every thread that may be inside it.

    A step is one section that runs under the HCD or the device lock, one
    giveback outside the locks, one action of the backend, or one stage of the
    teardown. A step that is not enabled changes nothing, so the runs are all
    the sequences of steps.
*/
module VusbMachine {
  import opened VusbDevice

  datatype Thread =
    | Submitting(urbp: Ticket)       // enqueue, before vusb_process
    | Cancelling(target: Ticket)     // dequeue, before the device lock
    | Working                        // before vusb_process with no new urbp
    | GivingBack(out: seq<Ticket>)   // vusb_process, after the lock
    | InHandler(processing: bool)    // the interrupt handler, before the device lock
    | Resetting                      // the port work, before the reset is sent
    | AwaitingReset
    | Leaving                        // before vusb_stop_processing
    | Gone

  datatype Teardown =
    | Alive
    | Closing        // closing is set
    | Flushing       // rflush is set; waiting for the port work
    | FlushingWork   // the port work has been flushed; waiting for the device work
    | Draining       // the device work has been flushed; waiting for the ring
    | Drained        // the ring has been seen empty
    | Quiet          // processing has been seen zero
    | Finished       // the finish list has been completed
    | Freed          // ring, handler and shadows are gone
    | Returned       // the port has been reset

  // The port work and its gate, the threads that run work items, and the wait for them.
  datatype WorkItems = WorkItems(
    portQueued: bool,
    resetPending: bool,        // lets one reset at a time through
    workers: set<nat>,         // the threads that run the device work
    portWorkers: set<nat>,     // the threads that run the port work
    barrier: bool              // the item that was queued when a flush began has not been taken
  )

  datatype State = State(
    v: Vdev,
    running: bool,             // hcd_state
    present: bool,
    closing: bool,
    processing: int,
    threads: seq<Thread>,
    work: WorkItems,
    accepted: nat,             // tickets handed out
    givenBack: seq<Ticket>,
    unlinked: set<Ticket>,     // tickets whose URB the core has unlinked
    teardown: Teardown
  )

  datatype Step =
    | Start
    | SpeedQuery
    | SetHcd(running: bool)
    | Enqueue(urb: Urb, linked: bool)
    | Dequeue(target: Ticket)
    | GrantsFree      // the grant callback fires
    | Work            // a worker takes the device work
    | HubReset        // the hub asks for a port reset
    | PortWork        // a worker takes the port work
    | Irq
    | Advance(thread: nat)
    | Read
    | Answer(id: nat)
    | Allocations(memory: bool, indirect: bool)
    | Pool(pool: seq<Gref>)
    | Destroy
    | TeardownNext

  predicate MayStart(s: State) {
    s.running && s.present && !s.closing
  }

  function Spawn(s: State, t: Thread): State {
    s.(processing := s.processing + 1, threads := s.threads + [t])
  }

  // A worker takes the device work off its queue; a port that closes refuses it.
  function TakeWork(s: State): State {
    s.(v := s.v.(flags := s.v.flags.(workQueued := false)),
       work := s.work.(barrier := s.work.barrier && !s.teardown.FlushingWork?))
  }

  function WorkStep(s: State): State {
    if !s.v.flags.workQueued then s
    else if !MayStart(s) then TakeWork(s)
    else Spawn(TakeWork(s), Working).(work := s.work.(workers := s.work.workers + {|s.threads|}))
  }

  function TakePortWork(s: State): State {
    s.(work := s.work.(portQueued := false, barrier := s.work.barrier && !s.teardown.Flushing?))
  }

  function PortWorkStep(s: State): State {
    if !s.work.portQueued then s
    else if !MayStart(s) then TakePortWork(s)
    else
      Spawn(s, Resetting).(work := s.work.(portQueued := false, portWorkers := s.work.portWorkers + {|s.threads|}))
  }

  // The gate is passed, and the port work is queued.
  function HubResetStep(s: State): State {
    if s.work.resetPending then s else s.(work := s.work.(resetPending := true, portQueued := true))
  }

  function GrantsFreeStep(s: State): State {
    if s.v.flags.armed then s.(v := s.v.(flags := s.v.flags.(armed := false, workQueued := true))) else s
  }

  function SetThread(s: State, t: nat, pc: Thread): State
    requires t < |s.threads|
  {
    s.(threads := s.threads[t := pc])
  }

  function StopProcessing(s: State, t: nat): State
    requires t < |s.threads|
  {
    SetThread(s, t, Gone).(processing := s.processing - 1)
  }

  function GiveBack(s: State, h: Ticket): State {
    s.(v := s.v.(urbps := s.v.urbps - {h}), givenBack := s.givenBack + [h])
  }

  // A urb whose endpoint link fails, or that finds the port closed, is refused.
  function EnqueueStep(s: State, urb: Urb, linked: bool): State {
    if !MayStart(s) || !linked then s
    else
      var h := s.accepted;
      Spawn(s.(accepted := h + 1, v := s.v.(urbps := s.v.urbps[h := Urbp(urb, New, None, 0, false)])), Submitting(h))
  }

  // The core lets a URB be unlinked once, and only while it is linked.
  function DequeueStep(s: State, h: Ticket): State {
    if h in s.unlinked || h >= s.accepted || h in s.givenBack then s
    else
      var s1 := s.(unlinked := s.unlinked + {h});
      if MayStart(s1) then Spawn(s1, Cancelling(h)) else s1
  }

  function IrqStep(s: State): State {
    if s.teardown.Freed? || s.teardown.Returned? then s
    else if MayStart(s) then Spawn(s, InHandler(true))
    else s.(threads := s.threads + [InHandler(false)])
  }

  function ProcessStep(s: State, t: nat, arrival: Option<Ticket>): State
    requires t < |s.threads|
  {
    var (w, out) := ProcessSection(s.v, arrival);
    SetThread(s, t, GivingBack(out)).(v := w)
  }

  function ResetStep(s: State, t: nat): State
    requires t < |s.threads|
  {
    var (w, sent) := PutInternal(s.v, ResetRequest);
    SetThread(s, t, if sent then AwaitingReset else Leaving).(v := w)
  }

  function AdvanceThread(s: State, t: nat): State {
    if t >= |s.threads| then s
    else
      match s.threads[t]
      case Submitting(h) => ProcessStep(s, t, Some(h))
      case Working => ProcessStep(s, t, None)
      case Cancelling(h) => SetThread(s, t, Working).(v := DequeueSection(s.v, h))
      case GivingBack(out) =>
        if out == [] then StopProcessing(s, t)
        else SetThread(GiveBack(s, out[0]), t, GivingBack(out[1..]))
      case InHandler(processing) =>
        SetThread(s, t, if processing then Leaving else Gone).(v := InterruptSection(s.v, processing))
      case Resetting => ResetStep(s, t)
      case AwaitingReset =>
        if s.v.flags.resetDone then
          SetThread(s, t, Leaving).(v := s.v.(flags := s.v.flags.(resetDone := false)), work := s.work.(resetPending := false))
        else s
      case Leaving => StopProcessing(s, t)
      case Gone => s
  }

  predicate RingEmpty(r: Ring) {
    r.reqs == [] && r.held == multiset{} && r.rsps == []
  }

  predicate HandlerRunning(s: State) {
    exists t :: 0 <= t < |s.threads| && s.threads[t].InHandler?
  }

  predicate SomeRun(s: State, workers: set<nat>) {
    exists t :: t in workers && t < |s.threads| && !s.threads[t].Gone?
  }

  // The teardown waits for work items or for the ring.
  predicate Waiting(s: State) {
    s.teardown.Flushing? || s.teardown.FlushingWork? || s.teardown.Draining?
  }

  function TeardownStep(s: State): State {
    match s.teardown
    case Alive => s
    case Closing =>
      s.(v := s.v.(flags := s.v.flags.(rflush := true, armed := false)), teardown := Flushing,
         work := s.work.(barrier := s.work.portQueued))
    case Flushing =>
      if s.work.barrier || SomeRun(s, s.work.portWorkers) then s
      else s.(teardown := FlushingWork, work := s.work.(barrier := s.v.flags.workQueued))
    case FlushingWork => if s.work.barrier || SomeRun(s, s.work.workers) then s else s.(teardown := Draining)
    case Draining => if RingEmpty(s.v.ring) then s.(teardown := Drained) else s
    case Drained => if s.processing > 0 then s else s.(teardown := Quiet)
    case Quiet => s.(v := FinishEach(s.v, s.v.lists.finish), teardown := Finished)
    case Finished => if HandlerRunning(s) then s else s.(teardown := Freed)
    case Freed =>
      var l := s.v.lists;
      if l.release != [] then
        GiveBack(s.(v := s.v.(lists := l.(release := l.release[1..]))), l.release[0])
      else if l.pending != [] then
        GiveBack(s.(v := s.v.(lists := l.(pending := l.pending[1..]))), l.pending[0])
      else s.(processing := 0, present := false, closing := false, teardown := Returned,
               work := s.work.(resetPending := false))
    case Returned => s
  }

  predicate PoolAllowed(v: Vdev, pool: seq<Gref>) {
    && (forall i, j :: 0 <= i < j < |pool| ==> pool[i] != pool[j])
    && (forall g :: g in pool ==> g !in v.slots.grants.active)
  }

  function Next(s: State, step: Step): State {
    match step
    case Start => if s.teardown.Alive? then s.(present := true) else s
    case SpeedQuery => if s.teardown.Alive? then s.(v := PutInternal(s.v, SpeedRequest).0) else s
    case SetHcd(running) => s.(running := running)
    case Enqueue(urb, linked) => EnqueueStep(s, urb, linked)
    case Dequeue(h) => DequeueStep(s, h)
    case GrantsFree => GrantsFreeStep(s)
    case Work => WorkStep(s)
    case HubReset => HubResetStep(s)
    case PortWork => PortWorkStep(s)
    case Irq => IrqStep(s)
    case Advance(t) => AdvanceThread(s, t)
    case Read => if s.v.ring.reqs == [] then s else s.(v := BackendRead(s.v))
    case Answer(id) => if id in s.v.ring.held then s.(v := BackendAnswer(s.v, id)) else s
    case Allocations(memory, indirect) => s.(v := s.v.(env := s.v.env.(memory := memory, indirect := indirect)))
    case Pool(pool) =>
      if PoolAllowed(s.v, pool) then s.(v := s.v.(slots := s.v.slots.(grants := s.v.slots.grants.(pool := pool)))) else s
    case Destroy => if s.closing || !s.present then s else s.(closing := true, teardown := Closing)
    case TeardownNext => TeardownStep(s)
  }

  function Run(s: State, steps: seq<Step>): State
    decreases |steps|
  {
    if steps == [] then s else Run(Next(s, steps[0]), steps[1..])
  }

  // ---- a device that has just been connected ---------------------------------------

  function FreshShadow(i: nat): Shadow {
    Shadow(i, false, UrbRequest, None, [], false, false)
  }

  function FreshDevice(env: Env, ringSize: nat, pool: seq<Gref>): Vdev {
    Vdev(env,
         Slots(seq(ringSize, i requires 0 <= i < ringSize => FreshShadow(i)), seq(ringSize, i requires 0 <= i < ringSize => i),
               Grants(pool, multiset{})),
         Ring([], multiset{}, []), map[], Lists([], [], []), Flags(false, false, false, false, false, false))
  }

  function Init(env: Env, ringSize: nat, pool: seq<Gref>): State {
    State(FreshDevice(env, ringSize, pool), true, false, false, 0, [], WorkItems(false, false, {}, {}, false), 0, [], {}, Alive)
  }
}
