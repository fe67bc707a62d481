# Models of the boot chain and the vUSB front end

A Dafny model of the stateful parts of the repository, with proofs of what they are for.
Code that works on fields, arrays and buffers is modelled by classes and loops; each such
method is proved equal to a function of the old state, and the properties are proved about
those functions. `dafny verify dfyconfig.toml` checks everything.

## What is modelled

**The vUSB request engine** (`vusb_*.dfy`). `VusbDevice` has one function per routine of
the driver: slots on a free stack, the shared ring, the grants, three lists of URBs and
their states. `VusbDriver.Vport` does the same on arrays, a ring addressed modulo its size,
lists that are reassigned, and the counter of threads inside; `Represents` ties it to a
state of the machine. `VusbMachine` interleaves any number of threads, the interrupt
handler, the workers of the port work and the device work, the grant callback, the backend,
and one teardown; a step is one lock section. The invariant
`VusbRuns.PortInv` covers slots, ring, links between urbps and slots, grants, which place
holds each urbp, and the count of threads inside. It is kept by every step, so it holds in
every reachable state; the theorems are read off it. A BUG is a flag that the invariant
says is never raised, so a response with a stale pointer or an index out of range cannot
occur. Assumed: the backend answers each request once and with its own id, the USB core
unlinks a URB at most once, and the internal request types are above the URB types.
Constants of the Xen interface header are parameters; that header is not part of this
model.

`VusbOrder` says in which order the lists are worked on: a section puts requests on the ring,
gives back and keeps pending in the order of the pending list with the arriving urbp at its
back, and the handler moves answered urbps to the finish list in the order of the answers.
`VusbOrderRuns` carries this over whole runs: no urbp that waits is passed by another on its
list. On the ring one may be: when grant references are short a later URB that needs fewer is
sent first (`PassedForGrants` says that only then, `PassedOver` is a run). `VusbRequests` says
what the backend is asked: a cancel names the slot that carries the urbp, and neither a
SET_ADDRESS nor a URB of another pipe is ever in flight. `VusbWakeups` says that no wake-up is
lost while the port is open: whatever waits for a section has one coming.

The teardown is meant to give back every URB and to return a port that nothing refers to,
and the code does not always do so. It sets `rflush`, flushes the port work and the device
work, waits for the ring to drain, waits for the threads inside to leave, completes the
finish list and frees the slots. Three things go wrong.

- The handler clears `rflush` the first time it runs, whether or not the ring has drained,
  and nothing sets it again; an answer that comes later is refused, and the teardown never
  ends. `QuiescedExact` says that a teardown that starts with nobody inside can, whatever
  happens meanwhile, still return the port with every urbp given back once, if and only if
  the backend has answered every request before it starts; `OneAnswerPerInterruptHangs` and
  `QuiescedTeardownCanHang` are runs that hang. `FlushExact` gives the condition for the
  waits of any teardown, whoever is inside and whatever work items run.
- A thread that was already inside may load the ring again after it was seen empty.
  `VusbReturn.TeardownExact` says that, when the threads have left, every urbp comes back
  if and only if no late answer is possible, and `LateAnswerReachable` is a run where one is.
- Completing the finish list queues the device work, which was flushed before, and the port
  is then returned and the device zeroed with its work still queued. `QuiescedReferences`
  says that this can happen to a teardown that starts with nobody inside if and only if a
  urbp is left to complete when it starts; `QuietReferences` gives the condition once the
  threads have left, the grant callback included. `ReturnedWithWorkQueued` is a run from a
  fresh device that gives its one URB back and still ends so, and `CanReturnClean` shows
  that a worker in time avoids it. "Returned" below says nothing about what is queued.

Freeing the slots ends no grant: `GrantsLeftBehind` says which references stay active for
good, and `NoGrantLeft` that there are none when the ring was seen empty with nobody inside.

**The Multiboot structures** (`mb2_*.dfy`, `mb1_modules.dfy`). A tag list is bytes, and
`Mb2Tags.Tags` decodes it. `Mb2Loader.Loader` edits the byte buffer with the loops of the
source, and each edit is proved to be an operation on the sequence of tags. The buffer has
a spare byte because both copying loops take one byte more than the tags. Strings are read
up to their NUL, which a module or command line tag must have. Removing by a start that no
module has removes the last module, as the code does.

**The TPM event log** (`tpm_*.dfy`, layouts of sections 9.2.2 and 9.4.5.1 of the TCG PC
Client Platform Firmware Profile 1.04). Records have an encoder, and the parser is proved
to be its inverse in both directions. The hash is any function per algorithm; a callback
may refuse any call by any rule on the calls before it, and an absent callback refuses
nothing. An unknown algorithm has digest size 0 and is skipped, as in the code; SM3 has a
size but cannot be extended, so a log with SM3 digests is refused. `TpmBodies` says what the
checks of event data accept, against an encoder of UEFI variable data; the sum of its lengths
wraps at 64 bits, as in the code, and `CheckRightExactly` says when the check is right.

**SHA-1** (`sha1_*.dfy`, `sha1sum.dfy`). The specification is sections 4.1.1, 5.1.1,
5.3.1 and 6.1.2 of FIPS 180-4, tied by `AbcDigest` to a published digest; the implementation keeps the sixteen-word schedule of
section 6.1.3. The block counter has 32 bits, so the encoded length is right exactly below
2 to the 38 bytes, and the digest is stated for those messages.

**CPU topology** (`cpu_*.dfy`). Masks are sets and counts are cardinalities. `MasksRight`
says that every mask is the match relation on the CPUs set up. The constructor establishes it
and adding, removing and identifying a CPU keep it, so it holds after any sequence of them,
whatever the CPUs report. `CountsRight` says that every count is the number of distinct
sibling groups in the package; it is kept as well as long as being siblings is transitive on
the CPUs set up, and nothing else has to be asked of them. With the extended topology the
relation itself does not guarantee it (`SharedUnitNotTransitive`). `CpuReports` states masks
and counts on what the CPUs report: which numbers two CPUs that share a mask agree in, and how
many distinct combinations of numbers a count counts.

**Page tables, the SLR table and PCR selections** (`mle_pagetable.dfy`, `slr_table.dfy`,
`pcr_selection.dfy`). Addresses are 32 bits wide and the page address wraps. The do-while
loop maps one page even for size 0. The size check of the SLR table adds in 32 bits; it is
right exactly when the sum does not wrap, which the buffer length bound of the class
guarantees. A bank whose hash is 0 counts as removed.

## Model

Specification functions without a contract of their own are named in the statements below;
the row is that of the method or lemma about them.

| member | source | states |
|---|---|---|
| `VusbDriver.Vport.constructor` | openxt/vusb_unload/xc-vusb.c:2283-2351 | a fresh ring and free stack: the state is that of `FreshDevice`, every slot free and in order |
| `VusbDriver.Vport.GetShadow` | openxt/vusb_unload/xc-vusb.c:1010-1032 | the slot on top of the stack is taken and marked in use; an empty stack, or a top slot already in use, gives none |
| `VusbDriver.Vport.PutShadow` | openxt/vusb_unload/xc-vusb.c:1035-1096 | the slot goes back on the stack and its recorded grants are ended, unless it carried direct data; a slot not in use is left alone |
| `VusbDriver.Vport.AllocateGrefs` | openxt/vusb_unload/xc-vusb.c:1109-1154 | all pages are granted and recorded in order, or none is when the pool is too small; no other slot changes |
| `VusbDriver.Vport.AttachIndirect` | openxt/vusb_unload/xc-vusb.c:1157-1248 | only the descriptor pages of an indirect request are granted and recorded; failure ends them again |
| `VusbDriver.Vport.AttachData` | openxt/vusb_unload/xc-vusb.c:1355-1415 | the branches of a normal send by page count, and exactly the grants each one records |
| `VusbDriver.Vport.AttachPackets` | openxt/vusb_unload/xc-vusb.c:1526-1551 | the page of packet descriptors first, then the data pages; what was granted stays recorded when the second fails |
| `VusbDriver.Vport.AttachIsochronous` | openxt/vusb_unload/xc-vusb.c:1440-1551 | the branches of an isochronous send by memory, page count and limits |
| `VusbDriver.Vport.PutRing` | openxt/vusb_unload/xc-vusb.c:1267-1278 | the request is written at the ring index modulo its size; no entry the backend has yet to read or the driver has yet to consume is overwritten |
| `VusbDriver.WindowFrame` | openxt/vusb_unload/xc-vusb.c:1267-1278 | writing one ring entry leaves every window of the ring that does not reach it alone |
| `VusbDriver.WindowPush` | openxt/vusb_unload/xc-vusb.c:1267-1278 | writing behind a window of the ring extends it by that entry |
| `VusbDriver.Vport.RoomForSlot` | openxt/vusb_unload/xc-vusb.c:1288-1293 | a held slot always implies room on the ring |
| `VusbDriver.Vport.Submit` | openxt/vusb_unload/xc-vusb.c:1349-1437 | a taken slot is filled and launched, or given back with all its grants ended |
| `VusbDriver.Vport.PutUrb` | openxt/vusb_unload/xc-vusb.c:1330-1437 | the whole new state of a URB send; with one free slot or none it changes nothing and asks to be called again |
| `VusbDriver.Vport.PutInternalRequest` | openxt/vusb_unload/xc-vusb.c:1281-1327 | the whole new state of an internal request, which may take the last slot |
| `VusbDriver.Vport.QueueRelease` | openxt/vusb_unload/xc-vusb.c:1617-1626 | a urbp on one of the two other lists moves to the release list: it is on exactly as many lists as before, and no other urbp moves |
| `VusbDriver.Vport.Send` | openxt/vusb_unload/xc-vusb.c:1852-1870 | the state recorded for each outcome of a send |
| `VusbDriver.Vport.Dispatch` | openxt/vusb_unload/xc-vusb.c:1873-1941 | which new URBs are sent, completed at once (set address) or dropped |
| `VusbDriver.Vport.SendUrb` | openxt/vusb_unload/xc-vusb.c:1906-1941 | the whole effect of sending one urbp: a done or dropped one is released |
| `VusbDriver.Vport.UrbFinish` | openxt/vusb_unload/xc-vusb.c:1817-1849 | slot given back, urbp done and queued for release |
| `VusbDriver.Vport.Process` | openxt/vusb_unload/xc-vusb.c:2060-2097 | finish list, arrival and pending list in that order; what is given back is the whole release list |
| `VusbDriver.Vport.ConsumeResponse` | openxt/vusb_unload/xc-vusb.c:2143-2182 | one response: the internal request is retired, or its urbp moves to the finish list |
| `VusbDriver.Vport.Interrupt` | openxt/vusb_unload/xc-vusb.c:2115-2209 | every response is consumed, unless no processing was started and no flush is wanted |
| `VusbDriver.Vport.Dequeue` | openxt/vusb_unload/xc-vusb.c:672-777 | a pending urbp not yet sent is released; a sent one is marked and a cancel request goes out |
| `VusbDriver.Vport.StartProcessing` | openxt/vusb_unload/xc-vusb.c:1947-1972 | the port becomes the one of the machine with that thread let in, exactly when it is running, present and not closing; the counter is then the number of threads inside |
| `VusbDriver.Vport.StopProcessing` | openxt/vusb_unload/xc-vusb.c:1975-1983 | the port becomes the one of the machine with that thread gone; the counter stays the number of threads inside and never goes below zero |
| `VusbInvariants.SlotConservation` | openxt/vusb_unload/xc-vusb.c:1010-1096 | free stack, requests, requests held by the backend, responses and finish list together are the pool |
| `VusbInvariants.PutUrbEffect` | openxt/vusb_unload/xc-vusb.c:1330-1437 | a send does nothing, launches one slot for the urbp, or takes one and gives it back; the grant accounts stay balanced |
| `VusbSlots.AttachConserves` | openxt/vusb_unload/xc-vusb.c:1109-1154 | whatever branch an attachment takes, what left the pool is active and recorded |
| `VusbKeeps.SendKeeps` | openxt/vusb_unload/xc-vusb.c:1852-1870 | a send keeps the invariant of slots, links and grants |
| `VusbKeeps.DispatchKeeps` | openxt/vusb_unload/xc-vusb.c:1873-1941 | so does each branch of the dispatch |
| `VusbKeeps.QueueReleaseKeeps` | openxt/vusb_unload/xc-vusb.c:1617-1626 | so does a release, which removes the urbp from the pending list only |
| `VusbKeeps.SendUrbKeeps` | openxt/vusb_unload/xc-vusb.c:1906-1941 | the pending list loses the urbp exactly when it is released |
| `VusbCompletion.PutShadowPushes` | openxt/vusb_unload/xc-vusb.c:1035-1096 | giving back a slot in use pushes exactly that slot |
| `VusbCompletion.FinishUrbKeeps` | openxt/vusb_unload/xc-vusb.c:1817-1849 | completing a urbp keeps the invariant; no BUG fires |
| `VusbCompletion.ResponseIsLinked` | openxt/vusb_unload/xc-vusb.c:2143-2182 | a response names a slot in use, and a URB slot names a sent pending urbp; the stale-pointer and out-of-range cases cannot occur |
| `VusbCompletion.ConsumeKeeps` | openxt/vusb_unload/xc-vusb.c:2143-2182 | consuming a response keeps the invariant |
| `VusbCompletion.PutInternalKeeps` | openxt/vusb_unload/xc-vusb.c:1281-1327 | so does an internal request |
| `VusbCompletion.DequeueKeeps` | openxt/vusb_unload/xc-vusb.c:672-777 | so does a cancel |
| `VusbCompletion.BackendReadKeeps` | openxt/vusb_unload/xc-vusb.c:2143-2160 | so does the backend reading a request |
| `VusbCompletion.BackendAnswerKeeps` | openxt/vusb_unload/xc-vusb.c:2143-2160 | so does the backend answering one it holds |
| `VusbSections.FinishEachKeeps` | openxt/vusb_unload/xc-vusb.c:2074-2076 | completing the finish list empties it, loses no urbp and touches no pending one |
| `VusbSections.SendNeverCancels` | openxt/vusb_unload/xc-vusb.c:1906-1941 | sending never puts a urbp in the cancelled state |
| `VusbSections.SendEachKeeps` | openxt/vusb_unload/xc-vusb.c:2082-2086 | after the pending loop every pending urbp is new, sent or cancelled |
| `VusbSections.ProcessKeeps` | openxt/vusb_unload/xc-vusb.c:2060-2097 | what is given back and what is kept are together what was there and what arrived |
| `VusbSections.InterruptKeeps` | openxt/vusb_unload/xc-vusb.c:2115-2209 | the handler loses no urbp, and empties the response queue exactly when it may |
| `VusbSections.FreeKeeps` | openxt/vusb_unload/xc-vusb.c:1595-1614 | forgetting a urbp that is on no list keeps the invariant |
| `VusbOrder.SelectKeepsOrder` | openxt/vusb_unload/xc-vusb.c:2078-2086 | what is selected from a list keeps its order: of two that remain the earlier was earlier |
| `VusbOrder.SendUrbPuts` | openxt/vusb_unload/xc-vusb.c:1906-1941 | a urbp that becomes sent puts one request on the ring, in a slot that carries it; any other puts none; no slot in use changes |
| `VusbOrder.SendEachOrder` | openxt/vusb_unload/xc-vusb.c:2082-2086 | the new requests carry, in list order, exactly the urbps that were new and are sent; those that are done or dropped are released in list order |
| `VusbOrder.ProcessOrder` | openxt/vusb_unload/xc-vusb.c:2060-2097 | the list worked on is the pending list with the arriving urbp at its back; requests, give-backs and what stays pending keep its order, and what was to be given back before comes first |
| `VusbOrder.ConsumeEachOrder` | openxt/vusb_unload/xc-vusb.c:2143-2182 | the urbps that are answered join the finish list in the order of the answers; the others stay pending in order |
| `VusbOrder.InterruptOrder` | openxt/vusb_unload/xc-vusb.c:2115-2209 | the same for the handler |
| `VusbOrder.PassedForGrants` | openxt/vusb_unload/xc-vusb.c:1852-1870 | a section sends a urbp past an earlier one that stays new only when grant references were short; the grant callback is then registered |
| `VusbOrder.NothingMoreSent` | openxt/vusb_unload/xc-vusb.c:1339-1344 | with one free slot or none a section sends nothing more, and it cancels no retry |
| `VusbRuns.EnqueueKeeps` | openxt/vusb_unload/xc-vusb.c:605-669 | accepting, or refusing, a URB keeps the invariant of the port |
| `VusbRuns.DequeueKeepsPort` | openxt/vusb_unload/xc-vusb.c:672-777 | so does unlinking one |
| `VusbRuns.ProcessStepKeeps` | openxt/vusb_unload/xc-vusb.c:2060-2097 | so does the process section of any thread |
| `VusbRuns.CancelStepKeeps` | openxt/vusb_unload/xc-vusb.c:720-769 | so does the cancel section |
| `VusbRuns.DequeueBalanced` | openxt/vusb_unload/xc-vusb.c:720-769 | a cancel moves one urbp to the release list or marks it, and touches nothing else |
| `VusbRuns.GiveBackKeeps` | openxt/vusb_unload/xc-vusb.c:2088-2096 | so does giving one urbp back outside the lock |
| `VusbRuns.HandlerStepKeeps` | openxt/vusb_unload/xc-vusb.c:2115-2209 | so does the interrupt handler, also one that entered no processing |
| `VusbRuns.ResetStepKeeps` | openxt/vusb_unload/xc-vusb.c:2005-2040 | so does a port reset |
| `VusbRuns.AdvanceKeeps` | openxt/vusb_unload/xc-vusb.c:1947-2112 | so does every step of every thread |
| `VusbReach.FreedStepKeeps` | openxt/vusb_unload/xc-vusb.c:2588-2603 | so does each give-back at the end of the teardown |
| `VusbReach.QuietStepKeeps` | openxt/vusb_unload/xc-vusb.c:2578-2583 | so does completing the finish list in the teardown |
| `VusbReach.TeardownKeeps` | openxt/vusb_unload/xc-vusb.c:2537-2604 | so does every phase of the teardown |
| `VusbReach.NextKeeps` | openxt/vusb_unload/xc-vusb.c:605-2604 | every step of every thread, the backend and the teardown keeps the invariant |
| `VusbReach.ReachableInv` | openxt/vusb_unload/xc-vusb.c:605-2604 | the invariant holds after any run from a fresh device |
| `VusbOrderRuns.QueueOrder` | openxt/vusb_unload/xc-vusb.c:605-2604 | over any run the urbps that stay pending stay in their order, and what is behind them arrived later |
| `VusbOrderRuns.SectionsSendInOrder` | openxt/vusb_unload/xc-vusb.c:2060-2097 | in every reachable state the next section of a thread puts requests on the ring in the order of the pending list, the urbp it brings at the back |
| `VusbOrderRuns.PassedOver` | openxt/vusb_unload/xc-vusb.c:1852-1870 | a concrete run in which a later URB is sent before an earlier one that waits for grant references |
| `VusbOrderRuns.GiveBackOrder` | openxt/vusb_unload/xc-vusb.c:2088-2096 | whatever other threads do, a thread gives back what it took off the release list in the order of that list |
| `VusbOrderRuns.TeardownGiveBackOrder` | openxt/vusb_unload/xc-vusb.c:2588-2603 | once the slots are freed the release list and then the pending list are given back in order, and nothing else is |
| `VusbRequests.InternalGoesOut` | openxt/vusb_unload/xc-vusb.c:1281-1327 | an internal request puts exactly one request on the ring, of the kind asked for, without urbp and grants; with no free slot it does nothing |
| `VusbRequests.CancelGoesOut` | openxt/vusb_unload/xc-vusb.c:756-757 | cancelling a urbp the backend has asks it, when a slot is free, to cancel the request of the slot that carries the urbp |
| `VusbRequests.CancelAsksBackend` | openxt/vusb_unload/xc-vusb.c:720-769 | the same for the step of any cancelling thread in any reachable state, with the two other cases: a waiting urbp is released and work is queued, and one that is not pending is left alone |
| `VusbRequests.ResetAsksBackend` | openxt/vusb_unload/xc-vusb.c:2005-2040 | a worker that resets the port asks the backend and waits, or leaves when no slot is free; a speed query goes out the same way |
| `VusbRequests.AnswerTells` | openxt/vusb_unload/xc-vusb.c:2143-2182 | the answer to a reset says that it is done, that to a speed query that the speed is known, and no other answer says so |
| `VusbRequests.BackendSees` | openxt/vusb_unload/xc-vusb.c:1873-1903 | over every run no request in flight carries a URB of an unknown pipe or a SET_ADDRESS |
| `VusbRequests.EveryOneTried` | openxt/vusb_unload/xc-vusb.c:1873-1941 | what a section makes of every new urbp: unknown pipes are dropped and SET_ADDRESS is done, and both are given back; one that stays new has another section due |
| `VusbWakeups.SectionLeavesWoken` | openxt/vusb_unload/xc-vusb.c:2060-2097 | after a section whatever is still new has a retry queued or registered |
| `VusbWakeups.NextWakes` | openxt/vusb_unload/xc-vusb.c:1617-1626 | no step of an open port loses a wake-up |
| `VusbWakeups.NoLostWakeUp` | openxt/vusb_unload/xc-vusb.c:605-2209 | over every run of an open port: while a urbp waits to be sent, work is queued, or the grant callback will queue it, or a thread is about to run a section; while one waits to be given back, work is queued or a thread is about to |
| `VusbTheorems.SlotBalance` | openxt/vusb_unload/xc-vusb.c:1010-1096 | slots in use number the ring load plus the finish list; the stack is duplicate free and holds exactly the slots not in use; a free slot implies room on the ring |
| `VusbTheorems.UrbLeavesOneSlot` | openxt/vusb_unload/xc-vusb.c:1339-1344 | a URB send never takes the last slot, and is refused exactly when at most one is free |
| `VusbTheorems.SentMatchesRing` | openxt/vusb_unload/xc-vusb.c:1852-1941 | pending urbps in state sent or cancelled and URB slots in flight correspond one to one by id |
| `VusbTheorems.OnePlacePerUrbp` | openxt/vusb_unload/xc-vusb.c:605-2604 | over every run each accepted urbp is in exactly one place: a list, a thread, or given back once |
| `VusbTheorems.ClosingOnlyFalls` | openxt/vusb_unload/xc-vusb.c:2548-2603 | once a port closes, processing never rises until the port is returned |
| `VusbTheorems.NobodyInsideAfterWait` | openxt/vusb_unload/xc-vusb.c:1986-2002 | in every reachable state processing is the number of threads between start and stop; after the wait nobody is inside and no thread holds a urbp, and once the slots are freed no handler runs either, let in or not |
| `VusbTeardown.SafeStep` | openxt/vusb_unload/xc-vusb.c:2548-2603 | safe teardown states stay safe under every step |
| `VusbTeardown.SafeGivesAllBack` | openxt/vusb_unload/xc-vusb.c:2571-2603 | whenever the port is returned on a run from a safe state, every accepted urbp has been given back exactly once |
| `VusbTeardown.QuiescedDestroyIsSafe` | openxt/vusb_unload/xc-vusb.c:2548-2572 | a teardown that starts with no thread inside is safe: it cannot lose a urbp by returning, though it can hang |
| `VusbTeardown.LateAnswerLosesUrbp` | openxt/vusb_unload/xc-vusb.c:2571-2603 | with a URB in flight and the flush not yet done when the wait ends, some continuation never gives a urbp back |
| `VusbTeardown.LateAnswerReachable` | openxt/vusb_unload/xc-vusb.c:2548-2603 | a concrete run that reaches the losing state |
| `VusbWork.WorkKeeps` | openxt/vusb_unload/xc-vusb.c:2212-2226 | every step keeps what the flushes rely on: which threads run work items, that the gate lets one reset at a time through, that no worker runs once its flush has ended, and that what a flush waits for is still queued |
| `VusbWork.ReachableWork` | openxt/vusb_unload/xc-vusb.c:605-2604 | both invariants hold after any run from a fresh device |
| `VusbWork.AdvanceQueued` | openxt/vusb_unload/xc-vusb.c:1617-1626 | no step of a thread takes the device work off its queue or unregisters the grant callback; only a worker, the callback and the teardown do |
| `VusbResets.ReachableFull` | openxt/vusb_unload/xc-vusb.c:2005-2040 | after any run a worker that waits for a reset has its request on the ring, or its answer has come |
| `VusbDrain.StuckForever` | openxt/vusb_unload/xc-vusb.c:2134-2198 | once the flush is used up, nobody in the handler may take answers and the ring is not empty, that stays so on every run, and the wait for the ring never ends |
| `VusbSends.ProcessSends` | openxt/vusb_unload/xc-vusb.c:2060-2097 | with the ring empty any section sends a new pending urbp that the references in use would pay for |
| `VusbSends.ProcessSilent` | openxt/vusb_unload/xc-vusb.c:2060-2097 | without one, and with no memory and no reference to spare, a section puts nothing on the ring |
| `VusbFlush.BlockedForever` | openxt/vusb_unload/xc-vusb.c:2212-2233 | a teardown whose waits are blocked stays so on every run |
| `VusbFlush.FlushExact` | openxt/vusb_unload/xc-vusb.c:2212-2233 | exactly when the waits for work items and for the ring can end, whoever is inside: somebody may still take answers; or the ring is empty, no worker has a reset to send with a slot free, and no worker is about to run a section that has to send |
| `VusbReturn.CanReturn` | openxt/vusb_unload/xc-vusb.c:2236-2604 | from the end of the wait for the ring on, some continuation returns the port, whoever is still inside, with no worker taking what is queued |
| `VusbReturn.TeardownExact` | openxt/vusb_unload/xc-vusb.c:2548-2603 | when the threads have left: every continuation can still end with the port returned and every urbp given back once, if and only if no late answer is possible; otherwise some continuation loses a urbp for good |
| `VusbReturn.AcceptedStays` | openxt/vusb_unload/xc-vusb.c:1962-1966 | a port that closes accepts no further URB, on any run |
| `VusbReturn.QuiescedCanComplete` | openxt/vusb_unload/xc-vusb.c:2548-2603 | a teardown that starts with nobody inside has a continuation that returns the port with every urbp given back once |
| `VusbHang.HungForever` | openxt/vusb_unload/xc-vusb.c:2134-2198 | a hung teardown stays hung on every run, gives nothing more back and never returns, whatever the backend answers |
| `VusbHang.OneAnswerPerInterruptHangs` | openxt/vusb_unload/xc-vusb.c:2194-2198 | two requests owed and one answer before the interrupt: the flush is used up and the teardown hangs |
| `VusbHang.QuiescedExact` | openxt/vusb_unload/xc-vusb.c:2194-2233 | exactly when the teardown of a port with nobody inside can always complete: if and only if the backend has answered every request before it starts |
| `VusbHang.QuiescedTeardownCanHang` | openxt/vusb_unload/xc-vusb.c:2194-2233 | a concrete run from a fresh device that hangs with its one urbp never given back |
| `VusbReferences.QuietReferences` | openxt/vusb_unload/xc-vusb.c:2578-2603 | exactly when the port can be returned, and the device zeroed, with its work queued or its grant callback registered, once the threads have left: something already is, the finish list is not empty, or a late answer is possible |
| `VusbReferences.QuiescedReferences` | openxt/vusb_unload/xc-vusb.c:2548-2603 | the same for a teardown that starts with nobody inside: if and only if a urbp is on the finish list or in flight when it starts |
| `VusbReferences.CompletesAndDangles` | openxt/vusb_unload/xc-vusb.c:2578-2603 | then some run gives every urbp back, returns the port, and leaves the device work queued |
| `VusbReferences.ReturnedWithWorkQueued` | openxt/vusb_unload/xc-vusb.c:396-409 | a concrete run from a fresh device that does so with its one URB |
| `VusbReferences.CanReturnClean` | openxt/vusb_unload/xc-vusb.c:2099-2112 | from the end of the wait for the ring on, some continuation returns the port with nothing queued and no callback registered |
| `VusbGrants.SpanPagesCountsPages` | openxt/vusb_unload/xc-vusb.c:1105-1107 | the page count formula is the number of pages a non-empty range touches |
| `VusbGrants.AttachedGrantsCountPages` | openxt/vusb_unload/xc-vusb.c:1404-1415 | a direct request that is sent records exactly as many grants as its data touches pages, and one more when isochronous |
| `VusbGrants.AttachOutcome` | openxt/vusb_unload/xc-vusb.c:1355-1551 | the outcome of attaching the data of a URB by the pages it touches: when it is refused for good, when it must wait, and how many and which references it takes |
| `VusbGrants.DescriptorPages` | openxt/vusb_unload/xc-vusb.c:72-75 | the pages of descriptors are the least number that holds one descriptor for each page |
| `VusbGrants.ActiveGrantsAreRecorded` | openxt/vusb_unload/xc-vusb.c:1035-1154 | over every run a reference is active exactly when one slot in use records it, once, and it is not in the pool |
| `VusbGrants.EngineBalance` | openxt/vusb_unload/xc-vusb.c:1010-1278 | over every run with a live device: slot balance, room for a free slot, and sent urbps and URB slots in flight name each other, one to one |
| `VusbLeaks.GrantsLeftBehind` | openxt/vusb_unload/xc-vusb.c:2261-2264 | once the slots are freed a reference is active, on every continuation, if and only if a slot on the ring or on the finish list recorded it |
| `VusbLeaks.NoGrantLeft` | openxt/vusb_unload/xc-vusb.c:2228-2264 | a teardown that saw the ring empty with nobody inside leaves no grant active |
| `Mb2Tags.ExtentIsStrides` | misc/ap_reloc/loader.c:113-123 | the length of a tag list is the sum of its aligned sizes |
| `Mb2Tags.AtTag` | misc/ap_reloc/loader.c:113-123 | the fields read at the offset of tag k are those of tag k, and the next tag is one aligned size on |
| `Mb2Tags.EncodeDecodes` | misc/ap_reloc/loader.c:113-134 | tags written as type, size, data and zeros up to the next multiple of eight bytes, closed by the end tag, are read back as those tags, whatever follows |
| `Mb2Tags.SameBytes` | misc/ap_reloc/loader.c:281-310 | bytes behind the end tag do not matter |
| `Mb2Tags.RemoveBytes` | misc/ap_reloc/loader.c:281-310 | bytes with tag k cut out decode to the sequence with tag k deleted |
| `Mb2Tags.GrowBytes` | misc/ap_reloc/loader.c:313-356 | bytes with tag k enlarged and the rest moved down decode to the sequence with only that tag changed |
| `Mb2Tags.WriteBytes` | misc/ap_reloc/loader.c:427-435 | writing over the front of one tag's data changes only that data |
| `Mb2Loader.Loader.NextTag` | misc/ap_reloc/loader.c:113-123 | the tag one aligned size on; null after the end tag |
| `Mb2Loader.Loader.FindTagType` | misc/ap_reloc/loader.c:126-134 | the first tag of the type from a given one on, null when there is none |
| `Mb2Loader.Loader.CopyUp` | misc/ap_reloc/loader.c:298-303 | the upward byte loop, inclusive of its last byte |
| `Mb2Loader.Loader.CopyDown` | misc/ap_reloc/loader.c:346-352 | the downward byte loop, inclusive of its last byte |
| `Mb2Loader.Loader.RemoveTag` | misc/ap_reloc/loader.c:281-310 | the tag sequence loses exactly that tag and the length its aligned size; false, with nothing changed, only for the end tag |
| `Mb2Loader.Loader.GrowTag` | misc/ap_reloc/loader.c:313-356 | only the chosen tag grows, its old data in front; every other tag and the order stay, and the length grows by the difference of aligned sizes |
| `Mb2Loader.Loader.GetModuleCount` | misc/ap_reloc/loader.c:807-826 | the number of module tags |
| `Mb2Loader.Loader.GetModule` | misc/ap_reloc/loader.c:137-159 | the address of module i for every i below the count |
| `Mb2Loader.Loader.ChooseModule` | misc/ap_reloc/loader.c:366-376 | the first module, the first with the start given, or the last when none has it |
| `Mb2Loader.Loader.TakeLine` | misc/ap_reloc/loader.c:400-442 | the first module's string goes over the command line when not longer, else to the scratch buffer when it fits |
| `Mb2Loader.Loader.FindModuleTag` | misc/ap_reloc/loader.c:448-471 | the tag whose fields the module pointer points to |
| `Mb2Loader.Loader.GrowLine` | misc/ap_reloc/loader.c:477-505 | the command line tag grows by the difference of the string lengths and then holds the new string and its NUL |
| `Mb2Loader.Loader.RemoveModule` | misc/ap_reloc/loader.c:358-509 | every outcome of a removal on the tag sequence, and the total never gets longer |
| `Mb2Loader.Loader.RemoveTxtModules` | misc/ap_reloc/loader.c:560-583 | module 0 and exactly the modules of the tail that are not SINIT remain, in order; all other tags are untouched |
| `Mb2Modules.NthIs` | misc/ap_reloc/loader.c:137-159 | module number i is one tag only: the module tag with i module tags before it |
| `Mb2Modules.WithoutModules` | misc/ap_reloc/loader.c:358-509 | deleting a module leaves the other modules and everything else in order |
| `Mb2Modules.ChosenIs` | misc/ap_reloc/loader.c:366-376 | with distinct starts the search finds the module with that start |
| `Mb2Modules.ChosenElse` | misc/ap_reloc/loader.c:366-376 | no start means the first module, and a start that no module has means the last |
| `Mb2Modules.ModuleReads` | misc/ap_reloc/loader.c:567-572 | a module tag that starts at start and ends n bytes on, modulo 2 to the 32, is read as that start, that end and its string, and n is the one size the test can be given |
| `Mb2Modules.KeptIsRefused` | misc/ap_reloc/loader.c:567-580 | the modules that stay are those whose start and size, the distance from start to end on 32-bit addresses, the test does not accept |
| `Mb2Modules.NeverLonger` | misc/ap_reloc/loader.c:477-494 | the room a module leaves covers the growth of the command line, for all lengths and alignments |
| `Mb2Modules.FilterNext` | misc/ap_reloc/loader.c:568-580 | one round of the removal loop extends the filtered tail by one module |
| `Mb2Modules.FirstRemovedBy` | misc/ap_reloc/loader.c:400-505 | removing the first module is: that tag deleted and the command line tag holding its string |
| `Mb2Loader.RoomForLine` | misc/ap_reloc/loader.c:477-494 | the longer line fits in the space the removed module leaves |
| `Mb1Modules.Mbi.RemoveModule` | misc/ap_reloc/loader.c:379-395 | the array loses exactly the chosen module; removing the first makes its string the command line |
| `Mb1Modules.Mbi.MoveDown` | misc/ap_reloc/loader.c:389-392 | the records after the removed one move down by one |
| `Mb1Modules.Mbi.RemoveTxtModules` | misc/ap_reloc/loader.c:560-583 | the same result on the module array |
| `Mb1Modules.FilterNext` | misc/ap_reloc/loader.c:568-580 | one round of the loop on the array |
| `Mb1Modules.ChosenIs` | misc/ap_reloc/loader.c:366-376 | with distinct starts the search finds the module with that start |
| `Mb1Modules.ChosenElse` | misc/ap_reloc/loader.c:366-376 | no start means the first module, and a start that no module has means the last |
| `Mb1Modules.TestGetsSize` | misc/ap_reloc/loader.c:567-572 | a module that ends n bytes behind its start is tested with its start and n, also when its end wraps |
| `Mb1Modules.KeptIsRefused` | misc/ap_reloc/loader.c:567-580 | the modules that stay are those whose start and size the test does not accept |
| `TpmRecords.DigestsDecode` | trenchboot/tpm2-eventlog/tpm2_eventlog.c:31-99 | decoding an encoded digest list gives the list and takes exactly its bytes, whatever follows |
| `TpmRecords.DigestsEncode` | trenchboot/tpm2-eventlog/tpm2_eventlog.c:31-99 | an accepted digest list is well formed and encodes to the bytes read |
| `TpmRecords.EventDecode` | trenchboot/tpm2-eventlog/tpm2_eventlog.c:165-202 | the same for a record, which is at least 16 bytes |
| `TpmRecords.EventEncode` | trenchboot/tpm2-eventlog/tpm2_eventlog.c:165-202 | an accepted record is well formed, lies inside the buffer, is at least 16 bytes long and encodes to the bytes read |
| `TpmRecords.SpecIdDecode` | trenchboot/tpm2-eventlog/tpm2_eventlog.c:343-420 | an encoded Specification ID record is accepted and its end found |
| `TpmRecords.SpecIdEncode` | trenchboot/tpm2-eventlog/tpm2_eventlog.c:343-420 | an accepted one is well formed, inside the buffer and encodes to the bytes read |
| `TpmReplay.SetBitSets` | trenchboot/tpm2-eventlog/tpm2_eventlog.c:62-78 | setting a used bit sets that bit and no other |
| `TpmReplay.SecondPass` | trenchboot/tpm2-eventlog/tpm2_eventlog.c:178-189 | the size the scratch pass finds leaves the second digest pass nothing over |
| `TpmReplay.RunsDigests` | trenchboot/tpm2-eventlog/tpm2_eventlog.c:31-99 | the digest loop over bytes is the replay of the digests parsed from them |
| `TpmReplay.RunsEvents` | trenchboot/tpm2-eventlog/tpm2_eventlog.c:284-341 | a log is accepted only when every record parses; it is then the encoding of its records, and the byte loop is their replay |
| `TpmTheorems.DigestsWent` | trenchboot/tpm2-eventlog/tpm2_eventlog.c:31-99 | after the digests of a record each PCR is the fold of extend over its digests |
| `TpmTheorems.EventsWent` | trenchboot/tpm2-eventlog/tpm2_eventlog.c:284-341 | after all records each PCR of each bank is the fold over its digests in log order, with its used bit, and the callbacks were called in log order |
| `TpmTheorems.EventsAccepted` | trenchboot/tpm2-eventlog/tpm2_eventlog.c:284-341 | records are accepted if and only if their data fits and no callback refuses |
| `TpmTheorems.EventsDecode` | trenchboot/tpm2-eventlog/tpm2_eventlog.c:284-341 | the encoding of any well-formed records parses to them |
| `TpmLog.AcceptedIsEncoding` | trenchboot/tpm2-eventlog/tpm2_eventlog.c:422-450 | an accepted crypto-agile log is the encoding of its header and records |
| `TpmLog.EncodingAccepted` | trenchboot/tpm2-eventlog/tpm2_eventlog.c:422-450 | the encoding of a well-formed log is accepted if and only if its data fits and no callback refuses |
| `TpmLog.LogReplayed` | trenchboot/tpm2-eventlog/tpm2_eventlog.c:284-341 | each bank of an accepted log ends as the fold over its digests, for every record after the header whatever its type |
| `TpmLog.LogFromCleared` | trenchboot/tpm2-eventlog/tpm2_eventlog.c:62-79 | from cleared bits the used bits are exactly the PCRs that occur |
| `TpmLog.ShaDecode` | trenchboot/tpm2-eventlog/tpm2_eventlog.c:204-230 | an encoded record of the older format parses back |
| `TpmLog.ShaEncode` | trenchboot/tpm2-eventlog/tpm2_eventlog.c:204-230 | an accepted one encodes to the bytes read |
| `TpmLog.ShaLogReplayed` | trenchboot/tpm2-eventlog/tpm2_eventlog.c:232-282 | an accepted log of the older format is the encoding of its records, and its SHA-1 PCRs are the folds of their digests |
| `TpmLog.ShaEncodingAccepted` | trenchboot/tpm2-eventlog/tpm2_eventlog.c:232-282 | the encoding of well-formed older records, the first not of type EV_NO_ACTION, is accepted if and only if the data fits and no callback refuses, with the calls in log order |
| `TpmBodies.VariableFitsExactly` | trenchboot/tpm2-eventlog/tpm2_eventlog.c:107-127 | the data of a UEFI variable, of any GUID, name and contents, fits for each of its three types, and no shorter prefix of it does |
| `TpmBodies.CheckRightExactly` | trenchboot/tpm2-eventlog/tpm2_eventlog.c:119-120 | the check says whether the lengths fit if and only if their sum does not wrap at 64 bits, or wraps to more than the data |
| `TpmBodies.WrappedNameFits` | trenchboot/tpm2-eventlog/tpm2_eventlog.c:119-120 | a name of 2 to the 63 characters passes the check in no bytes at all |
| `TpmBodies.OtherBodies` | trenchboot/tpm2-eventlog/tpm2_eventlog.c:128-160 | firmware blobs fit from 16 bytes on and loaded images from 32, a cut variable header does not, and all other data fits |
| `TpmBodies.ProperLogAccepted` | trenchboot/tpm2-eventlog/tpm2_eventlog.c:422-450 | a crypto-agile log of well-formed records whose data is laid out as the types say is accepted if and only if no callback refuses |
| `TpmBodies.DigestSizes` | trenchboot/tpm2-eventlog/tpm2_alg_util.c:671-689 | the digest sizes of the five algorithms by number, and none for any other |
| `TpmEventlog.Context.ExtendPcr` | trenchboot/tpm2-eventlog/tpm2_eventlog.c:62-85 | the bank of the algorithm is extended at that PCR and its bit set; only SM3 fails, after its bit was set |
| `TpmEventlog.Context.ForeachDigest2` | trenchboot/tpm2-eventlog/tpm2_eventlog.c:31-99 | the loop has the outcome and the state of `RunDigests`, also when it stops early |
| `TpmEventlog.Context.ForeachEvent2` | trenchboot/tpm2-eventlog/tpm2_eventlog.c:284-341 | the loop has the outcome and the state of `RunEvents`, also when it stops early |
| `TpmEventlog.Context.EventBody` | trenchboot/tpm2-eventlog/tpm2_eventlog.c:326-337 | the body check, then the data callback |
| `TpmEventlog.Context.ForeachShaEvent` | trenchboot/tpm2-eventlog/tpm2_eventlog.c:232-282 | the older record loop; a PCR is extended before the data size is checked |
| `TpmEventlog.Context.ParseEventlog` | trenchboot/tpm2-eventlog/tpm2_eventlog.c:422-450 | the whole parser, in either format |
| `TpmEventlog.ParseEvent2` | trenchboot/tpm2-eventlog/tpm2_eventlog.c:165-202 | succeeds exactly on records and finds the size of the record and of its digests |
| `TpmEventlog.ScratchPass` | trenchboot/tpm2-eventlog/tpm2_eventlog.c:11-23 | the accumulator callback counts exactly the bytes of the digest list |
| `TpmEventlog.FindFirstEvent` | trenchboot/tpm2-eventlog/tpm2_eventlog.c:343-420 | succeeds exactly on leading records and finds the record after them |
| `TpmWriter.Tpm20LogEvent` | trenchboot/debug/tpmwrevt.c:124-174 | the bytes written are the encoding of one record with one digest |
| `TpmWriter.Tpm20Parses` | trenchboot/debug/tpmwrevt.c:124-174 | the record parses back to the same PCR, type, digest and data, with nothing over, if and only if the algorithm is SHA-1, SHA-256 or SHA-512 |
| `TpmWriter.Tpm12LogEvent` | trenchboot/debug/tpmwrevt.c:102-122 | the bytes written are the encoding of one older record |
| `TpmWriter.Tpm12Parses` | trenchboot/debug/tpmwrevt.c:102-122 | the older record parses back, with nothing over |
| `Sha1Sum.F1IsCh` | trenchboot/lz/sha1sum.c:58-193 | the rewritten choice function is Ch of section 4.1.1 of FIPS 180-4 |
| `Sha1Sum.F3IsMaj` | trenchboot/lz/sha1sum.c:58-193 | the rewritten majority function is Maj |
| `Sha1Sum.RollIsRotl` | trenchboot/lz/sha1sum.c:34-40 | the rotation is ROTL |
| `Sha1Sum.CircularStep` | trenchboot/lz/sha1sum.c:58-193 | sixteen words overwritten in a circle hold the last sixteen of the eighty-word schedule |
| `Sha1Sum.M` | trenchboot/lz/sha1sum.c:58-193 | the schedule word is computed and stored in place |
| `Sha1Sum.R` | trenchboot/lz/sha1sum.c:58-193 | one step with rotated register names is one round of section 6.1.2 of FIPS 180-4 |
| `Sha1Sum.Five` | trenchboot/lz/sha1sum.c:58-193 | five steps are five rounds and bring the register names back |
| `Sha1Sum.Sha1Context.Transform` | trenchboot/lz/sha1sum.c:59-193 | the compression function on the full schedule |
| `Sha1Sum.Sha1Context.Flush` | trenchboot/lz/sha1sum.c:200-206 | a full buffer is chained; the message is unchanged |
| `Sha1Sum.Sha1Context.Fill` | trenchboot/lz/sha1sum.c:209-211 | input bytes are buffered until the buffer is full or the input used up |
| `Sha1Sum.Sha1Context.Write` | trenchboot/lz/sha1sum.c:200-226 | the input is appended to the message, whatever is buffered |
| `Sha1Sum.Sha1Context.PadTo` | trenchboot/lz/sha1sum.c:258-266 | 0x80 and zeros are appended |
| `Sha1Sum.Sha1Context.LastBlock` | trenchboot/lz/sha1sum.c:270-279 | the counted length closes the padded message |
| `Sha1Sum.Sha1Context.Final` | trenchboot/lz/sha1sum.c:237-294 | the buffer ends with the hash of the padded message, its length as far as the block counter reaches |
| `Sha1Sum.BitCount` | trenchboot/lz/sha1sum.c:244-256 | the two words are the bit count modulo 2 to the 64, from a block count modulo 2 to the 32 |
| `Sha1Sum.CountedBitsExact` | trenchboot/lz/sha1sum.c:244-256 | the counted length is 8 times the byte count if and only if the message is shorter than 2 to the 38 bytes |
| `Sha1Sum.PadCountedIsPad` | trenchboot/lz/sha1sum.c:237-294 | below that size the padding is that of section 5.1.1 of FIPS 180-4 |
| `Sha1Sum.HashParts` | trenchboot/lz/sha1sum.c:199-307 | any way of splitting a message into writes gives its SHA-1 digest |
| `Sha1Sum.Sha1Sum` | trenchboot/lz/sha1sum.c:296-307 | the digest of one buffer |
| `Sha1Vector.AbcDigest` | trenchboot/lz/sha1sum.c:58-307 | the specification gives the published digest of the three bytes abc |
| `CpuGroups.LeadersCount` | misc/ap_reloc/smpboot.c:560-568 | counting the CPUs that come first in their group counts the groups |
| `CpuGroups.GroupsGrow` | misc/ap_reloc/smpboot.c:551-577 | a CPU alone in its group adds one group to its package, a CPU that joins one adds none |
| `CpuGroups.OtherPackage` | misc/ap_reloc/smpboot.c:551-577 | a CPU of another package changes no count |
| `CpuTopology.Relations` | misc/ap_reloc/smpboot.c:391-468 | siblings are within a package, and being siblings is an equivalence exactly when it is transitive; without the extended topology it always is |
| `CpuTopology.SharedUnitNotTransitive` | misc/ap_reloc/smpboot.c:393-406 | with the extended topology it need not be: three concrete CPUs |
| `CpuReports.SiblingMask` | misc/ap_reloc/smpboot.c:391-413 | two CPUs share a sibling mask if and only if they are one, or, with several threads a core, agree in package, core and node; with the extended topology also in the cache, and a compute unit does for the core |
| `CpuReports.CacheMask` | misc/ap_reloc/smpboot.c:435-456 | two CPUs share a cache mask if and only if they are one, or have the same known cache and node |
| `CpuReports.PackageMask` | misc/ap_reloc/smpboot.c:463-468 | two CPUs share a package mask if and only if they are one, or in the same package |
| `CpuReports.BootedCores` | misc/ap_reloc/smpboot.c:560-577 | without the extended topology the count of a package is the number of distinct pairs of core and node reported in it |
| `CpuReports.BootedCoresExtended` | misc/ap_reloc/smpboot.c:560-577 | with it, and no compute units, the number of distinct triples of cache, core and node |
| `CpuReports.BootedUnits` | misc/ap_reloc/smpboot.c:560-577 | with compute units that are unions of cores, the number of distinct triples of cache, unit and node |
| `CpuReports.BootedAlone` | misc/ap_reloc/smpboot.c:560-577 | with one thread a core, the number of CPUs of the package, or one with one core a package |
| `CpuTopology.MasksSymmetric` | misc/ap_reloc/smpboot.c:385-389 | masks are symmetric and hold the CPU itself |
| `CpuTopology.StepAlone` | misc/ap_reloc/smpboot.c:560-574 | one CPU of the package looked at by a CPU that is alone in its group |
| `CpuTopology.StepJoining` | misc/ap_reloc/smpboot.c:575-576 | one CPU of the package looked at by a CPU that joins a group |
| `CpuTopology.CountedAll` | misc/ap_reloc/smpboot.c:551-577 | after the loop every count is the number of sibling groups |
| `CpuTopology.CountsRemoved` | misc/ap_reloc/smpboot.c:1590-1597 | taking a CPU out undoes the count its arrival made |
| `CpuTopology.LinkedAll` | misc/ap_reloc/smpboot.c:536-545 | the links of the loop make the masks of the larger set |
| `CpuTopology.MasksRemoved` | misc/ap_reloc/smpboot.c:1599-1605 | clearing the links makes the masks of the smaller set |
| `CpuHotplug.Machine.constructor` | misc/ap_reloc/smpboot.c:518-533 | with no CPU set up all masks are empty and all counts zero |
| `CpuHotplug.Machine.StoreCpuInfo` | misc/ap_reloc/smpboot.c:348-361 | storing what a CPU that is not set up reports changes no mask and no count |
| `CpuHotplug.Machine.LinkSiblings` | misc/ap_reloc/smpboot.c:536-545 | sibling and cache masks become the relations on the larger set |
| `CpuHotplug.Machine.LinkPackage` | misc/ap_reloc/smpboot.c:551-580 | package masks become right for the larger set, counts too when being siblings is transitive, and the NUMA flag rises exactly when a package spans nodes |
| `CpuHotplug.Machine.SetCpuSiblingMap` | misc/ap_reloc/smpboot.c:518-580 | masks are right after a CPU is added, whatever the CPUs report; counts stay right when being siblings is transitive |
| `CpuHotplug.Machine.UnlinkPackage` | misc/ap_reloc/smpboot.c:1590-1597 | the CPU leaves every package mask, and every count of its package falls by one exactly when it was alone in its group |
| `CpuHotplug.Machine.RemoveSiblinginfo` | misc/ap_reloc/smpboot.c:1585-1608 | masks are right after a CPU is removed, whatever the CPUs report; counts stay right when being siblings was transitive |
| `MlePagetable.Build` | trenchboot/txt/txt.c:71-113 | every entry of the region: directories, page entries, and zero elsewhere |
| `MlePagetable.WalkMaps` | trenchboot/txt/txt.c:71-113 | walking the tables maps page p to the start plus 4096 p exactly when p is one of the pages of the image, and nothing else |
| `MlePagetable.MappedPages` | trenchboot/txt/txt.c:94-110 | page p is mapped exactly when the image reaches into it |
| `MlePagetable.ImageMapped` | trenchboot/txt/txt.c:71-113 | walking the tables for any byte of an image below 4 GiB arrives at the byte as far behind its start; for a byte behind its last page, nowhere |
| `MlePagetable.PageAt` | trenchboot/txt/txt.c:94-95 | the address of page p is start plus 4096 p, less 2 to the 32 for each time that has wrapped |
| `MlePagetable.TablesNeeded` | trenchboot/txt/txt.c:100-108 | there is a page table for each 512 pages and no more |
| `MlePagetable.BuildMlePagetable` | misc/ap_reloc/txt.c:126-191 | the same with the size and alignment checks; a refused call writes nothing |
| `SlrTable.Table.InitTable` | trenchboot/include/slr_table.h:254-266 | an empty table with its magic, revision, architecture, size and limit |
| `SlrTable.Table.AddEntry` | trenchboot/include/slr_table.h:235-251 | the entry is appended, or, when it does not fit, nothing changes; the size stays within the limit, and magic, revision and architecture stay |
| `SlrTable.Table.NextEntry` | trenchboot/include/slr_table.h:200-212 | the entry after entry k, null after the last |
| `SlrTable.Table.NextEntryByTag` | trenchboot/include/slr_table.h:215-232 | the first entry with the tag from the given one, or from the start, and null when there is none |
| `SlrTable.RefusedExactly` | trenchboot/include/slr_table.h:240-241 | the 32-bit size check is right if and only if the sum does not wrap |
| `SlrTable.AtEntry` | trenchboot/include/slr_table.h:200-212 | entry k as it is read from the buffer |
| `SlrTable.AtMarker` | trenchboot/include/slr_table.h:194-212 | the end marker behind the last entry |
| `SlrTable.WhatFollows` | trenchboot/include/slr_table.h:200-212 | what the walk reads after any entry, the last one and the end marker included |
| `SlrTable.Appended` | trenchboot/include/slr_table.h:243-248 | writing over the end marker and closing again appends to the sequence of entries |
| `PcrSelection.Request.Shrink` | trenchboot/tpm2-eventlog/pcr.c:125-151 | the in-place loops leave exactly the entries that were not removed, in order |
| `PcrSelection.Request.Restrict` | trenchboot/tpm2-eventlog/pcr.c:433-449 | a requested bank is intersected with the first assigned bank of its algorithm, or marked |
| `PcrSelection.Request.CheckPcrSelection` | trenchboot/tpm2-eventlog/pcr.c:427-457 | the requested banks that are assigned remain, restricted, and false exactly when none does |
| `PcrSelection.LiveIsRequested` | trenchboot/tpm2-eventlog/pcr.c:427-457 | the result, bank by bank: exactly the requested banks that are assigned, in the original order |
| `PcrSelection.SelectedPcrs` | trenchboot/tpm2-eventlog/pcr.c:433-449 | PCR by PCR: a requested bank keeps exactly the PCRs that were requested and are set in the first assigned bank of its algorithm |
| `PcrSelection.Moved` | trenchboot/tpm2-eventlog/pcr.c:136-147 | one round of the compaction |

## Left out

- vUSB indirect grants: only the descriptor pages are tracked; the second level lists are not, because the loops that release them index by the wrong counter and a conservation claim would be false.
- vUSB suspend and resume, xenbus negotiation, root hub status, debug output and `vusb_get_vport`.
- vUSB completion data: copying status, lengths and isochronous packet results into the URB (`vusb_urb_*_finish`) is not modelled, only that the urbp completes and moves.
- vUSB ring indices are unbounded numbers taken modulo the ring size; 32-bit wrap of the indices is not modelled, since the ring size divides 2 to the 32.
- vUSB isochronous packet descriptor page is one page, as its buffer is page aligned; a signal that interrupts the wait for a reset is not modelled.
- vUSB backend activity is modelled between lock sections; nothing is claimed about the ring page after it is freed.
- VusbTeardown.SafeGivesAllBack: speaks of runs in which the port is returned; a safe teardown can hang, and when it can is stated by `VusbHang.QuiescedExact`.
- VusbFlush.FlushExact: a waiting teardown looks at its condition again at any time; a handler that empties the ring after the flush was used up wakes nobody, so in the code only a signal makes it look. References that a section frees stay free for the rest of that section; no other user of the grant table takes them.
- VusbReferences.QuietReferences: a worker takes an item and asks to be let in in one step; the moment between the two, in which it also refers to the device, is not a state of the model.
- Mb2Loader.Loader.GetModule: requires an index below the count; at the count itself the code returns an address computed from a null pointer.
- Mb2Loader.Loader.RemoveTxtModules: requires distinct starts, and non-zero ones after the first module, since a start address is how the code names a module.
- Mb2Loader.Loader.GrowTag: the slack check only prints, so it is not modelled; room in the buffer is required, and the removal that precedes the growth is proved to leave it.
- The contents check that recognises a SINIT module is a parameter.
- TpmEventlog.Context.ParseEventlog: requires PCR indices below 32 in a log of the older format, which the code uses as an array index without a check.
- YAML output of the event log and file reading and writing; the writer of records is modelled up to the bytes it hands over.
- The eighty unrolled steps of SHA-1 are a loop over groups of five, after which the register names are back in place.
- Sha1Sum.Sha1Sum: states the digest for messages below 2 to the 38 bytes, where the encoded length is right.
- CpuHotplug.Machine.SetCpuSiblingMap: the largest thread count and its recomputation over online CPUs are not modelled.
- Timing, APIC and boot handshake code in smpboot.c.
- PCR selection parsing and the capability query; the mask size is at most the size of its array.
- slr_table_grub.h, which is the same code as slr_table.h; the policy and UEFI entry bodies are bytes.
- MTRR setup, DRTM table walks, TPM command marshalling, register access and serial output.
