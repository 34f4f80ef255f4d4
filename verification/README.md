# DX-V3 DSP driver: a verified model

The driver hands requests from user programs to a DSP and answers from the DSP back to them.
Writers append requests to a list; one worker thread takes the first entry, waits until the
DSP's status register stops reading busy, marks it busy, stores the message into the SRAM and
unlinks the entry; the DSP starts on the last header word and raises an interrupt when it is
done; the interrupt handler publishes the id, clears the mailbox, marks the DSP idle, sets an
event flag and wakes the pollers. A table of fixed-size DSP buffers is shared beside this.

No lock protects the hand-off: its correctness rests on the order of single stores in four
functions. The project models every such store, critical section and wake-up as one step,
proves what every interleaving of any number of writers and pollers with the worker, the
handler and the DSP keeps, and proves that every request written is answered, however many are
written behind it.

## How the project is built

- `Words`, `Message`: machine integers, requests, headers and the wrapping address arithmetic.
- `Registers`: the memory the actors share, and the program of stores of `dx_v3_dsp_run` and of
  `dsp_irq_handler`, one `Op` per store.
- `Slots`: what a whole program does to the SRAM, and for which requests it stays where it should.
- `Protocol`, `Calls`, `Invariant`, `Theorems`, `Liveness`, `Answers`: the transition system,
  what whole calls are in it, its invariant, safety over runs, and progress under fairness once
  writing stops and while it goes on.
- `ClosedLoop`, `Disturbed`: one client's write-poll-read rounds, and exactly which calls of
  others they survive.
- `RequestList`, `DspDevice`, `CharDevice`: the code in its own imperative form, on a doubly
  linked ring, register and SRAM arrays and device fields. Every store of run and of the handler
  has a method of its own that makes it and appends it to a log, so calling them in another
  order breaks the callers' contracts.
- `Uninterrupted`: the bridge. A call nobody interrupts is a run of the transition system with
  the same effect; the methods of `CharDevice.Device` state this about themselves (`Shows`).
- `BufferTable`, `BufferManager`, `BufferProtocol`: the buffer table, its methods in place, and
  concurrent callers between the two critical sections of an allocation.
- `MemoryWindow`, `MaskedRegister`: window-checked copies and register bit fields.

## Assumptions

- The handler is not re-entered, and it runs while a mailbox channel is pending.
- The worker is the only caller of `dx_v3_dsp_run`: the mutex in it is commented out
  (modules/rt/dxrt_drv_dsp_v3.c:249). `Uninterrupted.TwoCallersCollide` shows what two callers do.
- The DSP starts on the final header store and raises one completion per start, on one or both
  channels. What its program computes is not modelled.
- Loads and stores take effect in program order, one word at a time.
- Nobody resets the DSP or sends the worker thread a signal; the modelled runs end before the
  worker is stopped. Re-opening, identifying and terminating are steps of the model and may
  happen at any time; `Disturbed` says exactly which of them the closed loop survives.
- `wait_event_interruptible` and the poll core register the waiter before they test.
- For progress only: the worker, the handler, the DSP and every writer about to make its wake
  call are weakly fair (`Liveness.Fair`). For the end of a wait also: the waiting client is
  weakly fair in the poll steps it can take itself (`ClosedLoop.ClientFair`; asleep it can take
  none) and does not give up.

## Where the code and its comments differ

- A comment limits the payload to 52 bytes, the structure holds 116, and the code copies
  `message_size/4` words whatever the size. The model follows the code; `Slots` says exactly
  for which sizes and ids the loads and stores stay in place.
- `WRITE_DSP_STATUS(.., 0)` is said to leave the DSP idle after initialisation, but the
  reset-vector address is then written to the same register. The first request is sent exactly
  when that address is not 0xFFAA (`Uninterrupted.FirstRequestSentExactly`).
- The window check is on `base + offset`, the copy uses `offset` alone. So accepted copies can
  leave the buffer, with a base below the window and, for ranges that wrap, also above it
  (`MemoryWindow.AcceptedLeavesBuffer`); `MemoryWindow.CopiesStayExactly` says for which bases
  and buffer lengths none does.

## Model

| member | source | states |
|---|---|---|
| Message.HeaderWordBytes | modules/rt/dxrt_drv_dsp_v3.c:260-268 | the two words stored are the eight bytes of the header structure, fields in declaration order, low byte first |
| Message.HeaderRoundTrip | modules/include/dxrt_drv.h:112-118 | the two words the header is stored as determine every field of it, `data_valid` included |
| Message.FlatAddresses | modules/include/dsp_reg_DX_V3.h:68-69 | the signed and unsigned 32-bit steps of the address macros amount to a single wrap of the flat word index, for every id |
| Slots.StoreAddrDistinct | modules/rt/dxrt_drv_dsp_v3.c:266-268 | no two stores of one run hit the same word, for every id and size, even where addresses wrap |
| Slots.RunLands | modules/rt/dxrt_drv_dsp_v3.c:266-268 | after k stores all k are still in place: none is overwritten by a later one |
| Slots.StartIsLast | modules/rt/dxrt_drv_dsp_v3.c:260-268 | the last store is the header word with `data_valid`; before it all payload words and the first header word are in place |
| Slots.LandedReadsBack | modules/include/dxrt_drv.h:120-124 | a message whose stores have landed decodes, as the DSP reads a slot, to the header and payload of the request |
| Slots.RunWritesSlot | modules/rt/dxrt_drv_dsp_v3.c:255-268 | for every id below 16 and size below 252 the run is exactly: busy mark, id, and slot[id] := message; no other word changes |
| Slots.SlotRoundTrip | modules/rt/dxrt_drv_dsp_v3.c:263-268 | the written slot decodes to the message and all fifteen others decode as before |
| Slots.StaysInSlotExactly | modules/rt/dxrt_drv_dsp_v3.c:263-268 | all stores lie in the 256 bytes of the request's slot if and only if id < 16 and size < 252 |
| Slots.StaysInMappingExactly | modules/rt/dxrt_drv_dsp_v3.c:179 | all stores lie in the 0x40000-byte mapping if and only if the message placed at the wrapped header address ends in it |
| Slots.LoadsOwnWordsExactly | modules/rt/dxrt_drv_dsp_v3.c:266 | the payload loads stay in the request's 29 words if and only if size < 120 |
| Slots.IndexFitsExactly | modules/rt/dxrt_drv_dsp_v3.c:263-268 | no index or address computation of the run leaves the signed 32-bit range if and only if its largest address does not |
| Calls.GivingUpLeavesNothing | modules/rt/dxrt_drv_cdev.c:151-169 | a poll given up before or after its test leaves the state as it was, so its thread can poll again |
| Calls.WakeBeforeTest | modules/rt/dxrt_drv_cdev.c:160-167 | a wake-up between a poller's registration and its test keeps it from sleeping, also if the flag is clear again |
| Calls.WakeAfterTest | modules/rt/dxrt_drv_cdev.c:160-167 | a wake-up after the test ends the sleep; the next look starts afresh |
| Calls.TerminateEffect | modules/rt/dxrt_drv_message.c:347-351 | a terminate call sets the flag, wakes every poller and counts once; nothing else changes |
| Calls.SecondLookSeesEntry | modules/rt/dxrt_drv_thread.c:31-35 | an entry linked between the worker's first look and its registration is seen without any wake-up |
| Calls.WakeIsRemembered | modules/rt/dxrt_drv_thread.c:31-35 | a wake-up of the registered worker makes it look again, also if it comes before its second look |
| Invariant.InvKept | modules/rt/dxrt_drv_dsp_v3.c:40-78 | every step of every actor keeps the whole invariant of the hand-off |
| Invariant.RunStepKeepsCounts | modules/rt/dxrt_drv_dsp_v3.c:255-268 | each store of a run keeps the counts of dispatched, started and handled messages in line with the status register |
| Invariant.HandlerStepKeepsCounts | modules/rt/dxrt_drv_dsp_v3.c:61-75 | each store of the handler keeps them, and keeps the mailbox channels in line with raised and entered interrupts |
| Invariant.SleepKept | modules/rt/dxrt_drv_thread.c:31-35 | every step keeps: a worker asleep on a non-empty list has a writer before its wake call |
| Invariant.EventKept | modules/rt/dxrt_drv_cdev.c:160-167 | every step keeps the accounting of event settings and ready polls, and the wake-up of sleeping pollers |
| Invariant.RunInv | modules/rt/dxrt_drv_thread.c:29-49 | every state of every run satisfies the invariant |
| Theorems.ResponseOrder | modules/rt/dxrt_drv_dsp_v3.c:255-268 | published ids are a prefix of the dispatched ids, and these of the written ids, in every interleaving |
| Theorems.OneOutstanding | modules/rt/dxrt_drv_dsp_v3.c:254-256 | the register reads busy exactly from the worker's mark to the handler's idle store; at most one message is started and unanswered |
| Theorems.AcceptedInOrder | modules/rt/dxrt_drv_cdev.c:71-97 | the requests ever linked are, over every run, exactly those the appending writers were called with, in append order |
| Theorems.ExactlyOnce | modules/rt/dxrt_drv_thread.c:37-48 | the list has received exactly the requests passed to write, in append order; they are the removed followed by the queued ones; each is dispatched at most once and none is skipped; the pointer held without the lock stays the list head |
| Theorems.Ownership | modules/rt/dxrt_drv_dsp_v3.c:255-268 | from start to handled completion no step stores into the SRAM, whatever is written meanwhile |
| Theorems.DspSeesWholeMessage | modules/rt/dxrt_drv_dsp_v3.c:265-268 | while a message is outstanding its slot decodes to the request dispatched last |
| Theorems.PublicationOrder | modules/rt/dxrt_drv_dsp_v3.c:265-268 | in every run the only step that starts the DSP is the worker's last header store, with every other word already stored |
| Theorems.NoInterruptLost | modules/rt/dxrt_drv_dsp_v3.c:61-69 | raised minus handled is 0 or 1, and it is 1 exactly when a handler is before its idle store or a channel is pending that no running handler will clear |
| Theorems.OneIdleStorePerInterrupt | modules/rt/dxrt_drv_dsp_v3.c:64-69 | a completion counts as handled exactly at the handler's idle store, once, with both channels clear |
| Theorems.NoLostWorkerWakeup | modules/rt/dxrt_drv_cdev.c:95-103 | in every run a worker asleep has an empty list or a writer between its append and its wake call |
| Theorems.NoLostPollWakeup | modules/rt/dxrt_drv_dsp_v3.c:71-75 | in every run a poller asleep beside a set flag has a setter still before its wake call |
| Theorems.ReadyPollsAccounted | modules/rt/dxrt_drv_message.c:347-351 | ready polls never exceed interrupts plus terminate calls; a set flag counts as one unconsumed |
| Theorems.SetBetween | modules/rt/dxrt_drv_dsp_v3.c:71-75 | if the flag is clear at one point of a run and set at a later one, an interrupt or a terminate call has set it in between |
| Theorems.ReadyPollsSeparated | modules/rt/dxrt_drv_cdev.c:160-167 | strictly between any two ready polls of a run an interrupt or a terminate call sets the flag |
| Theorems.AppendSubmits | modules/rt/dxrt_drv_cdev.c:95-97 | linking an entry adds exactly that writer's request to the waiting ones of an abstract first-in first-out server |
| Theorems.MarkBegins | modules/rt/dxrt_drv_dsp_v3.c:254-256 | at the busy mark nothing is in service, and the first waiting request, which is the worker's, alone goes into service |
| Theorems.PublishFinishes | modules/rt/dxrt_drv_dsp_v3.c:61-62 | publishing answers the id of the one request in service, which leaves none in service |
| Theorems.DriverRefinesServer | modules/rt/dxrt_drv_thread.c:29-49 | in every run each step does to that server what its label says: submit this request, begin, finish, and every other step leaves the server equal |
| Theorems.BusyAliasNeverDispatches | modules/include/dsp_reg_DX_V3.h:33-34 | if the aliased register starts out as 0xFFAA, no run ever dispatches anything |
| Liveness.SomeoneHelps | modules/rt/dxrt_drv_thread.c:29-49 | in every state that is not drained some actor can take a step that brings the end nearer: there is no deadlock |
| Liveness.StepProgress | modules/rt/dxrt_drv_dsp_v3.c:255-268 | without new writes no step increases the measure of remaining stores, phases and interrupts, a helping step decreases it, and a helper keeps helping until then |
| Liveness.EventuallyDrained | modules/rt/dxrt_drv_thread.c:29-49 | in every fair infinite run, once writing stops, a state is reached where all that was written has been answered in order and the driver is idle |
| Liveness.DrainedStays | modules/rt/dxrt_drv_thread.c:31-35 | it stays so until the next write |
| Answers.TrimCommutes | modules/rt/dxrt_drv_thread.c:29-49 | as long as the n-th request is linked, the driver moves as if nothing had been written behind it |
| Answers.StepTo | modules/rt/dxrt_drv_dsp_v3.c:255-268 | no step, an append included, takes the n-th answer farther away; a helping step brings it nearer, and a helper keeps helping until then |
| Answers.EveryWriteAnswered | modules/rt/dxrt_drv_thread.c:29-49 | in every fair infinite run, with writers appending for ever, each request in the list is later answered, in the order written, and its interrupt handled |
| ClosedLoop.EveryRoundMatches | modules/rt/dxrt_drv_cdev.c:53-167 | one client that writes, polls until ready and reads gets its own id back in every round, at any pace of the others, also while others poll and read |
| ClosedLoop.DrainedWakesClient | modules/rt/dxrt_drv_dsp_v3.c:71-75 | once the driver is drained, a client still polling finds the flag set and is not left asleep |
| ClosedLoop.EveryWaitEnds | modules/rt/dxrt_drv_cdev.c:160-167 | with a weakly fair driver and a client that takes its own enabled poll steps and does not give up, every wait ends with its own request ready; executions in which the client sleeps for ever are among those it is about |
| ClosedLoop.HandlerKeepsOwed | modules/rt/dxrt_drv_dsp_v3.c:61-75 | through every store of the handler the one answer owed is in exactly one place: unpublished, being handled, or flagged |
| Disturbed.TerminateBreaks | modules/rt/dxrt_drv_message.c:347-351 | a terminate call right after initialisation lets the client read an answer that is not its own, with nothing dispatched |
| Disturbed.WriteBreaks | modules/rt/dxrt_drv_cdev.c:95-103 | with a second writer the client reads the answer to the other's request |
| Disturbed.ClearingBreaks | modules/rt/dxrt_drv_message.c:64-76 | an open or an identify between ready poll and read makes the client read a cleared response |
| Disturbed.MatchingExactly | modules/rt/dxrt_drv_cdev.c:53-167 | all rounds of all runs match if and only if nobody else writes, terminates, opens or identifies |
| Disturbed.GuestPollStarves | modules/rt/dxrt_drv_cdev.c:160-167 | another poller can take the event: an execution from initialisation, fair to everyone, in which the client sleeps for ever |
| Disturbed.WaitsEndExactly | modules/rt/dxrt_drv_cdev.c:160-167 | with no such other calls, every wait of every fair execution ends if and only if nobody else polls |
| Uninterrupted.TurnAlone | modules/rt/dxrt_drv_thread.c:29-49 | one uninterrupted turn of the worker sends and unlinks the first entry, in a known number of steps |
| Uninterrupted.RunAlone | modules/rt/dxrt_drv_dsp_v3.c:255-268 | k uninterrupted worker steps are the first k stores of the run |
| Uninterrupted.InterruptAlone | modules/rt/dxrt_drv_dsp_v3.c:40-78 | an uninterrupted interrupt makes its six stores and returns |
| Uninterrupted.InterruptEffect | modules/rt/dxrt_drv_dsp_v3.c:61-75 | all six stores together, every field of the shared memory |
| Uninterrupted.EchoAlone | modules/rt/dxrt_drv_dsp_v3.c:61-62 | a request sent and completed alone comes back as its own response, with the DSP idle and the event set |
| Uninterrupted.FirstRequestSentExactly | modules/rt/dxrt_drv_dsp_v3.c:112 | after initialisation the first request is sent if and only if the address left in the shared register is not 0xFFAA |
| Uninterrupted.WaitAlone | modules/rt/dxrt_drv_thread.c:31-38 | on an empty list the worker alone ends up asleep, on a busy DSP it spins with the first entry, and changes nothing else |
| Uninterrupted.TwoCallersCollide | modules/rt/dxrt_drv_message.c:213 | two unsynchronised callers: the first answer carries the wrong id, and the DSP is marked idle with one started message unanswered |
| RequestList.List.AddTail | modules/rt/dxrt_drv_cdev.c:96 | appends one request at the end of the sequence the ring stands for and keeps the ring well formed |
| RequestList.List.Delete | modules/rt/dxrt_drv_thread.c:46 | removes exactly the given entry, wherever it is linked |
| RequestList.List.First | modules/rt/dxrt_drv_thread.c:38 | the first entry; on an empty list the bare head |
| RequestList.List.IsEmpty | modules/rt/dxrt_drv_thread.c:12-19 | true if and only if no request is queued |
| DspDevice.Dsp.constructor | modules/rt/dxrt_drv_dsp_v3.c:220-229 | initialisation leaves the code address in the status register, the clock enabled and the DSP released |
| DspDevice.Dsp.AwaitAvailable | modules/rt/dxrt_drv_dsp_v3.c:255 | the spin ends at the first read that is not 0xFFAA, and only then |
| DspDevice.Dsp.WriteStatus | modules/rt/dxrt_drv_dsp_v3.c:256 | stores at offset 0xC and changes no other control register |
| DspDevice.Dsp.Mark | modules/rt/dxrt_drv_dsp_v3.c:256-258 | 0xFFAA at offset 0xC first, the id second, and no other control register: the log of stores, which each single-store method extends by its own store, gives the order |
| DspDevice.Dsp.StorePayload | modules/rt/dxrt_drv_dsp_v3.c:266 | the payload loop makes the next stores of the program, in order |
| DspDevice.Dsp.StoreHeader | modules/rt/dxrt_drv_dsp_v3.c:268 | the header loop makes the last two, in order |
| DspDevice.Dsp.StoreRun | modules/rt/dxrt_drv_dsp_v3.c:256-268 | the log of stores grows by exactly the program of the run, in order |
| DspDevice.Dsp.Run | modules/rt/dxrt_drv_dsp_v3.c:242-276 | sends if and only if some read is not 0xFFAA; then the slot holds the message and every other SRAM word, control register and field is unchanged; the stores are made in program order |
| DspDevice.Dsp.IrqHandler | modules/rt/dxrt_drv_dsp_v3.c:40-78 | publishes the id, clears both channels, stores 0 at offset 0xC and in no other control register, sets the event and wakes the pollers, in this order of single-store calls |
| CharDevice.Device.constructor | modules/rt/dxrt_drv_cdev.c:276-290 | a new device has an empty list, a DMA buffer of the size given and an empty window, and shows an initial state of the transition system if the code address is not 0xFFAA |
| CharDevice.Device.Write | modules/rt/dxrt_drv_cdev.c:71-107 | the request is queued last exactly when the length is that of id, header and 29 words, which is then returned; every error leaves the queue alone; a run of the transition system |
| CharDevice.Device.Poll | modules/rt/dxrt_drv_cdev.c:151-169 | ready exactly when the event was set, which it consumes; a run of the transition system |
| CharDevice.Device.Read | modules/rt/dxrt_drv_cdev.c:53-70 | returns the published id and the 40 bytes of the structure, or the error for a short buffer or a failed copy |
| CharDevice.Device.Open | modules/rt/dxrt_drv_cdev.c:43-44 | clears the response and the event and nothing else |
| CharDevice.Device.Identify | modules/rt/dxrt_drv_message.c:64-76 | clears the response and sets the memory window |
| CharDevice.Device.Terminate | modules/rt/dxrt_drv_message.c:339-360 | sets the event without an interrupt, then wakes; a run of the transition system |
| CharDevice.Device.ServeFirst | modules/rt/dxrt_drv_thread.c:37-48 | peek, run and unlink: the first request's stores are made in program order and it alone leaves the queue; while the DSP reads busy it stays |
| CharDevice.Device.WorkerTurn | modules/rt/dxrt_drv_thread.c:31-48 | sends if and only if a request is queued and the status register does not read busy, and then it leaves the queue; otherwise nothing changes; either way a run of the transition system |
| CharDevice.Device.Interrupt | modules/rt/dxrt_drv_dsp_v3.c:40-78 | the handler as a run of the transition system |
| BufferTable.LiveBufferExactly | modules/rt/dxrt_drv_message.c:595-597 | a live slot holds slot number times unit as its offset and one unit as its size |
| BufferTable.LiveBuffersDisjoint | modules/rt/dxrt_drv_message.c:596-597 | live buffers never overlap and lie inside the pool, for any number and size of slots |
| BufferTable.PoolFits | modules/include/dxrt_drv.h:39-41 | with the driver's constants every live buffer lies in the size reported by identify, which fits the DRAM |
| BufferTable.FoundIsTheOnlyOne | modules/rt/dxrt_drv_message.c:645-651 | the scan finds a slot if and only if a live one has the offset, and there is only one; stale offsets never match |
| BufferTable.ReserveEffect | modules/rt/dxrt_drv_message.c:582-597 | fails if and only if all slots are live, otherwise takes the lowest free one |
| BufferTable.FreeEffect | modules/rt/dxrt_drv_message.c:644-661 | removes the live slot with that offset and nothing else; the same free then finds nothing |
| BufferTable.AllocThenFree | modules/rt/dxrt_drv_message.c:661 | allocating and freeing restores the live set; a second free fails |
| BufferTable.HistorySound | modules/rt/dxrt_drv_dsp_v3.c:132-138 | after every history of allocations, undone allocations, frees and re-initialisations the live slots are exactly the buffers the replies have handed out |
| BufferManager.Manager.FindFree | modules/rt/dxrt_drv_message.c:582-587 | the lowest free slot, or -1 exactly when there is none |
| BufferManager.Manager.FindOffset | modules/rt/dxrt_drv_message.c:645-651 | the first live slot with the offset, or -1 |
| BufferManager.Manager.Reserve | modules/rt/dxrt_drv_message.c:579-603 | takes the lowest free slot, or none if all are live; the reply is slot number times unit and one unit |
| BufferManager.Manager.Rollback | modules/rt/dxrt_drv_message.c:609-611 | takes the reserved slot out of the live set again |
| BufferManager.Manager.Alloc | modules/rt/dxrt_drv_message.c:563-619 | each return code if and only if its cause; on success the lowest free slot becomes live and the reply is its offset and one unit, on failure the live set is unchanged |
| BufferManager.Manager.Free | modules/rt/dxrt_drv_message.c:621-669 | succeeds if and only if the offset is that of a live slot, which it removes |
| BufferManager.Manager.Reinit | modules/rt/dxrt_drv_dsp_v3.c:132-138 | empties the live set |
| BufferProtocol.PoolKept | modules/rt/dxrt_drv_message.c:578-613 | every step of any number of concurrent callers keeps: live slots are the disjoint union of clients' and pending ones |
| BufferProtocol.RollbackReleasesOwn | modules/rt/dxrt_drv_message.c:606-613 | a rollback releases the caller's own reservation, never a client's buffer or another reservation |
| BufferProtocol.StepIsAtomic | modules/rt/dxrt_drv_message.c:578-613 | each step takes effect at one instant on the live set, as in a sequential pool |
| BufferProtocol.RollbackIsFree | modules/rt/dxrt_drv_message.c:606-613 | rolling a slot back leaves the table that freeing the slot's own offset leaves, live or not |
| BufferProtocol.RunIsSequential | modules/rt/dxrt_drv_message.c:578-663 | every concurrent run, whoever frees what, leaves the table of the sequential calls of its steps, and the live slots are those its replies have handed out |
| BufferProtocol.RefusedExactly | modules/rt/dxrt_drv_message.c:582-592 | an allocation is refused if and only if clients' buffers and reservations fill the pool; clients then own fewer than all buffers if and only if a reservation is pending |
| BufferProtocol.OwnershipOverRuns | modules/rt/dxrt_drv_message.c:641-663 | over every run each client's buffer stays live with the offset and size it was given |
| BufferProtocol.FreeKeptExactly | modules/rt/dxrt_drv_message.c:641-663 | a free of any offset keeps the invariant if and only if it does not name a reservation still being copied out |
| BufferProtocol.StrayFreeLosesBuffer | modules/rt/dxrt_drv_message.c:606-613 | such a free followed by a failed copy takes another client's buffer away |
| MemoryWindow.CheckExactly | modules/rt/dxrt_drv_message.c:163-171 | for non-wrapping ranges the check is containment in the window; it goes wrong exactly on the wrapping ranges described |
| MemoryWindow.CheckGoesWrong | modules/rt/dxrt_drv_message.c:163-171 | one such range for the driver's window |
| MemoryWindow.BeforeIdentifyExactly | modules/rt/dxrt_drv_message.c:163-171 | before any identify a non-empty range passes if and only if it ends exactly at 2^64 |
| MemoryWindow.NonWrappingStaysExactly | modules/rt/dxrt_drv_message.c:163-171 | for each base and window, no accepted range that does not wrap copies past the DMA buffer if and only if none can meet the window, or the buffer laid at the base covers the window's end, or all that 32-bit offset and size can reach |
| MemoryWindow.WrappingStaysExactly | modules/rt/dxrt_drv_message.c:163-171 | for each base and window, the same for ranges that wrap: none can wrap into the window, or the buffer covers its end on the next turn, or all that a wrapping range can reach |
| MemoryWindow.CopiesStayExactly | modules/rt/dxrt_drv_message.c:138-179 | for each base and window, no accepted copy leaves the buffer if and only if both conditions hold |
| MemoryWindow.AcceptedLeavesBuffer | modules/rt/dxrt_drv_message.c:163-171 | for the driver's window and any buffer up to 0xC0200000 bytes, a range with base zero and a wrapping one with a base above the window are accepted and leave the buffer |
| MemoryWindow.WriteThenRead | modules/rt/dxrt_drv_message.c:398-405 | any sub-range of what was written reads back, and ranges that do not meet it read as before |
| MemoryWindow.BytesPastCounts | modules/rt/dxrt_drv_message.c:171 | the bytes counted past the buffer are the positions of the copy at or past its length |
| MemoryWindow.Window.WriteMem | modules/rt/dxrt_drv_message.c:138-179 | each return code if and only if its cause; the bytes land at the offset and nowhere else |
| MemoryWindow.Window.ReadMem | modules/rt/dxrt_drv_message.c:374-411 | the same check, and the bytes of the range |
| MaskedRegister.RegisterBlock.WriteMask | modules/rt/dxrt_drv_dsp_v3.c:20-27 | no bit outside the mask changes, and no other register |
| MaskedRegister.RegisterBlock.ReadMask | modules/rt/dxrt_drv_dsp_v3.c:33-38 | each bit of the result is the masked bit it comes from |
| MaskedRegister.ReadBackExactly | modules/rt/dxrt_drv_dsp_v3.c:20-38 | reading a field just written gives the value if and only if each of its set bits lands on the mask |
| MaskedRegister.DisjointFieldsCommute | modules/rt/dxrt_drv_dsp_v3.c:20-27 | writes to disjoint masks commute and do not disturb each other's reads |

## Left out

- DspDevice.Dsp.AwaitAvailable: takes the values the status register returns as a parameter, since other actors change it during the spin; that the spin ends is part of Answers.EveryWriteAnswered.
- CharDevice.Device.Read: covers `req_id` only; the driver never writes the other response fields after they are cleared.
- RequestList.List.Delete: does not model the poisoned link fields of an unlinked entry or its release.
- MemoryWindow.Window.WriteMem: takes the bytes that end up at the destination as a parameter, because what a failed `copy_from_user` leaves there is the kernel's.
- The lock around the event flag also serialises the buffer table; the two parts share no other state and are modelled apart.
- Open clears the response and the event in one step of the transition system.
- Terminate sets the flag and wakes under one lock; the model lets other steps come between, which only adds behaviour.
- `dxrt_write_input` as a second caller of run, beyond the collision shown.
- `dxrt_read_output` and the list of responses: nothing appends to it.
- Reset and recovery while requests are outstanding: what the DSP does then is not in the repository.
- Stopping the worker with entries still queued, probe and remove, memory mapping, interrupt registration, DMA allocation, mmap.
- The ioctl table, the stub handlers, version information, cache flush, debug output.
- DspDevice.Dsp.constructor: promises the register values initialisation leaves, not the ones in between, and nothing of the debug and mailbox registers.
- The interrupt status reads of the handler: their values are only printed.
- The DSP firmware and the mailbox registers beyond the two completion channels.
