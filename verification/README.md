# Verified model of the virtqueue, address translation and timer queue

This project models the core of lininoio-userspace in Dafny and proves what it promises.

* **The split virtqueue** (`util/virtqueue.c`, `include/virtqueue.h`,
  `include/virtio_ring.h`): one descriptor table shared by a free chain and the chains in
  flight, two rings with free-running 16-bit indices, and event suppression. `Virtqueue.dfy`
  holds the calls as they change memory; `Vring.dfy` and `Calls.dfy` say on values what they
  do; `Protocol.dfy` cuts every call at its fences and sets the two-sided ring beside an
  abstract machine of two queues and a set of held buffers in which no index ever wraps.
  `Ownership.dfy`, `Simulation.dfy` and `Runs.dfy` prove that the ring refines it over every
  interleaved run. `Guarantees.dfy` and `Session.dfy` draw the consequences, `Misuse.dfy` says
  what becomes of the ring when a caller does what the calls do not check; `Events.dfy`,
  `Wakeup.dfy` and `Doorbell.dfy` are about kicks, callbacks and lost wakeups of either side,
  `Layout.dfy` about the memory block.
* **Address translation** (`include/metal-compat.h`): `MetalIo.dfy`, the paged map and the
  search that inverts it.
* **The timer queue** (`util/timeout.c`) on **the intrusive list** (`include/list.h`):
  `ListHead.dfy` proves the pointer operations against sequences; `Timeouts.dfy` is the timer
  code on that list; `Timers.dfy` and `TimerRuns.dfy` say on values what it does; `Agenda.dfy`
  and `Timeliness.dfy` prove that the queue of distances refines an agenda of absolute
  deadlines, over every run and with handlers that call back into the queue. `Draining.dfy`
  says when `handle_timeouts` ends, and `Ledger.dfy` compares the handler calls of a run with
  the calls that programs and handlers made in it.

`Words.dfy` has the machine words and bit operations they share.

## Reading the virtqueue proof

`Protocol.Inv` relates the concrete machine (`Protocol.Sys`) to the abstract one
(`Protocol.View`). The abstract machine keeps everything ever published (`added`) and ever
returned (`returned`); the available queue is `added[taken..]`, the used queue is
`returned[got..]`. The 16-bit fields are those counters modulo 2^16. `Simulation.StepSimulates`
is the step of the simulation and `Runs.RunSimulates` carries it over runs. The whole calls of
`Calls.dfy` are shown to be runs of such steps, and the methods of `Virtqueue.dfy` to compute
those whole calls, so both granularities are covered.

The parameter checks and assertions of `include/virtqueue.h:156-194` are compiled out, so what
they would check is asked of the callers (`needed` between 1 and the number of free
descriptors, a table of a power of two) or proved (`Guarantees.FreeHeadChecks`,
`Ownership.ReclaimEffect`, `Guarantees.NusedExact`). The device is asked to return only heads
it holds; the code itself only refuses heads above the size of the table.
Nothing in the repository sets the event index bit of `vq_flags`; both modes are modelled.

## Where the code falls short

These are properties that do not hold as one might expect; each has its exact condition.

* `Runs.StartIffZeroed`: creating a queue does not reset the shared indices, so a new queue is
  consistent exactly when the memory came with both at zero.
* `Misuse.SingleKeepsIff`: after `virtqueue_add_single_buffer` the ring stands for some state of
  the abstract queues exactly when `has_next` is zero; `Misuse.SingleWithNextBreaks` is a
  concrete run after which the free chain is circular.
* `Events.KickExactIff`: a kick is right for every event index exactly when fewer than 2^16
  chains were published since the one before.
* `Wakeup.DisabledUntil`, `Events.DisabledFires`: in event index mode a disabled callback does
  not stay silent. A driver that goes on polling is notified exactly when the peer has tested
  past the position one table size and one before the entries consumed at the time of
  disabling, a full round of the index later; `Wakeup.DisabledFor` counts the entries.
* `Misuse.ReturnKeepsIff`: `virtqueue_add_consumed_buffer` checks its head against the size of
  the table only; after a call it accepts the ring stands for some state of the abstract queues
  exactly when the device held that head. `Misuse.HeadLeavesTable`: a head equal to the size of
  the table is accepted too, and makes the driver leave the table.
* `Layout.SizeAgreesIff`, `Layout.UsedEventClearIff`: `vring_init` leaves the event index of the
  available ring out of account and `vring_size` counts it; they agree exactly when
  18 * num + 4 is not a multiple of the alignment, which holds from alignment 16 on
  (`Layout.AgreesFrom16`) and fails for two entries at alignment 8.
* `MetalIo.StuckIff`: the search does not end in a one-page region exactly when the page is not
  mapped and the address is below the size of the region less one.
* `MetalIo.SearchOutcome`: the search returns the offset one past the end exactly when the
  region does not fill its first page and the address follows on that of its last byte;
  `MetalIo.FoundPastTheEnd` is such a region.
* `Draining.EndsAlwaysIff`: `handle_timeouts` ends whatever its handlers do exactly when of the
  due entries at most the last is armed; otherwise handlers that schedule timeouts of zero
  milliseconds keep it going for ever (`Draining.NeverEnds`). With handlers that schedule none
  it ends after one round for each due entry (`Draining.EndsInDue`).
* `Timers.DelayExactIff`: the delay of `schedule_timeout` is the one asked for exactly when
  `ms * 1000` fits in an unsigned long, of 32 or of 64 bits.

## Model

| member | source | states |
|---|---|---|
| Words.MaskIsMod | util/virtqueue.c:632 | masking an index with the table size minus one is the remainder, for every power of two |
| Words.SlotAcrossWrap | util/virtqueue.c:632-637 | reducing a counter to 16 bits does not change its slot, so slots go on across the wrap |
| Vring.LinkFlagsBits | util/virtqueue.c:540-547 | the flags built up by the filling loop have NEXT and WRITE exactly as asked and never INDIRECT |
| Vring.FlagBits | include/virtio_ring.h:36-41 | the tests for NEXT, WRITE and INDIRECT are those of the bits of value 1, 2 and 4, for every 16-bit value |
| Ownership.WriteChainAlong | util/virtqueue.c:532-550 | along a path of the table the filling loop writes each link with its entry, keeps every `next`, touches nothing else and returns what follows the last link |
| Ownership.OwnAdd | util/virtqueue.c:158-173 | adding a buffer turns the first links of the free chain into the new chain and keeps the partition of the table and all other chains |
| Ownership.ChainEndAlong | util/virtqueue.c:571-580 | following NEXT from any link of a chain stops at its last link and counts the links |
| Ownership.ReclaimEffect | util/virtqueue.c:558-592 | freeing a chain writes one `next`, clears cookie and count of its head, moves the head and adds its length to the free count; the countdown ends at zero |
| Ownership.OwnFree | util/virtqueue.c:285-298 | a chain given back, whichever one it is, goes in front of the free chain and the partition holds for the rest |
| Simulation.Occupancy | util/virtqueue.c:724-734 | free descriptors and chains in all stages together never exceed the table, so neither ring can be overrun |
| Simulation.EmptyIffEqual | util/virtqueue.c:350-352 | the 16-bit indices are equal exactly when the queue between them is empty, in both directions, up to tables of 2^15 |
| Simulation.CurrentOk | util/virtqueue.c:359-362 | while the driver fills in a chain, every chain the device may read is fully written in the table as it is now |
| Simulation.Enabled | util/virtqueue.c:158-160 | under the invariant every index a step dereferences is inside its table, so the disabled index assertions hold |
| Simulation.StepSimulates | util/virtqueue.c:132-403 | every step of either side, between any two steps of the other, keeps the invariant and hands out what the abstract queues hand out |
| Runs.StartIffZeroed | util/virtqueue.c:599-614 | a queue just created satisfies the invariant exactly when both ring indices in memory are zero |
| Runs.RunSimulates | util/virtqueue.c:132-403 | over every interleaved run the ring and the abstract queues give the same results and stay related |
| Runs.TakesInOrder | util/virtqueue.c:343-367 | the j-th buffer the device is given is the first buffer of the j-th request |
| Runs.GotsInOrder | util/virtqueue.c:269-299 | the j-th buffer the driver gets back has the length of the j-th return |
| Runs.GotsMatchTakes | util/virtqueue.c:280-298 | to each buffer got back belongs a take of its own, with the head that was returned, of a request with that cookie; the length is that of the return |
| Runs.ExactlyOnce | util/virtqueue.c:165-173 | cookies handed in are cookies handed back plus those in flight, with multiplicity; free descriptors plus chains in flight make up the table |
| Runs.AllReturned | util/virtqueue.c:280-298 | when all descriptors are free again every cookie has come back as often as it was handed in |
| Calls.AddBufferCall | util/virtqueue.c:132-191 | a whole call of virtqueue_add_buffer appends the request to the available queue and is a run of the fence-granular steps |
| Calls.GetBufferCall | util/virtqueue.c:269-299 | a whole call of virtqueue_get_buffer is empty exactly when the used queue is; otherwise it yields its first entry's cookie and length and frees the links |
| Calls.TakeAvailableCall | util/virtqueue.c:343-367 | a whole call of virtqueue_get_available_buffer is empty exactly when the available queue is, and then virtqueue_get_desc_size is 0; otherwise it yields its first chain, with the length virtqueue_get_desc_size announces |
| Calls.AddConsumed | util/virtqueue.c:385-402 | virtqueue_add_consumed_buffer answers 0 for heads up to the table size and -3007 for others, and then leaves the ring as it was |
| Calls.AddConsumedCall | util/virtqueue.c:378-403 | a whole call of virtqueue_add_consumed_buffer for a held head moves that chain to the end of the used queue |
| Guarantees.OneOwner | include/virtqueue.h:110-115 | each descriptor is free or in one chain in flight, never both, and in one place of it |
| Guarantees.FreeHeadChecks | util/virtqueue.c:162-179 | the head is the terminator exactly when nothing is free; otherwise it is valid and has no cookie |
| Guarantees.NusedExact | util/virtqueue.c:724-734 | virtqueue_nused is the length of the used queue and at most the table size |
| Guarantees.HeldChainReads | util/virtqueue.c:532-548 | a consumer walking a chain it took, going by the flag bits as numbers, reads all buffers of the request in order, length and direction included |
| Guarantees.OneWriter | util/virtqueue.c:132-403 | over any run of its steps a side writes only its own part of the shared memory and its own fields; flags and event indices are left alone |
| Guarantees.SignalsKeepQueues | util/virtqueue.c:424-673 | kicks and the callback calls keep the invariant for the same queues and write only flags, event index and pending count of the driver |
| Misuse.SingleIsBuffer | util/virtqueue.c:205-258 | without has_next virtqueue_add_single_buffer is virtqueue_add_buffer of one buffer |
| Misuse.SingleNextFlag | util/virtqueue.c:238-252 | has_next sets the lowest flag bit of the one descriptor and changes nothing else |
| Misuse.SingleKeepsIff | util/virtqueue.c:238-252 | after virtqueue_add_single_buffer the ring satisfies the invariant, for any state of the abstract queues, exactly when has_next is zero |
| Misuse.SingleWithNextBreaks | util/virtqueue.c:574-591 | with has_next, one exchange on a table of two leaves a circular free chain |
| Misuse.ReturnKeepsIff | util/virtqueue.c:378-403 | after a call of virtqueue_add_consumed_buffer that succeeds the ring satisfies the invariant, for any state of the abstract queues, exactly when the device held the chain with that head |
| Misuse.HeadLeavesTable | util/virtqueue.c:385-387 | on an empty used queue, what the driver then reads lies in the table exactly when the head did: with the size of the table as head the call succeeds and the driver leaves the table |
| Events.NeedEventIff | include/virtio_ring.h:156-162 | vring_need_event is true exactly when the counter passed the event index between old and new |
| Events.KickIff | util/virtqueue.c:692-702 | a kick notifies exactly when a position published since the last kick is the awaited one |
| Events.FlagKickIff | util/virtqueue.c:704 | without event index a kick notifies exactly when the lowest bit of the device's flags is clear |
| Events.KickExactIff | util/virtqueue.c:444-458 | that holds for every event index exactly when fewer than 2^16 chains are pending |
| Events.PendingSteps | util/virtqueue.c:637-640 | the pending count and the index keep naming the positions published since the last kick |
| Events.WindowsTile | util/virtqueue.c:692-702 | over any run the windows of the kicks follow each other without gap or overlap, and each fires exactly for its own positions |
| Events.CoveredOnce | util/virtqueue.c:444-458 | every published position is in the window of exactly one kick |
| Events.SetLow | util/virtqueue.c:433 | setting the no-interrupt flag is bitwise or, sets the lowest bit and keeps the others |
| Events.ClearLow | util/virtqueue.c:658 | clearing it leaves the bit clear and the others as they were |
| Events.DisabledFires | util/virtqueue.c:429-431 | however much was consumed since virtqueue_disable_cb, the test fires exactly for moves longer than the entries published since the consumed ones then plus the table size, modulo 2^16 |
| Events.DisabledIsSilent | util/virtqueue.c:429-431 | so no move up to that sum fires while the sum is below 2^16, and every move does when it is 2^16 |
| Wakeup.EnableIsTwoMoves | util/virtqueue.c:648-673 | the two steps of the driver in the wakeup protocol are virtqueue_enable_cb |
| Wakeup.AskedTest | include/virtio_ring.h:156-162 | while the driver waits for it, the peer's test notices exactly new entries |
| Wakeup.MoveKeeps | util/virtqueue.c:648-673 | every move of either side keeps that a sleeping driver has seen all that was tested for |
| Wakeup.NoLostWakeup | util/virtqueue.c:661-672 | after any run a driver asleep with no notification under way has consumed all tested entries, and any further entry makes the next test notify it |
| Wakeup.FlagSilences | util/virtqueue.c:433 | with the no-interrupt flag set no test of any run notifies until the driver asks again |
| Wakeup.DisabledIsSilent | util/virtqueue.c:425-437 | after virtqueue_disable_cb without event index no test notifies until the driver asks again |
| Wakeup.TestAt | include/virtio_ring.h:156-162 | a test notifies exactly when it covers the first position since the last test that shows as the event index |
| Wakeup.DisabledUntil | util/virtqueue.c:429-431 | over every run after virtqueue_disable_cb with event index, with the driver consuming but not asking, it is notified exactly when the peer has tested past the awaited position |
| Wakeup.DisabledFor | util/virtqueue.c:429-431 | from a tested ring with u unconsumed entries that is with the first test after 2^16 - n - u more entries |
| Doorbell.AddPends | util/virtqueue.c:637-640 | virtqueue_add_buffer adds its chain to those the next kick is for |
| Doorbell.AskedKick | util/virtqueue.c:692-704 | to a device that asked a kick answers: without event index always, with it exactly when there is a chain not taken |
| Doorbell.ActKeeps | util/virtqueue.c:444-458 | every act of either side keeps that a sleeping device has taken all that was kicked for |
| Doorbell.NoLostKick | util/virtqueue.c:444-458 | after any run a device asleep with no notification under way has taken all chains kicked for, and if there are others the next kick notifies it, in both modes |
| Doorbell.FirstKickNotifies | util/virtqueue.c:444-458 | such a device is notified by the first kick after any publication |
| MetalIo.PhysInjective | include/metal-compat.h:140-148 | distinct offsets have distinct physical addresses |
| MetalIo.UnmappedIsBad | include/metal-compat.h:143-147 | behind the end, in an unmapped page and without a map the physical address is the bad one |
| MetalIo.OnePageHit | include/metal-compat.h:159-166 | in a mapped region of one page, of any shift that covers it, the first offset tried matches or is out of range, so the search ends though its stride is zero |
| MetalIo.OffsetIff | include/metal-compat.h:156-168 | the search returns an offset in range exactly when that offset has the address |
| MetalIo.SearchOutcome | include/metal-compat.h:156-168 | for an address other than the bad one exactly one of three: the search finds the offset in range that has it; the region does not fill its first page, the address follows on its last byte, and the result is one past the end; no offset has it and it is rejected |
| MetalIo.FoundPastTheEnd | include/metal-compat.h:142-148 | a region of 16 bytes in a page of 4096 for which the result is one past the end |
| MetalIo.SearchOffset | include/metal-compat.h:156-168 | the do-while loop ends and returns the searched offset |
| MetalIo.StuckIff | include/metal-compat.h:162-166 | in a one-page region the loop repeats in range for ever exactly when the page is unmapped and the address plus one is below the size |
| MetalIo.RoundTrip | include/metal-compat.h:176-193 | a pointer into the region survives translation to physical and back |
| MetalIo.PointerOutcome | include/metal-compat.h:109-118 | the pointer for an address other than the bad one is to the byte that has it, one past the end exactly in the case of SearchOutcome, and null otherwise |
| MetalIo.OutsideIsBad | include/metal-compat.h:126-131 | a pointer outside the region translates to the bad address |
| Layout.AlignUpIs | include/virtio_ring.h:133 | the masking expression is the smallest multiple of the alignment that is not below |
| Layout.SizeAgreesIff | include/virtio_ring.h:126-147 | the used ring as placed ends where vring_size says exactly when 18 * num + 4 is not a multiple of the alignment |
| Layout.UsedEventClearIff | include/virtio_ring.h:140-147 | the used ring is behind the used event index under the same condition and on top of it otherwise |
| Layout.AgreesFrom16 | include/virtio_ring.h:126-147 | for tables of a power of two and alignments from 16 on both agree |
| Layout.DisagreesAt8 | include/virtio_ring.h:126-147 | a table of two at alignment 8 disagrees |
| ListHead.ListHead.constructor | include/list.h:42-46 | a new node is a ring of its own |
| ListHead.ListHead.Init | include/list.h:42-46 | initialising makes the node a ring of its own |
| ListHead.Link | include/list.h:55-63 | linking a node in lengthens the ring by it at that place and touches only the two neighbours |
| ListHead.Add | include/list.h:78-81 | list_add puts the node after the given one |
| ListHead.AddTail | include/list.h:92-95 | list_add_tail puts the node before the given one, at the end of a list for its head |
| ListHead.Unlink | include/list.h:104-120 | unlinking closes the ring and leaves the entry's own pointers |
| ListHead.Del | include/list.h:122-127 | list_del closes the ring and poisons the entry |
| ListHead.DelInit | include/list.h:160-164 | list_del_init closes the ring and makes the entry a ring of its own |
| ListHead.Replace | include/list.h:140-147 | list_replace puts the new node in the place of the old one, also for an empty list |
| ListHead.ReplaceInit | include/list.h:149-154 | list_replace_init does that and makes the old node a ring of its own |
| ListHead.Move | include/list.h:171-175 | list_move takes an entry out and puts it after a node of its own or another ring |
| ListHead.MoveTail | include/list.h:182-187 | list_move_tail takes an entry out and puts it before a node of its own or another ring |
| ListHead.Empty | include/list.h:204-207 | list_empty tells whether the list has no entry |
| ListHead.IsSingular | include/list.h:246-249 | list_is_singular tells whether the list has one entry |
| ListHead.IsLast | include/list.h:194-198 | list_is_last tells whether the entry is the last |
| ListHead.RotateLeft | include/list.h:232-240 | list_rotate_left moves the first entry to the end |
| ListHead.CutPosition | include/list.h:277-289 | list_cut_position moves the entries up to the given one to the new list; the cases where it does nothing or empties the new list |
| ListHead.CutAndSplice | include/list.h:277-315 | splicing the part cut off back at the head restores the list |
| ListHead.Splice | include/list.h:310-315 | list_splice puts the entries after the given node, nothing for an empty list |
| ListHead.SpliceTail | include/list.h:322-327 | list_splice_tail puts the entries before the given node |
| ListHead.SpliceInit | include/list.h:336-343 | list_splice_init does that and empties the source |
| ListHead.SpliceTailInit | include/list.h:353-360 | list_splice_tail_init does that and empties the source |
| Timers.TimeValArithmetic | util/timeout.c:78-87 | timercmp compares and timersub subtracts microseconds, and the borrow keeps the result normalised |
| Timers.FromMsNormal | util/timeout.c:62-63 | the delay is normalised whatever overflows and zero only for a request of zero |
| Timers.DelayExactIff | util/timeout.c:62-63 | the delay is the one asked for exactly when ms * 1000 fits in an unsigned long |
| Timers.DelayWithinSecond | util/timeout.c:62-63 | also when ms * 1000 overflows the delay is less than a second off |
| Timers.InsertRefines | util/timeout.c:75-90 | the insertion loop adds one absolute deadline and changes no other |
| Timers.InsertSortedAt | util/timeout.c:78-90 | it goes behind everything due no later and before everything due later |
| Timers.InsertKeepsSorted | util/timeout.c:75-90 | the queue stays sorted, equal deadlines in scheduling order |
| Timers.InsertAddsOne | util/timeout.c:75-90 | scheduling adds one deadline and loses none |
| Timers.DisarmRefines | util/timeout.c:94-97 | cancelling disarms the deadline and moves none |
| Timers.ElapseRefines | etherd/main.c:198 | counting the first distance down while the clock moves leaves all deadlines where they are |
| TimerRuns.InsertUndue | util/timeout.c:78-83 | scheduling before an entry never makes it look due |
| TimerRuns.CursorIsSafe | util/timeout.c:115-125 | after a handler has run the saved cursor is the head of the queue if that entry was due, still linked and undue if it was not, or the list head |
| TimerRuns.DrainCounts | util/timeout.c:115-125 | over a call every scheduling call of every handler called makes a timeout |
| Agenda.CallRefines | util/timeout.c:48-97 | scheduling and cancelling do to the agenda what they do to the queue |
| Agenda.DrainRefines | util/timeout.c:108-126 | handle_timeouts makes the same handler calls and leaves the same deadlines as draining the agenda, whatever the handlers call |
| Timeliness.DoGood | util/timeout.c:48-97 | scheduling and cancelling keep the agenda in order |
| Timeliness.DrainGood | util/timeout.c:108-126 | draining keeps the agenda in order and stops no clock |
| Timeliness.DrainClears | util/timeout.c:115-125 | whatever was due at the start of a call has left the queue at its end |
| Timeliness.DrainOnlyDue | util/timeout.c:115-125 | when no handler schedules for now, a call runs only handlers scheduled before it |
| Draining.CourseOf | util/timeout.c:115-125 | a loop that has ended after some rounds has one course, which leads to where those rounds lead |
| Draining.EndedIsDrain | util/timeout.c:115-125 | whatever functions the handlers are, a call that ends is draining with finitely many recorded handler calls |
| Draining.InsertNow | util/timeout.c:75-91 | a timeout of zero milliseconds goes right behind the entries already due |
| Draining.RoundDue | util/timeout.c:115-125 | a round takes one due entry away and adds those its handler schedules for now; the loop goes on exactly when a second entry was due before the handler ran |
| Draining.RoundCalls | util/timeout.c:118-124 | a round on an armed first entry leaves what all calls of its handler make of the rest of the queue; on a cancelled one the rest |
| Draining.RoundsCount | util/timeout.c:115-125 | after any number of rounds there are as many new timeouts as scheduling calls in the handlers called |
| Draining.EndsInDue | util/timeout.c:115-125 | with handlers that schedule nothing for now each round leaves one due entry less and the loop ends after exactly as many rounds as entries were due |
| Draining.NeverEnds | util/timeout.c:115-125 | with handlers that schedule for now, and an armed due entry before another due one, the loop has not ended after any number of rounds |
| Draining.EndsAlwaysIff | util/timeout.c:108-126 | the loop ends for all handlers exactly when of the due entries at most the last is armed; without cancelled entries exactly when at most one is due |
| Draining.EndsInRun | util/timeout.c:108-126 | at any point of any run a call whose handlers schedule nothing for now ends after exactly as many rounds as entries are due |
| Timeliness.RunMatches | util/timeout.c:48-126 | over every run queue and agenda make the same handler calls |
| Timeliness.HandlersOnTime | util/timeout.c:108-126 | each handler call is made when its delay has elapsed, in deadline order, once, never after cancelling, and none is forgotten |
| Timeliness.HandleClears | etherd/main.c:198-201 | in any run a call of handle_timeouts leaves nothing queued that was due |
| Ledger.DrainKept | util/timeout.c:115-125 | over a call all calls of all handlers called have their effect: what they schedule exists as asked, what they cancel is cancelled or was called before |
| Ledger.RunSettled | util/timeout.c:48-126 | so it is over every run, with the calls of programs and handlers written down in order |
| Ledger.CalledAsWished | util/timeout.c:62-66 | every handler call of a run has the handler and argument asked for and is made within a second of the time asked for, exactly then when ms * 1000 fits |
| Ledger.CalledInOrder | util/timeout.c:115-125 | the handler calls of a run are each for another timeout, in the order of their deadlines and of scheduling |
| Ledger.CancelledNever | util/timeout.c:94-97 | a timeout cancelled, by program or handler, after it was scheduled and before its handler was called never has it called |
| Ledger.NoneForgotten | util/timeout.c:48-126 | every timeout asked for was called, named in a cancelling call, or is queued and not overdue; there are no others |
| Timeouts.Timeouts.constructor | util/timeout.c:28-32 | the list starts empty |
| Timeouts.Timeouts.Schedule | util/timeout.c:48-92 | the new state is that of scheduling on values; null without a handler; the entry joins the list and the others stay |
| Timeouts.Timeouts.InsertWalk | util/timeout.c:75-91 | the loop over the list inserts as the function on values does |
| Timeouts.Timeouts.InsertEntry | util/timeout.c:70-91 | so does the whole, with the empty list apart |
| Timeouts.Timeouts.Cancel | util/timeout.c:94-97 | only the entry itself is disarmed |
| Timeouts.Timeouts.NextTimeout | util/timeout.c:99-106 | the first entry, or null for an empty list |
| Timeouts.Timeouts.Wait | etherd/main.c:198 | select counts the first entry down in place |
| Timeouts.Timeouts.RunEntry | util/timeout.c:118-124 | one round unlinks the entry, makes all calls of its handler if armed, and keeps every other entry linked |
| Timeouts.Timeouts.Handle | util/timeout.c:108-126 | with handlers for which the loop ends, the loop with its saved cursor makes the handler calls and leaves the queue of its course on values |
| Virtqueue.Virtqueue.constructor | util/virtqueue.c:57-117 | a created queue has a zeroed control block, the free chain linked and callbacks off |
| Virtqueue.Virtqueue.RingInit | util/virtqueue.c:599-614 | the loop links the table up into one free chain |
| Virtqueue.Virtqueue.AddChain | util/virtqueue.c:518-551 | the loop on the array writes the chain as the function on values does, with translated addresses |
| Virtqueue.Virtqueue.Publish | util/virtqueue.c:621-641 | the slot is written and the index moved |
| Virtqueue.Virtqueue.Add | util/virtqueue.c:132-191 | virtqueue_add_buffer changes memory and control block as stated on values |
| Virtqueue.Virtqueue.AddOne | util/virtqueue.c:205-258 | virtqueue_add_single_buffer likewise |
| Virtqueue.Virtqueue.FollowChain | util/virtqueue.c:574-580 | the loop over the links ends at the last one with the count taken down |
| Virtqueue.Virtqueue.Free | util/virtqueue.c:558-592 | vq_ring_free_chain changes memory and control block as stated on values |
| Virtqueue.Virtqueue.Get | util/virtqueue.c:269-299 | virtqueue_get_buffer likewise, with its result |
| Virtqueue.Virtqueue.Take | util/virtqueue.c:343-367 | virtqueue_get_available_buffer likewise, with the pointer translated back |
| Virtqueue.Virtqueue.NextSize | util/virtqueue.c:488-507 | virtqueue_get_desc_size reads the length of the next chain, zero if there is none |
| Virtqueue.Virtqueue.Return | util/virtqueue.c:378-403 | virtqueue_add_consumed_buffer likewise, refusing heads above the table size |
| Virtqueue.Virtqueue.EnableCallback | util/virtqueue.c:648-673 | virtqueue_enable_cb likewise, with its result |
| Virtqueue.Virtqueue.DisableCallback | util/virtqueue.c:424-437 | virtqueue_disable_cb likewise |
| Virtqueue.Virtqueue.KickPeer | util/virtqueue.c:444-458 | virtqueue_kick changes the control block as stated on values and notifies, without event index, exactly when the lowest bit of the device's flags is clear |
| Session.Create | util/virtqueue.c:57-113 | creating both sides on memory with zero indices begins the session in the invariant, with every descriptor free |
| Session.NextUsedEnds | util/virtqueue.c:574-580 | the chain named by the next used element ends within the table |
| Session.HeadWalks | util/virtqueue.c:532-537 | the free chain has as many links as are free, all inside the table |
| Session.AddRequest | util/virtqueue.c:132-191 | on shared memory, adding a request extends the abstract available queue |
| Session.TakeNext | util/virtqueue.c:343-367 | on shared memory, taking yields the oldest request, pointer and length |
| Session.AnnounceNext | util/virtqueue.c:488-508 | on shared memory, the announced length is 0 when nothing is available and that of the oldest request otherwise |
| Session.ReturnHeld | util/virtqueue.c:378-403 | on shared memory, returning a held head extends the abstract used queue |
| Session.GetNext | util/virtqueue.c:269-299 | on shared memory, getting yields the oldest return with its cookie |
| Session.FirstBuffer | util/virtqueue.c:356-362 | the consumer's pointer and length are those of the first entry of the request |
| Session.WholeRequest | util/virtqueue.c:532-548 | the chain as the consumer reads it gives every pointer and length of the request in order, readable before writable |
| Session.Exchange | util/virtqueue.c:132-403 | one exchange returns the driver's own pointer to the device and cookie and length to the driver, and frees what it used |

## Left out

- Weak memory: steps interleave under sequential consistency, which the fences ask for.
- Freeing a chain is one step of the interleaving: it touches only the driver's own fields and descriptors of a chain the device has returned.
- Indirect descriptors: the source has them only as a plan; the one test for the flag is kept.
- virtqueue_dump, virtqueue_free, virtqueue_get_buffer_length and the `idx` result of virtqueue_get_buffer: printing, releasing memory, and plain reads; `idx` is a ring slot, not a descriptor.
- The callback and notify pointers: whether the peer is notified is a result, what it then does is the other side's steps.
- The peer's own notification test, and how a device asks for kicks, are not in the repository; they are taken from sections 2.6.7 and 2.6.10 of VIRTIO 1.1, with the demand in event index mode that the peer tests, and the driver kicks, before the index has gone once around.
- Raw memory: ring areas are arrays, and the layout is arithmetic on addresses; reading `avail_event` as 32 bits is not modelled.
- A page shift of 64 or more shifts every bit out; in C such a shift is undefined. Regions of one page are covered for every shift that covers their size, below 64 too.
- Regions in MetalIo have aligned, distinct, mapped pages and do not reach the top of the offset range, as the search needs; a one-page region needs its page mapped.
- Timeouts.Timeouts.Handle: handlers are known by the calls they make on the queue, as a function of how many were called before; calls of handle_timeouts that do not end have no result here (Draining says which they are); a handler that cancels a freed timeout, which is undefined in C, has no effect here.
- Allocation failure in schedule_timeout, and freeing of timeouts.
- The clock of the timer theorems counts the time spent in select, as the source does; time spent in handlers makes timers later, never earlier.
- list_empty_careful and the traversal macros other than the two the timers use: reading only.
- The other sources (sockets, udev, plugins, logging, the unfinished channel bookkeeping of `etherd/lininoio-ether.c` and the protocol handlers).
