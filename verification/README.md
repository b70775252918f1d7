# Virtqueues and the drivers above them

A Dafny model of the parts of the Windows virtio guest drivers that other code trusts without checking:
the packed and the split virtqueue, the request bookkeeping of the storage drivers, and a few small
mechanisms next to them (scatter/gather splitting, the balloon's control loop, configuration reads, the
bump allocators and the ring layout).

**Positions.** A ring index, its wrap bit and a 16- or 32-bit counter all stand for an unbounded position.
Four positions describe a ring: *u*, up to which the driver has reclaimed used entries, *v*, up to which the
device has published them, *c*, up to which the device has consumed available ones, and *a*, up to which the
driver has made descriptors available; u <= v and u <= c <= a <= u + num. `Positions` and `Bits` relate
positions to what the code computes with: slots, wrap bits, truncated counts, masks.

**Two sides.** A ring is a value, `Ring`, with one `Act` per store of the driver and per action of the device:
`Can` says when a step is possible, `Do` what it does. The driver's steps are single stores. The device's are
coarser: it consumes a whole chain, writes a used entry of the packed ring, or a used element together with
used.idx of the split ring, in one step. `PackedProofs` and `SplitProofs` show that every step
keeps `RingOk`, hence that it holds in every state of every run. The `Queue` classes of `PackedVirtqueue` and
`SplitVirtqueue` are the driver's code on its own arrays and counters. Between any two of their stores to
shared memory the device takes any number of steps (`DeviceRuns`), and every store is one step of the ring.

**Ledger.** Both rings record which buffers were added and in which order the device completed them.
`Ledger` is that record, shared by both rings: what is available, in the device's hands or used, what was
returned, and that nothing is lost or returned twice.

**Storage.** A ring is for `Storage` what `Ledger` shows it to be, a bag of tokens that may come back in any
order. `StorageProofs` follows requests through submission, full rings, completion, the flush after a write
with Force Unit Access (FUA), and resets that leave stale ids in the rings. `StorageAdapter` is the code on the
adapter's lists, and `StorageStack` puts it on top of a split `Queue`, whose outstanding buffers it shows to be
the adapter's tokens throughout, each with the elements that its request has set up. What the device writes
into the status byte of the n-th buffer added is a parameter, `said`.

Where the code departs from what it is evidently meant to do, the model follows the code, and the result is
stated as an exact condition, for the rings with a run of every queue size that meets it: the packed kick after
a chain over the whole ring (`StaleKick`, `FullChainRun`), the packed kick after 65536 descriptors or more
(`FreshKick`, `PackedRuns.ManyBuffersRun`), the split kick after 2^32 buffers (`KickDecides`,
`SplitRuns.ManyBuffersRun`), the delayed enable of the split ring (`DelayedTestExact`, `DelayedRun`), success
reported for a request that failed (`HonestExact`), elements past the 513th (`SeenExact`), a device with more than 513 segments (`InBoundsExact`), more queues than memory was set aside
for (`QueuesExact`, `PagesExact`), and a generation counter that goes all the way round (`UntornExact`).

The two rings differ in how long a buffer can be read back. In the split ring an outstanding head decodes to
the caller's list until it is returned. In the packed ring that holds for indirect tables; a direct chain is
left alone by the driver, but once the device has consumed it, used entries may take the place of its
descriptors (`OverwrittenRun`).

`dafny verify dfyconfig.toml` checks the project.

## Model

| member | source | states |
|---|---|---|
| Positions.SlotIsMod | VirtIO/VirtIORing-Packed.c:259-263 | an index that is reset at the end of the ring, and a wrap bit that is flipped there, are the remainder and the round parity of the position |
| Positions.SlotAdvance | VirtIO/VirtIORing-Packed.c:508-512 | index and wrap bit after advancing by any number of descriptors up to a whole round |
| Positions.NeedEventExact | VirtIO/VirtIORing.c:167-175 | for fewer than 65536 new entries the 16-bit test is true iff some new position is congruent to the event index |
| Positions.SplitKickExact | VirtIO/VirtIORing.c:351-358 | the split kick decision is that same statement for any number of adds since the last kick, 65536 and more included |
| Positions.PackedKickMeaning | VirtIO/VirtIORing-Packed.c:553-573 | with a correct wrap counter the packed kick is true iff the event lies among the last (num_added mod 65536) descriptors |
| Positions.PackedKickExact | VirtIO/VirtIORing-Packed.c:553-573 | for fewer than 65536 added descriptors it is true iff they crossed the event; for any number it is right iff truncation did not lose the event |
| Positions.PackedKickStale | VirtIO/VirtIORing-Packed.c:553-573 | what the test answers when the wrap counter is a round behind, for any number of added descriptors |
| Bits.MaskIsMod | VirtIO/VirtIORing.c:39 | masking with num - 1 is the remainder for every power of two |
| Bits.MaskTest | VirtIO/VirtIORing.c:488-491 | the queue-size test accepts exactly the powers of two |
| Bits.IndexIsSlot | VirtIO/VirtIORing.c:39 | masking a truncated 16-bit index gives the slot of the unbounded position it stands for |
| Bits.RoundUpIs | VirtIO/VirtIORing.c:143-151 | the rounding mask gives a multiple of the alignment, at least x and less than x + align |
| DescPool.TakeKeepsPool | VirtIO/VirtIORing-Packed.c:224-280 | taking a chain off the free list keeps the partition: free list and chains are without repetition, disjoint, and together cover all descriptors |
| DescPool.PutKeepsPool | VirtIO/VirtIORing-Packed.c:297-307 | giving a chain back in any order restores the partition |
| Ledger.KnownIds | VirtIO/VirtIORing-Packed.c:491-506 | every id in any of the three places names an outstanding buffer |
| Ledger.CountOutstanding | VirtIO/VirtIORing.c:293-299 | there are as many outstanding buffers as available, in-flight and used entries together |
| Ledger.ReturnedOnce | VirtIO/VirtIORing-Packed.c:475-526 | each buffer is completed at most once, and is returned iff it is no longer outstanding |
| Ledger.OldestDone | VirtIO/VirtIORing-Packed.c:475-526 | the next used entry is the oldest completion not returned, and carries the token stored for its buffer |
| Ledger.AddedToBag | VirtIO/VirtIORing.c:224-300 | seen as a bag of tokens, an add puts in exactly the caller's token |
| Ledger.ReturnedFromBag | VirtIO/VirtIORing.c:303-334 | and a return takes out exactly the token handed back |
| PackedRing.DeviceSeesWholeBuffers | VirtIO/VirtIORing-Packed.c:177-295 | the device sees the next head as available iff a whole buffer was published there, and decodes it, direct or indirect, to the caller's read-only then writable elements, with the right id and length |
| PackedRing.PublishedDecodes | VirtIO/VirtIORing-Packed.c:198-288 | so does every published buffer, in either form, until the device consumes it |
| PackedRing.OutstandingTable | VirtIO/VirtIORing-Packed.c:198-211 | the table of an indirect buffer holds the caller's list until the buffer is returned |
| PackedProofs.DriverLeaves | VirtIO/VirtIORing-Packed.c:177-307 | adds, gets and every other driver step leave all descriptors in use and all tables of outstanding buffers alone |
| PackedProofs.DeviceLeaves | VirtIO/VirtIORing-Packed.c:475-526 | the device changes no table and only the descriptor that becomes its used entry, one of a buffer it has consumed |
| PackedRuns.OverwrittenRun | VirtIO/VirtIORing-Packed.c:475-526 | for every queue size of at least two, a run after which an outstanding direct chain no longer decodes to its list, its first descriptor being the used entry |
| PackedRing.MoreUsedExact | VirtIO/VirtIORing-Packed.c:340-351 | the flag test for used entries is true iff v > u, iff there is a completion not returned |
| PackedProofs.StepKeeps | VirtIO/VirtIORing-Packed.c:177-295 | every single descriptor store, publication, completion in any order, reclaim and notification step keeps the ring's invariant |
| PackedProofs.InitialOk | VirtIO/VirtIORing-Packed.c:587-640 | a new ring satisfies it |
| PackedProofs.EveryRun | VirtIO/VirtIORing-Packed.c:177-295 | it holds in every state of every interleaving |
| PackedProofs.NoLostInterrupt | VirtIO/VirtIORing-Packed.c:365-398 | once enable_cb returned true, a completion beyond the armed position has an interrupt raised or owed by the device's next evaluation |
| PackedProofs.NoLostKick | VirtIO/VirtIORing-Packed.c:534-576 | a device asleep behind the ring's end was kicked or the next kick_prepare tells the driver to kick it, if the decisions since it fell asleep were exact |
| PackedProofs.FreshKick | VirtIO/VirtIORing-Packed.c:553-573 | with a correct wrap counter, exactly when the decision is to notify a device that asked for any given position, for any number of descriptors since the last kick |
| PackedProofs.StaleKick | VirtIO/VirtIORing-Packed.c:264-275 | after an odd number of direct chains over the whole ring, exactly when a device that asked for any given position is still notified, for any number of descriptors since the last kick |
| PackedProofs.KickMeans | VirtIO/VirtIORing-Packed.c:553-573 | a device that suppresses notifications is not notified, one that always wants them is, and one that asks for a position is notified iff that position is announced |
| PackedProofs.FullChainLosesKick | VirtIO/VirtIORing-Packed.c:264-275 | a first direct chain of num descriptors does not wake a device asleep at its start |
| PackedRuns.FullChainRun | VirtIO/VirtIORing-Packed.c:264-275 | for every queue size and every list of that many elements, a run from the new queue that ends with the device asleep, the chain published, kick_prepare done and no kick sent |
| PackedRuns.ManyBuffersRun | VirtIO/VirtIORing-Packed.c:553-573 | for every queue size of at least two, a run that loses a kick because 65536 descriptors were added since the last one |
| PackedDriver.WrapCounterFollows | VirtIO/VirtIORing-Packed.c:213-275 | the updates of avail_wrap_counter in both branches of add_buf keep it at the round parity of a, off by one for each direct chain over the whole ring |
| PackedDriver.AddEnd | VirtIO/VirtIORing-Packed.c:213-288 | after either form of add all driver counters hold the new positions |
| PackedDriver.OldestCompletion | VirtIO/VirtIORing-Packed.c:491-506 | the id that get_buf reads is in range and outstanding, so neither bad-ring branch is reachable |
| PackedVirtqueue.Queue.constructor | VirtIO/VirtIORing-Packed.c:587-640 | builds the initial ring with all descriptors on the free list |
| PackedVirtqueue.Queue.DeviceRuns | VirtIO/VirtIORing-Packed.c:282-286 | any number of device steps leave the driver's descriptors and outstanding buffers alone |
| PackedVirtqueue.Queue.StoreChain | VirtIO/VirtIORing-Packed.c:240-262 | the direct chain is written behind the unpublished head, the device running between all stores |
| PackedVirtqueue.Queue.StoreTable | VirtIO/VirtIORing-Packed.c:198-211 | the indirect table holds the caller's list before anything is published |
| PackedVirtqueue.Queue.AddBuf | VirtIO/VirtIORing-Packed.c:177-295 | succeeds iff enough descriptors are free, and then appends exactly this buffer; otherwise changes nothing |
| PackedVirtqueue.Queue.GetBuf | VirtIO/VirtIORing-Packed.c:475-526 | returns NULL iff no completion is unreturned, otherwise the oldest one with its token and length; while callbacks are on, every return moves the driver's event to the next used entry, and otherwise the event is left alone |
| PackedVirtqueue.Queue.DisableCb | VirtIO/VirtIORing-Packed.c:330-338 | interrupts are off and nothing else moved but the device |
| PackedVirtqueue.Queue.EnableCb | VirtIO/VirtIORing-Packed.c:365-398 | true means armed for the next used entry, false that there is one; either way the driver's event asks for it |
| PackedVirtqueue.Queue.EnableCbDelayed | VirtIO/VirtIORing-Packed.c:400-450 | true means armed three quarters of the descriptors in use ahead, false that there is a used entry |
| PackedVirtqueue.Queue.KickPrepare | VirtIO/VirtIORing-Packed.c:534-576 | no for a device that suppresses notifications, yes for one that always wants them, and for one that asks for a position iff that is among the announced descriptors; after it no sleeping device is left behind unkicked, if the decisions since it fell asleep were exact |
| PackedVirtqueue.Queue.DetachBuf | VirtIO/VirtIORing-Packed.c:297-307 | the chain goes back to the free list and its token is cleared |
| PackedVirtqueue.Queue.DetachUnusedBuf | VirtIO/VirtIORing-Packed.c:309-328 | takes out the outstanding buffer with the lowest id, or returns NULL with all descriptors free, so that the final check cannot fire |
| PackedVirtqueue.Queue.Teardown | VirtIO/VirtIORing-Packed.c:309-328 | repeated until NULL it returns every outstanding token exactly once |
| PackedVirtqueue.Queue.ProcessCompletions | vioscsi/vioscsi.c:1471-1501 | the disable, drain, enable loop ends, drains with callbacks off, returns the completions in the device's order and leaves the driver armed |
| PackedVirtqueue.Queue.GetAllArmed | vioinput/sys/IsrDpc.c:155-165 | a drain that never turns callbacks off ends with the driver armed for the next completion, and returns the completions in the device's order |
| SplitRing.IndexExact | VirtIO/VirtIORing.c:303-312 | 16-bit indices at most a ring apart are equal iff the positions are |
| SplitRing.Outstanding | VirtIO/VirtIORing.c:293-299 | a - u is the number of outstanding buffers, at most num |
| SplitRing.DeviceSeesAvailable | VirtIO/VirtIORing.c:293-299 | the device's index test is exact and finds the id published there: no avail entry is overwritten before it was consumed |
| SplitRing.DriverSeesUsed | VirtIO/VirtIORing.c:303-334 | the driver's index test is exact and finds the oldest completion not returned |
| SplitRing.OutstandingDecodes | VirtIO/VirtIORing.c:239-291 | decoding an outstanding head gives the caller's list, in either form, until the buffer is returned |
| SplitProofs.StepKeeps | VirtIO/VirtIORing.c:224-300 | every single store and every device step keeps the ring's invariant |
| SplitProofs.InitialOk | VirtIO/VirtIORing.c:476-519 | a new ring satisfies it |
| SplitProofs.EveryRun | VirtIO/VirtIORing.c:224-335 | it holds in every state of every interleaving |
| SplitProofs.NoLostInterrupt | VirtIO/VirtIORing.c:375-388 | completions beyond the armed position have an interrupt raised or owed |
| SplitProofs.NoLostKick | VirtIO/VirtIORing.c:344-362 | a device asleep behind the ring's end was kicked or the next kick_prepare tells the driver to kick it, if no count was truncated since it fell asleep |
| SplitProofs.KickDecides | VirtIO/VirtIORing.c:344-362 | exactly when the decision reaches a sleeping device, for any number of adds since the last kick |
| SplitProofs.KickMeans | VirtIO/VirtIORing.c:344-362 | without event indices the device is notified unless its flag says no; with them iff the adds since the last kick crossed its event, for any event |
| SplitRuns.ManyBuffersRun | VirtIO/VirtIORing.c:344-362 | for every queue size, a run that loses a kick because 2^32 buffers were added since the last one |
| SplitDriver.TakeThreaded | VirtIO/VirtIORing.c:196-204 | the free list threaded through the descriptors stays a partition with the chains when a chain is taken |
| SplitDriver.PutThreaded | VirtIO/VirtIORing.c:207-222 | and when one is given back |
| SplitDriver.DelayedTestExact | VirtIO/VirtIORing.c:392-409 | the delayed test is right for every used index iff that index cannot wrap before the ring is drained |
| SplitRuns.DelayedRun | VirtIO/VirtIORing.c:392-409 | for every queue size, a run into a state in which the test is wrong |
| SplitVirtqueue.Queue.Create | VirtIO/VirtIORing.c:476-519 | there is a queue iff its size is a power of two |
| SplitVirtqueue.Queue.constructor | VirtIO/VirtIORing.c:489-519 | builds the initial ring with all descriptors on the free list |
| SplitVirtqueue.Queue.AddBuf | VirtIO/VirtIORing.c:224-300 | succeeds iff enough descriptors are free, and then appends exactly this buffer and leaves an armed driver armed; otherwise changes nothing |
| SplitVirtqueue.Queue.WalkChain | VirtIO/VirtIORing.c:211-217 | the loop over a chain ends at its last descriptor and counts all of them |
| SplitVirtqueue.Queue.PutChain | VirtIO/VirtIORing.c:207-222 | the whole chain is back on the free list |
| SplitVirtqueue.Queue.GetBuf | VirtIO/VirtIORing.c:303-334 | returns NULL iff no completion is unreturned, otherwise the oldest one with its token and length; while callbacks are on, every return moves used_event to the next used entry, and otherwise it is left alone |
| SplitVirtqueue.Queue.DisableCb | VirtIO/VirtIORing.c:412-421 | interrupts are marked off and nothing else moved but the device |
| SplitVirtqueue.Queue.EnableCb | VirtIO/VirtIORing.c:375-388 | true means armed for the next used entry, false that there is one; either way used_event or the flag asks for it |
| SplitVirtqueue.Queue.EnableCbDelayed | VirtIO/VirtIORing.c:392-409 | exactly what it answers, wrap-around included, and when the driver is armed |
| SplitVirtqueue.Queue.KickPrepare | VirtIO/VirtIORing.c:344-362 | with event indices yes iff the adds since the last kick, counted in 32 bits, crossed avail_event, without them iff the device's flag is clear; after it no sleeping device is left behind unkicked, if no count was truncated since it fell asleep |
| SplitVirtqueue.Queue.DetachUnusedBuf | VirtIO/VirtIORing.c:445-460 | takes out the outstanding buffer with the lowest head and steps the avail index back, or returns NULL with all descriptors free |
| SplitVirtqueue.Queue.Teardown | VirtIO/VirtIORing.c:445-460 | repeated until NULL it returns every outstanding token exactly once and leaves avail.idx at last_used |
| SplitVirtqueue.Queue.ProcessCompletions | viostor/virtio_stor.c:2120-2220 | the disable, drain, enable loop ends, drains with callbacks off, returns the completions in the device's order and leaves the driver armed |
| SplitVirtqueue.Queue.GetAllArmed | vioinput/sys/IsrDpc.c:155-165 | a drain that never turns callbacks off ends with the driver armed for the next completion, and returns the completions in the device's order |
| Storage.NextIdIs | viostor/virtio_stor.c:902-907 | the counter that skips 0 gives request k the id 1 + k mod (2^64 - 1) |
| Storage.IdsRepeat | viostor/virtio_stor.c:902-907 | two requests share an id iff a multiple of 2^64 - 1 requests lie between them |
| Storage.Find | vioscsi/vioscsi.c:1479-1489 | the first pending request with the returned id, or none |
| StorageProofs.FoundIsOwner | viostor/virtio_stor.c:2130-2153 | the request found for a token is the one it was added for, in the same phase; if none is found, none waits for it |
| StorageProofs.StartKeeps | vioscsi/helper.c:112-155 | submission, completion at once and a full ring keep the invariant: counts are list lengths, each pending request has exactly one token, each request is pending or was completed once |
| StorageProofs.ReturnKeeps | viostor/virtio_stor.c:2120-2220 | a returned token, stale or not, completed or sent again, keeps it |
| StorageProofs.ResetKeeps | viostor/virtio_stor.c:857-879 | draining a list, with its tokens still in the ring, keeps it |
| StorageProofs.EveryRun | vioscsi/vioscsi.c:1471-1561 | it holds in every state of every run |
| StorageProofs.CompletedExactlyOnce | vioscsi/vioscsi.c:1471-1561 | in every state of every run a request was completed exactly once, or is pending and was not completed |
| StorageProofs.EveryReturnAnswered | viostor/virtio_stor.c:2081-2219 | in every run a token that comes back before its request was completed is followed at once by the answer: for a plain request and a flush, success iff the device reported success, invalid request iff it reported the request unsupported, an error otherwise; for a serial number, success; for a FUA write, its flush or a failure |
| StorageProofs.StaleIsDropped | vioscsi/vioscsi.c:1491-1499 | a token without a pending request completes nothing and changes no list |
| StorageProofs.FuaOrdering | viostor/virtio_stor.c:2197-2218 | no FUA write is reported successful before its write came back, a flush was queued after that, and that flush came back good |
| StorageProofs.WriteStatusIsDropped | viostor/virtio_stor.c:2197-2218 | a FUA request, write or read, is reported with the status of its flush whatever it returned itself |
| StorageProofs.HonestExact | viostor/virtio_stor.c:2155-2218 | in all runs a request of a kind is reported successful only after what it asked for came back good iff it is neither one with FUA nor a serial-number request |
| StorageProofs.HonestIfPlain | viostor/virtio_stor.c:2214-2217 | in every run a plain request that went into a ring is reported successful only after the device completed it well |
| StorageProofs.DishonestSerial | viostor/virtio_stor.c:2155-2196 | a run in which the device refuses the serial number and success is reported |
| StorageProofs.FailedWriteReportedGood | viostor/virtio_stor.c:2197-2218 | a failed write followed by a good flush is reported as success |
| StorageProofs.DishonestWrite | viostor/virtio_stor.c:2197-2218 | that history as a run from the initial state |
| StorageProofs.ResetAllKeeps | viostor/virtio_stor.c:851-889 | after draining all lists nothing is pending and every request so far was completed exactly once |
| StorageAdapter.Adapter.StartIo | viostor/virtio_stor.c:902-907 | the step Start: one event for every outcome, carrying the status found at once, bus reset during a reset, the given failure when the ring is full, or the submission under the next id |
| StorageAdapter.Adapter.Search | vioscsi/vioscsi.c:1479-1489 | the list loop finds what Find says |
| StorageAdapter.Adapter.Flush | viostor/virtio_stor_hw_helper.c:108-151 | the resend under the same id, or the completion when it cannot be queued |
| StorageAdapter.Adapter.CompleteOne | viostor/virtio_stor.c:2123-2219 | one round of the handler is the step Return |
| StorageAdapter.Adapter.CompleteRequests | viostor/virtio_stor.c:2120-2220 | the handler ends, resends included, after at most as many rounds as there are tokens and writes without their flush; it is a sequence of such steps on its own queue, each with what the device said about that token |
| StorageAdapter.ReturnWorks | viostor/virtio_stor.c:2120-2220 | tokens in the ring plus writes without their flush decrease with every token returned |
| StorageAdapter.Adapter.DrainQueue | vioscsi/vioscsi.c:1535-1561 | the drain loop is the step Reset: each pending request is completed with bus reset, in list order, and the count reaches 0 by itself |
| StorageAdapter.Adapter.CompletePendingRequests | viostor/virtio_stor.c:843-890 | all lists are drained with bus resets and nothing else, unless a reset is already under way |
| StorageStack.BagAdded | viostor/virtio_stor_hw_helper.c:219-236 | an add keeps the queue's outstanding buffers equal, as a bag of ids, to the adapter's tokens |
| StorageStack.BagTaken | viostor/virtio_stor.c:2123 | and so does a return |
| StorageStack.ShownTaken | viostor/virtio_stor.c:2123 | a return takes out no other token's buffer, so all that are left still show the device what their requests want |
| StorageStack.Attach | viostor/virtio_stor.c:833-838 | a new adapter on a new queue starts with both empty |
| StorageStack.NoneLeftBehind | viostor/virtio_stor_hw_helper.c:219-236 | as every add is followed by its kick_prepare, a device asleep behind the ring's end has been kicked |
| StorageStack.Submit | viostor/virtio_stor_hw_helper.c:169-258 | on a real queue a request goes into list and ring iff it needs the device, no reset is under way and the queue has the descriptors, and then one more buffer is outstanding, which decodes to exactly its elements, readable and writable as asked; otherwise it is completed and the queue left alone; no sleeping device is left behind without a notification, and there is none without a new buffer |
| StorageStack.Resend | viostor/virtio_stor_hw_helper.c:108-151 | the flush goes into the same queue under the same id iff the request still has its FUA mark, no reset is under way and there is room; it decodes to one readable element and the rest writable |
| StorageStack.TakeOne | viostor/virtio_stor.c:2123-2219 | what get_buf returns is one of the adapter's tokens, and a round of the handler is the step Return for it, with the status that the device wrote for that buffer, its flush going into the same queue |
| StorageStack.HandleCompletions | viostor/virtio_stor.c:2120-2220 | the whole handler on a real queue ends and is a sequence of Return steps, one for every completion in the device's order and with the status that the device wrote; every token left is outstanding with the elements its request has set up; it leaves the driver armed and no sleeping device behind without a notification, and notifies only for a flush |
| StorageStack.StatusReported | viostor/virtio_stor.c:2123-2219 | so every completion taken is on record with the device's own status, followed by the answer to that status unless its request had been completed before |
| StorageStack.ResetPending | viostor/virtio_stor.c:843-890 | after a reset every request so far was completed exactly once while the queue keeps all its buffers |
| ScatterGather.CutAllBytes | viostor/virtio_stor.c:1426-1454 | the pieces transfer exactly the same bytes in the same order, none empty and none above size_max |
| ScatterGather.CutMinimal | viostor/virtio_stor.c:1426-1454 | no list of pieces within size_max covers an element with fewer pieces |
| ScatterGather.SplitBytes | viostor/virtio_stor.c:1426-1454 | every list that is accepted transfers the bytes of the elements looked at, a size_max of 0 included |
| ScatterGather.SeenExact | viostor/virtio_stor.c:1422 | exactly the first 513 elements are looked at, and the whole transfer is covered iff the others are empty |
| ScatterGather.InBoundsExact | viostor/virtio_stor.c:1422-1486 | every store lies in the table, for all lists that can be handed over, iff the device's seg_max is at most 513 |
| ScatterGather.CutOne | viostor/virtio_stor.c:1428-1453 | the inner loop ends, for a size_max of 0 too: done, refused for too many pieces, or at the end of the table, and when |
| ScatterGather.CutInto | viostor/virtio_stor.c:1426-1454 | the loops in place write exactly the split list, or refuse it, or run into the end of the table |
| ScatterGather.CopyInto | viostor/virtio_stor.c:1457-1461 | without a segment size the elements are copied |
| ScatterGather.Fill | viostor/virtio_stor.c:1422-1486 | the header first and the status byte last, between them exactly the bytes of the elements looked at, in pieces of at most size_max and no more than seg_max of them; the device writes only the status for a write and all but the header for a read; refused iff the list does not fit the device, past the end iff it is not InBounds |
| Balloon.TotalIsPages | Balloon/sys/balloon.c:196-200 | the sum of the chunk sizes is the number of distinct pages in the balloon |
| Balloon.TurnBounds | Balloon/sys/Device.c:653-661 | a turn up never overshoots, a turn down undershoots by fewer than 512 pages, a turn at the target does nothing |
| Balloon.TurnCloser | Balloon/sys/Device.c:653-661 | every turn away from the target brings the bound on the remaining turns down, a turn up by exactly one |
| Balloon.Converges | Balloon/sys/Device.c:653-661 | after that many turns the balloon has the target's size, and keeps it |
| Balloon.Device.Fill | Balloon/sys/balloon.c:131-208 | one chunk of at most 512 pages moves into the balloon and its page numbers into the table for the host, or nothing changes; the host's view stays equal to the balloon iff it could be told |
| Balloon.Device.Leak | Balloon/sys/balloon.c:210-246 | the newest chunk moves back, whatever number was asked for; no page is lost |
| Balloon.Device.Wake | Balloon/sys/Device.c:653-675 | a wake-up of the worker is a turn unless memory ran out, and reports the new size |
| Balloon.Device.Settle | Balloon/sys/Device.c:653-675 | repeated wake-ups for a fixed target bring the device itself to it, by as many turns as it reports and within Distance turns, given enough memory, whether or not the host can be told |
| Balloon.Device.Drain | Balloon/sys/Device.c:429-437 | the drain loop ends with no page left in the balloon |
| ConfigRead.ConfigSpace.GetFields | VirtIO/VirtIOPCICommon.c:153-156 | every byte read is that of the version it was read at, in the order of the versions; if the device made no change meanwhile, all are one version's |
| ConfigRead.ConfigSpace.ReadMany | VirtIO/VirtIOPCICommon.c:143-160 | the retry loop ends with an accepted pass: its bytes are those of the versions they were read at, between two generation reads that agree; it is one version's configuration if fewer than 256 changes fell in between |
| ConfigRead.ConfigSpace.Read | VirtIO/VirtIOPCICommon.c:162-177 | the same by length, single accesses needing no generation |
| ConfigRead.UntornExact | VirtIO/VirtIOPCIModern.c:209-212 | whatever the configurations, every accepted pass returns the bytes of one version iff fewer than 256 changes are possible, or none without a generation register |
| ConfigRead.TornPass | VirtIO/VirtIOPCICommon.c:143-160 | a device and an accepted pass that returns bytes of no version |
| Memory.RoundUpLeast | vioscsi/helper.h:49 | rounding up gives the least multiple |
| Memory.Fits | vioscsi/virtio_pci.c:123-140 | testing the unrounded size is as good as testing the rounded one |
| Memory.Area.Alloc | vioscsi/vioscsi.c:619-634 | every block is aligned, inside its area and apart from all others; it fails iff the rounded size does not fit |
| Memory.Area.AllocAll | vioscsi/vioscsi.c:619-634 | a sequence of requests succeeds iff their rounded sizes fit |
| Layout.FindAdapter | vioscsi/vioscsi.c:485-513 | the totals are the rounded sizes of all first-time requests for max_queues, or the adapter is refused iff a queue has no size |
| Layout.FewerQueues | vioscsi/vioscsi.c:485-513 | they suffice for any num_queues <= max_queues |
| Layout.PagesExact | vioscsi/vioscsi.c:485-513 | and, no ring being empty, for no more |
| Layout.QueuesExact | vioscsi/vioscsi.c:667-670 | the number of queues chosen: the number of vectors iff there are too few of them for several queues, else unchanged; exactly when that raises num_queues above max_queues, by two at most |
| Layout.Initialize | vioscsi/vioscsi.c:532-563 | for an extension at any address and any number of queues, all blocks of both areas lie inside it without overlap, and all first-time allocations succeed iff num_queues <= max_queues; then every ring, heap and structure has its own block of at least its size |
| Layout.SplitLayout | VirtIO/VirtIORing.c:140-161 | descriptor table, avail ring with used_event and used ring with avail_event are disjoint and end exactly at vring_size_split |

## Left out

- Register and port access, PCI capabilities, MSI-X set-up, feature negotiation and `vring_transport_features`: hardware and constants outside the modelled files.
- `virtqueue_kick_always`, `virtqueue_shutdown`, `virtqueue_has_buf`: they would only repeat steps that are modelled.
- `virtqueue_is_interrupt_enabled`: the packed version returns the opposite sense of the split one; neither is modelled.
- The device is any that follows the standard: it consumes in order, completes each buffer it holds once, in any order, and evaluates event suppression as the VIRTIO standard asks. A device that does not is outside every statement about a ring.
- Stores become visible in program order: memory barriers are not modelled, only the points between stores at which the device may run.
- PackedVirtqueue.Queue.AddBuf: indirect tables have fewer than 65536 entries, because the source fills them with a 16-bit counter; the caller's table must not be one of an outstanding buffer.
- SplitVirtqueue.Queue.AddBuf: indirect tables have at most 65536 entries, the most that 16-bit links can name; the caller's table must not be one of an outstanding buffer.
- PackedProofs.NoLostKick: asks for exact kick decisions since the device last fell asleep: an even number of direct chains over the whole ring and fewer than 65536 descriptors between kicks; `FreshKick` and `StaleKick` say exactly what happens otherwise.
- SplitProofs.NoLostKick: asks for fewer than 2^32 adds between kicks since the device last fell asleep, where the 32-bit counter of the source wraps; `KickDecides` says exactly what happens otherwise.
- StorageProofs.StartKeeps: stops before the id counter wraps after 2^64 - 1 requests, when `IdsRepeat` lets a stale token match a newer request.
- StorageStack.TakeOne: the status byte is that of the buffer returned, so what a late write of the device into an extension that a newer request re-uses would do is not modelled.
- PackedVirtqueue.Queue.GetAllArmed: the loop over the input driver's event queue, which gives each buffer back to the device before it takes the next, is not modelled.
- Id assignment, submission under the queue lock and each round of a handler are atomic steps; spin locks and DPC scheduling are not modelled.
- StorageAdapter.Adapter.CompleteRequests: leaves out the response parsing of vioscsi, and the inquiry pages that are filled when a serial number arrives; such requests come only from the two inquiries that are then completed.
- StorageStack.Submit: is about the split queue; the flush after a FUA request is added as a direct chain. A request that re-uses the extension of one completed by a reset is left out, because its indirect table is still that of the outstanding buffer.
- Unit removal, which completes requests without unlinking them, task management, the event queue, and re-entry into a reset: not part of the exactly-once argument, and the first breaks it.
- The choice of a queue from a message number, including its modulo: the queue is a parameter.
- The id that vioscsi skips so as not to collide with its task management command: not modelled.
- ScatterGather.Fill: bounds on the logical block range and a missing scatter/gather list are refused before the modelled lines.
- Balloon.Device.Fill: allocation, low memory and the host's acknowledgement are parameters; the worker's re-arming of its event after a timeout is not modelled.
- ConfigRead.ConfigSpace.ReadMany: the loop is shown to end for a device that changes its configuration finitely often.
- Layout.Initialize: sizes are unbounded, so that the 32-bit totals of the source do not wrap; a restart, which keeps some first-time blocks, is not modelled.
- Inquiry, mode sense, WMI and firmware requests, the network, input, file-system and other drivers: not modelled.
