# Verified model of the SPDK storage connector

A Dafny 4.11 model, with proofs, of the three stores of this repository. `dafny verify dfyconfig.toml` checks it.

**The bdev object store.** A keyed store over a flat byte device. `PageExtentAllocators` edits a canonical map of
free page runs in place; `SpdkConnectors` is the sequential connector, a class over that allocator and a device
(`Bdevs`) whose commands fail as they please and which keeps a history of what it answered. `StoreSystem` is the same connector under concurrency: any number of
workers, interleaved at every lock, allocator call and device command. `StoreInvariant`, `StoreSteps`,
`StorePublication`, `StoreTheorems`, `StoreReports`, `StoreAnswers` and `StoreProgress` prove that it refines a map from
keys to bytes, that every page has one owner, that each call reports exactly what it did or found, and that it cannot
deadlock. The connector
class and the concurrent system share `Segments` (the command tiling) and `Ownership` (who holds which pages, and what
bytes an entry means); `StoreAgreement` shows that they mean the same by a batch store.

**The per-worker I/O engine.** `IoEngine` specifies each callback of a worker; `SpdkBdevContexts` holds the worker and
context objects, whose in-place methods and loops are proved equal to that specification, over the buffer pool class of
`SpdkBufferPools`. `IoInvariant`, `IoCallbacks` and `IoDelivery` prove what every callback keeps, `IoMachine` and
`IoTheorems` what every run of all workers keeps, `IoResults` what every submitter is told; `IoStranding` and `IoExamples` are about what goes wrong. The answer of SPDK to the n-th submission is an arbitrary function of
n. `ShutdownHandshakes` is the teardown protocol across threads, as a machine and as a class.

**The NVMe-KV publish protocol.** `KvFormat` is the manifest-plus-chunks format, `KvMachine` the store, load and delete
calls as small-step clients whose every engine operation is atomic, `KvPublication` any number of storing and loading
clients with crashes, `KvCrash` crash safety, retry and deletion for one client, `KvDeletion` and `KvLoss` any number of
clients of all three kinds, and `KvObjectStores` the object layer as a class over an engine whose records change in
place, with recovery by scan. SHA-256, the JSON text and its parser are functions passed in; collisions are excluded
only among the records in use, and only where a theorem says so.

## What the proofs assume

- A key lock, the allocator mutex, the key-map mutex, a device command and the update of a batch's completion state
  are each one atomic step.
- A successful write command sets its whole range; a failed or unfinished one may leave anything in its own range.
- SPDK delivers no completion inside the submit call, and calls back at most once for what it accepted.
- The JSON parser reads back what the renderer wrote; SHA-256 digests have 32 bytes.

## What does not hold of the code

- When a secondary worker's stop message cannot be posted, `begin_shutdown_on_app_thread` frees its pool but not its
  queue. Requests parked there never complete and their submitter waits for ever. This happens if and only if the queue
  is not empty (`IoStranding.StrandsIffParked`, `IoExamples.StrandingHappens`).
- An invalid item in a batch leaves the items before it counted in `submitted_io_` although they are never queued. The
  connector can pass one such item, a null buffer (`IoTheorems.SubmitBalancesIff`, `IoTheorems.OnlyNullIsInvalid`,
  `IoExamples.LeakHappens`).
- `close()` waits for ever when the runtime is gone before anybody has requested the teardown, and when a worker's answer
  cannot be posted. The comment beside that second case says that stopping the application avoids a hang; it does not
  wake this waiter (`ShutdownHandshakes.CloseReturnsIff`, `ShutdownHandshakes.HangsHappen`).
- `store` promises that an interrupted write leaves only unreachable garbage. The garbage is unreachable, but it blocks
  the identity for any payload with another chunk value (`KvCrash.StoreSucceedsIff`, `KvCrash.OrphanFromCrash`).
- A delete that overlaps a store of the same identity can leave a manifest without its chunks (`KvCrash.DeleteRace`).
  Without such an overlap it cannot (`KvDeletion.DeletingIsSafe`), and with one it happens exactly when the delete takes
  a chunk that the store had found or put (`KvLoss.LostIff`).
- `release` of several extents is not atomic when a later extent is rejected, and a set of another size than the stored
  value succeeds without effect. Both are part of the contracts.

## Model

| member | source | states |
|---|---|---|
| FreeMap.CanonicalUnique | bdev/csrc/page_extent_allocator.cpp:90-122 | a sorted, disjoint, maximally coalesced free map is determined by its page set alone, so the order of the calls that produced it cannot matter |
| FreeMap.RunBoundaries | bdev/csrc/page_extent_allocator.cpp:90-122 | every entry of a canonical map is a maximal run: the pages just before and after it are not free |
| FreeMap.AscendingSize | bdev/csrc/page_extent_allocator.cpp:21-63 | ascending extents hold as many distinct pages as their lengths add up to |
| PageExtentAllocators.PageExtentAllocator.constructor | bdev/csrc/page_extent_allocator.cpp:13-19 | a new allocator has every page of the device free |
| PageExtentAllocators.PageExtentAllocator.Create | bdev/csrc/page_extent_allocator.cpp:13-19 | an allocator exists exactly when there is at least one page |
| PageExtentAllocators.PageExtentAllocator.Allocate | bdev/csrc/page_extent_allocator.cpp:21-63 | succeeds exactly when the request is non-empty and that many pages are free; takes exactly the lowest free pages as ascending, non-touching extents; an error changes nothing; both accounting throws are unreachable |
| PageExtentAllocators.PageExtentAllocator.Scan | bdev/csrc/page_extent_allocator.cpp:32-48 | the first pass collects whole runs in page order, the last one cut short: nothing free lies below what was collected |
| PageExtentAllocators.PageExtentAllocator.Carve | bdev/csrc/page_extent_allocator.cpp:49-60 | the second pass removes exactly the collected pages and keeps the map canonical |
| PageExtentAllocators.PageExtentAllocator.Release | bdev/csrc/page_extent_allocator.cpp:65-83 | extents come back one by one; when one is rejected exactly those before it have been freed and map and count still agree; an outstanding allocation is never rejected |
| PageExtentAllocators.PageExtentAllocator.ReleaseExtent | bdev/csrc/page_extent_allocator.cpp:67-81 | accepted exactly when non-empty, in range and disjoint from the whole free set; the count overflow throw is unreachable |
| PageExtentAllocators.PageExtentAllocator.WidenByNeighbours | bdev/csrc/page_extent_allocator.cpp:90-117 | looking at two neighbours decides overlap with the whole free set |
| PageExtentAllocators.PageExtentAllocator.InsertFreeExtent | bdev/csrc/page_extent_allocator.cpp:90-122 | insertion succeeds exactly for an extent disjoint from every free page, adds exactly its pages and keeps the map maximally coalesced |
| PageExtentAllocators.NeighboursDecide | bdev/csrc/page_extent_allocator.cpp:93-111 | in a canonical map an extent apart from its two neighbours is apart from every run |
| PageExtentAllocators.MergedIsUnion | bdev/csrc/page_extent_allocator.cpp:112-121 | the merged entry stands for the old free pages and the new ones, no others |
| PageExtentAllocators.MergedCanonical | bdev/csrc/page_extent_allocator.cpp:112-121 | merging with both neighbours leaves the map canonical |
| PageExtentAllocators.TakeFromRunIsRemoval | bdev/csrc/page_extent_allocator.cpp:49-60 | cutting the front of a run removes exactly those pages |
| PageExtentAllocators.LowestPages | bdev/csrc/page_extent_allocator.cpp:36-43 | what the scan takes is below everything it leaves |
| PageExtentAllocators.ReturnableAccepted | bdev/csrc/page_extent_allocator.cpp:65-83 | each extent of an outstanding allocation is acceptable after those before it were freed |
| PageExtentAllocators.AllocateThenRelease | bdev/csrc/page_extent_allocator.cpp:21-83 | releasing an allocation restores the identical free map |
| PageExtentAllocators.ReleaseInOrder | bdev/csrc/page_extent_allocator.cpp:65-83 | any list of outstanding allocations is taken back one after the other, none refused, in any order |
| PageExtentAllocators.OrderDoesNotMatter | bdev/csrc/page_extent_allocator.cpp:65-83 | two orders of the same allocations return the same pages |
| PageExtentAllocators.ReleaseInAnyOrder | bdev/csrc/page_extent_allocator.cpp:65-83 | any number of outstanding allocations released in any two orders give the identical map and count |
| StorageGeometry.AcceptedIff | bdev/csrc/storage_geometry.cpp:29-86 | exactly which device and configuration values are accepted |
| StorageGeometry.AcceptedGeometry | bdev/csrc/storage_geometry.cpp:29-86 | usable capacity is the largest page multiple within capacity; the segment is a positive page multiple within the request and the device limit, and the largest such when the device caps it |
| StorageGeometry.OverflowIsCapacityOverflow | bdev/csrc/storage_geometry.cpp:14-21 | overflow is reported exactly when the byte capacity does not fit: the three later checked multiplications never fire |
| StorageGeometry.PageOffsetsNeverWrap | bdev/csrc/spdk_connector.cpp:297-311 | page-to-byte offsets of any run in range stay within the usable capacity and 64 bits |
| StorageGeometry.PagesForBytesIsCeiling | bdev/csrc/spdk_connector.cpp:246-251 | the page count is the true ceiling although the intermediate sum may wrap, and the overflow error is raised exactly when needed |
| Segments.AppendSegments | bdev/csrc/spdk_connector.cpp:290-320 | the two nested loops compute the command list; they throw exactly when a command would carry no bytes or the extents do not cover the value |
| Segments.SegmentsTile | bdev/csrc/spdk_connector.cpp:290-320 | the commands tile the caller's buffer in order and the extents' bytes exactly; only the last has padding, less than one page |
| Segments.SegmentsOfTile | bdev/csrc/spdk_connector.cpp:290-320 | for an entry whose pages fit its size, segmentation never throws and tiles the whole value |
| Segments.SegmentsAreValid | bdev/csrc/spdk/spdk_bdev_context.cpp:1026-1049 | every command of a fitting entry passes validate_item: page aligned, at most one segment, inside the usable capacity |
| Segments.AcceptedLayout | bdev/csrc/storage_geometry.cpp:29-86 | every geometry that is accepted gives a layout whose page, segment and capacity segmentation can work with |
| Segments.TilingTotal | bdev/csrc/spdk_connector.cpp:318-319 | the logical lengths add up to the value's length |
| Segments.FlattenPages | bdev/csrc/spdk_connector.cpp:290-320 | the extents of an entry list its pages once each in ascending order |
| Segments.AddressInjective | bdev/csrc/spdk_connector.cpp:308-311 | different positions of a value have different device addresses |
| Ownership.AllocatableIff | bdev/csrc/spdk_connector.cpp:252-254 | a value can be placed exactly when the free pages have room for its bytes |
| Ownership.SegmentsAreCommands | bdev/csrc/spdk_connector.cpp:290-320 | an entry's commands touch disjoint device ranges inside its own pages and cover every byte of the value |
| Ownership.AllWritten | bdev/csrc/spdk_connector.cpp:321-325 | when all commands of an entry succeeded, in whatever order, the entry reads back as the caller's buffer |
| Ownership.AllCopied | bdev/csrc/spdk_connector.cpp:326-330 | when all read commands' bytes are in place, the buffer is the entry's value |
| Ownership.OthersUndisturbed | bdev/csrc/spdk_connector.cpp:191-206 | writing inside one holder's pages leaves every other holder's bytes alone |
| Ownership.FreeDetermined | bdev/csrc/spdk_connector.cpp:203-211 | who holds which pages determines the free pages |
| Ownership.TakePages | bdev/csrc/spdk_connector.cpp:252-254 | allocation keeps every page with exactly one owner |
| Ownership.GivePages | bdev/csrc/spdk_connector.cpp:123-133 | release keeps every page with exactly one owner |
| Ownership.PassPages | bdev/csrc/spdk_connector.cpp:123-133 | publishing and retiring hand pages over without freeing or duplicating any |
| Bdevs.Bdev.WriteBatch | bdev/csrc/spdk_connector.cpp:191-199 | the device: a successful command sets its whole range to the bytes and zero padding, a failed one may leave anything in its own range only |
| Bdevs.Bdev.ReadBatch | bdev/csrc/spdk_connector.cpp:154-168 | the device: a successful read returns the current bytes of its logical range |
| SpdkConnectors.SpdkConnector.constructor | bdev/csrc/spdk_connector.cpp:57-61 | a new connector is an empty map with every page free |
| SpdkConnectors.SpdkConnector.PagesNeeded | bdev/csrc/spdk_connector.cpp:246-251 | the page count covers the value with less than one page to spare, or overflows |
| SpdkConnectors.SpdkConnector.AllocateEntry | bdev/csrc/spdk_connector.cpp:252-254 | an entry of exactly the value's length out of free pages, or an error that changes nothing; exhaustion exactly when too few pages are free |
| SpdkConnectors.SpdkConnector.Write | bdev/csrc/spdk_connector.cpp:321-325 | on success the entry reads as the buffer; only its own pages change either way |
| SpdkConnectors.SpdkConnector.Read | bdev/csrc/spdk_connector.cpp:326-330 | on success the buffer is exactly the entry's value |
| SpdkConnectors.SpdkConnector.DoSingleGet | bdev/csrc/spdk_connector.cpp:104-113 | a get of a present key of that size asks the device for one batch and returns exactly the stored bytes if and only if every command was granted, the device error otherwise; the miss error, without asking the device, exactly for a missing key or another size |
| SpdkConnectors.SpdkConnector.DoSingleSet | bdev/csrc/spdk_connector.cpp:114-134 | an empty value fails; a value of another size than the stored one is silently ignored; any other succeeds if and only if its page count does not overflow, that many pages are free and the device granted every command of its one write batch, and the error says which of these failed; success maps the key to the new bytes and frees the replaced pages, failure leaves map and free list as they were |
| SpdkConnectors.SpdkConnector.DoSingleExists | bdev/csrc/spdk_connector.cpp:213-218 | true exactly when the key has a value |
| SpdkConnectors.SpdkConnector.DoSingleDelete | bdev/csrc/spdk_connector.cpp:219-229 | removes exactly this key, frees exactly its pages and reports whether it was there |
| SpdkConnectors.SpdkConnector.DoBatchGet | bdev/csrc/spdk_connector.cpp:135-169 | one read batch of all matching keys' commands in order, none when no key matches; a key is reported successful if and only if it is present with that size and every command of its own was granted, and then its buffer holds the stored bytes |
| SpdkConnectors.SpdkConnector.DoBatchSet | bdev/csrc/spdk_connector.cpp:170-212 | succeeds if and only if no key repeats, no value is empty, no page count overflows, all values that are not skipped find room together, and there was nothing to write or the device granted every command of the one write batch; then the map is the sequence of single sets, and otherwise map and free list are as before and the error is that of the first faulty set or the device's |
| SpdkConnectors.RoomIff | bdev/csrc/spdk_connector.cpp:178-190 | the reservation loop gets through exactly when the batch is well formed and the pages of all values that are not skipped are free together |
| SpdkConnectors.FirstFault | bdev/csrc/spdk_connector.cpp:178-190 | a batch that does not get through reports the fault of its first faulty set: repeated key, empty value, page count overflow or no room, in this order |
| SpdkConnectors.SpdkConnector.ReserveAll | bdev/csrc/spdk_connector.cpp:178-190 | reservations for exactly the keys that are not skipped, with distinct keys and disjoint pages |
| SpdkConnectors.SpdkConnector.WriteAll | bdev/csrc/spdk_connector.cpp:191-199 | no batch when nothing was reserved, otherwise one, which succeeds if and only if every command was granted and then leaves every reservation holding its buffer |
| SpdkConnectors.SpdkConnector.Rollback | bdev/csrc/spdk_connector.cpp:200-206 | releasing the new extents leaves only published entries as owners |
| SpdkConnectors.SpdkConnector.PublishAll | bdev/csrc/spdk_connector.cpp:207-211 | every reserved key gets its new entry and every replaced entry's pages are freed, none rejected |
| SpdkConnectors.StoreAllApplied | bdev/csrc/spdk_connector.cpp:177-214 | publishing the reservations means, for the readable bytes, applying the sets one after the other |
| StoreAgreement.BatchStoresAgree | bdev/csrc/spdk_connector.cpp:170-212 | what the connector object makes of a key in a batch store is what the concurrent store's event makes of it |
| StoreSystem.LockOrderRanked | bdev/csrc/spdk_connector.cpp:270-289 | the lock list holds exactly the request's key states, each once, by ascending address |
| StoreInvariant.InterferenceFree | bdev/csrc/spdk_connector.cpp:104-229 | a step of one worker changes nothing another worker relies on: neither its entries nor a byte in their pages |
| StoreInvariant.ViewKeepsWorker | bdev/csrc/spdk_connector.cpp:104-229 | a worker that sees no difference keeps every fact it has established |
| StoreSteps.EnterStep | bdev/csrc/spdk_connector.cpp:135-153 | starting the body of a request under its locks is atomic; a delete unpublishes in one step |
| StoreSteps.ReserveStep | bdev/csrc/spdk_connector.cpp:178-190 | one round of the reservation loop keeps the invariant and is invisible to readers |
| StoreSteps.WriteCommandStep | bdev/csrc/spdk_connector.cpp:191-199 | a device command, successful or not, is invisible in every key's readable value |
| StoreSteps.ScrambleStep | bdev/csrc/spdk_connector.cpp:191-199 | bytes spoiled in flight by an unfinished command are invisible in every key's readable value |
| StorePublication.PublishFirstHolders | bdev/csrc/spdk_connector.cpp:207-211 | publication gives each key its reservation and retires each old entry, with every page keeping exactly one owner |
| StorePublication.PublishedIsApplied | bdev/csrc/spdk_connector.cpp:207-208 | publishing a store whose commands all succeeded is the abstract batch store, key by key |
| StorePublication.FinishWriteStep | bdev/csrc/spdk_connector.cpp:191-211 | a store with a failed command changes no key; otherwise all its keys change together |
| StorePublication.ReleaseStep | bdev/csrc/spdk_connector.cpp:200-211 | rolling back or retiring a reservation frees exactly its pages and is invisible to readers |
| StoreTheorems.EveryStep | bdev/csrc/spdk_connector.cpp:104-229 | every step of every worker keeps the invariant and is, on the map from keys to bytes, invisible or one whole store or delete |
| StoreTheorems.RunKeepsInv | bdev/csrc/spdk_connector.cpp:104-229 | the invariant holds after every run of any number of workers under any device failures and completion orders |
| StoreTheorems.StoreIsItsHistory | bdev/csrc/spdk_connector.cpp:104-229 | in every reachable state the readable bytes are what the history of successful calls says: the store refines a map from keys to bytes |
| StoreTheorems.ReplayIsLastStore | bdev/csrc/spdk_connector.cpp:114-134 | a key's value in the history is v if and only if its last store that took effect, a size change does not, was of v |
| StoreTheorems.LoadReturnsLastStore | bdev/csrc/spdk_connector.cpp:104-169 | a load that reports success for a key returns exactly the bytes of that key's last store that took effect, with no later store or delete of it |
| StoreTheorems.EntrySeesHistory | bdev/csrc/spdk_connector.cpp:135-153 | a load serves exactly the keys whose value has the buffer's length; a lookup and a delete report exactly the keys with a value |
| StoreTheorems.ExactlyOneOwner | bdev/csrc/spdk_connector.cpp:123-133 | in every reachable state each page is free or held by exactly one published, reserved or retiring entry |
| StoreTheorems.ReleasesAreAccepted | bdev/csrc/spdk_connector.cpp:200-211 | every release the connector issues is of an outstanding allocation, which the allocator accepts |
| StoreTheorems.QuietConservation | bdev/csrc/spdk_connector.cpp:123-133 | once no operation is in progress exactly the pages of published entries are in use |
| StoreReports.StoreOutcome | bdev/csrc/spdk_connector.cpp:114-134 | over every run: a store that returned reports failure if and only if one of its steps failed it; reporting success it entered the history exactly once since it began, with its own keys and buffers; reporting failure, not at all |
| StoreReports.DeleteOutcome | bdev/csrc/spdk_connector.cpp:219-229 | over every run: a delete reports success if and only if it entered the history, once and with its own key |
| StoreReports.ReadersLogNothing | bdev/csrc/spdk_connector.cpp:135-169 | over every run: a load or lookup never enters the history |
| StoreAnswers.LoadOutcome | bdev/csrc/spdk_connector.cpp:135-169 | over every run and whatever other workers do: a load that returned marks a key successful if and only if the bytes readable under it, when all locks were held, had the buffer's length, no command of the key failed and the device took commands at all; the buffer then holds exactly those bytes |
| StoreAnswers.PresenceOutcome | bdev/csrc/spdk_connector.cpp:213-229 | over every run: a lookup or delete that returned reports whether its key had bytes when its lock was held |
| StoreAnswers.EntryServes | bdev/csrc/spdk_connector.cpp:135-153 | a load serves exactly the keys whose readable bytes fit its buffers when it enters |
| StoreAnswers.ServedRun | bdev/csrc/spdk_connector.cpp:154-168 | from the entry on exactly the keys with a failed command lose their success mark |
| StoreAnswers.LockedKeyStays | bdev/csrc/spdk_connector.cpp:270-289 | nothing another worker does changes what is readable under a key while its lock is held |
| StoreReports.FailureIsReported | bdev/csrc/spdk_connector.cpp:178-206 | from a repeated key, an empty value, too few free pages, a failed segment or an unavailable device on, whatever other workers do, the store never enters the history and reports failure |
| StoreReports.RunFollowed | bdev/csrc/spdk_connector.cpp:170-212 | over every run and whatever other workers do, a store is doomed exactly when it was before or one of its steps failed it, and its part of the history is what its stage says |
| StoreReports.ReachableReports | bdev/csrc/spdk_connector.cpp:104-229 | in every reachable state every worker's request has logged exactly what its stage says |
| StoreProgress.WaitsUpward | bdev/csrc/spdk_connector.cpp:270-289 | every lock a worker holds is below the one it waits for, so a batch repeating a key never waits for itself |
| StoreProgress.NoWaitCycle | bdev/csrc/spdk_connector.cpp:270-289 | no chain of workers waiting for each other's locks closes |
| StoreProgress.NoDeadlock | bdev/csrc/spdk_connector.cpp:255-289 | while any request is in progress some request can take a step of its own |
| StoreProgress.ForwardDescends | bdev/csrc/spdk_connector.cpp:104-229 | every step forward finishes part of a phase or moves to a later one: no request runs for ever |
| SpdkBufferPools.SpdkBufferPool.Initialize | bdev/csrc/spdk/spdk_buffer_pool.cpp:29-77 | all buffers or none: exact conditions for success, index 0 granted first, a refused allocation leaves an empty pool |
| SpdkBufferPools.SpdkBufferPool.TryAcquire | bdev/csrc/spdk/spdk_buffer_pool.cpp:91-103 | grants the top of the free stack, which nobody holds, or nothing when every buffer is leased |
| SpdkBufferPools.SpdkBufferPool.Data | bdev/csrc/spdk/spdk_buffer_pool.cpp:109-117 | the address of an index exactly while it is leased |
| SpdkBufferPools.SpdkBufferPool.Release | bdev/csrc/spdk/spdk_buffer_pool.cpp:119-128 | accepted exactly for a leased index, which becomes the next to be granted |
| SpdkBufferPools.SpdkBufferPool.ReleaseAll | bdev/csrc/spdk/spdk_buffer_pool.cpp:79-89 | back to the uninitialised pool |
| SpdkBufferPools.GrantSound | bdev/csrc/spdk/spdk_buffer_pool.cpp:91-103 | no index is granted twice and the number of leases goes up by one |
| SpdkBufferPools.GrantThenGiveBack | bdev/csrc/spdk/spdk_buffer_pool.cpp:91-128 | giving back the buffer just granted restores the pool exactly |
| SpdkBufferPools.LastReleasedFirstGranted | bdev/csrc/spdk/spdk_buffer_pool.cpp:119-128 | the buffer released last is granted first |
| SpdkBufferPools.LeaseBounds | bdev/csrc/spdk/spdk_buffer_pool.cpp:105-107 | nothing is available exactly when every buffer is leased |
| IoCallbacks.ExecuteKeeps | bdev/csrc/spdk/spdk_bdev_context.cpp:776-901 | whatever SPDK answers, one request goes from the worker's hand to one place, buffers stay exclusive, the counters balance and no buffer idles while work waits |
| IoCallbacks.DrainLoopKeeps | bdev/csrc/spdk/spdk_bdev_context.cpp:941-954 | the drain loop ends with no parked request beside a free buffer and serves the queue from the front |
| IoCallbacks.LeaseBounces | bdev/csrc/spdk/spdk_bdev_context.cpp:849-869 | the -ENOMEM and error paths give the buffer back and leave pool and requests exactly as before the attempt |
| IoCallbacks.SubmitKeepsInv | bdev/csrc/spdk/spdk_bdev_context.cpp:808-848 | an accepted request holds a buffer no other request holds, with its bytes staged in it |
| IoDelivery.ArriveKeeps | bdev/csrc/spdk/spdk_bdev_context.cpp:769-806 | a request that comes to a worker gets a buffer only when nobody is parked before it |
| IoDelivery.ArriveAllKeeps | bdev/csrc/spdk/spdk_bdev_context.cpp:769-774 | a dispatch message takes up all its requests in order |
| IoDelivery.RetryKeeps | bdev/csrc/spdk/spdk_bdev_context.cpp:776-806 | a retry re-enters the queue like a new arrival and is counted nowhere twice |
| IoDelivery.CompleteIoKeeps | bdev/csrc/spdk/spdk_bdev_context.cpp:903-926 | a completion returns the buffer, writes the result once and lets parked requests run |
| IoDelivery.ShutdownKeeps | bdev/csrc/spdk/spdk_bdev_context.cpp:598-616 | an orderly stop completes every parked request as a failure before the pool goes |
| IoDelivery.ReadDelivers | bdev/csrc/spdk/spdk_bdev_context.cpp:910-919 | a successful read gives its caller the first bytes of what the device put into that request's own buffer, and writes its result slot for the first time |
| IoMachine.CallbackStep | bdev/csrc/spdk/spdk_bdev_context.cpp:776-975 | a callback of one worker keeps all workers' requests, buffers, batches and counters in order |
| IoMachine.StopStep | bdev/csrc/spdk/spdk_bdev_context.cpp:598-616 | stopping a worker keeps every request in one place and the allocation counter right |
| IoMachine.PostStep | bdev/csrc/spdk/spdk_bdev_context.cpp:730-746 | a message that cannot be posted completes each of its requests once, as a failure |
| IoTheorems.EveryStep | bdev/csrc/spdk/spdk_bdev_context.cpp:677-975 | submission, posting, delivery, completion, retry and both ways of stopping keep the engine's invariant |
| IoTheorems.MailOf | bdev/csrc/spdk/spdk_bdev_context.cpp:696-728 | after a submission exactly the new requests that round robin gives to a worker are on their way to it, besides those already on their way |
| IoTheorems.MailApart | bdev/csrc/spdk/spdk_bdev_context.cpp:702-727 | no request is in two messages or twice in one |
| IoTheorems.ExactlyOnePlace | bdev/csrc/spdk/spdk_bdev_context.cpp:696-750 | in every reachable state each accepted request is undelivered, parked, in flight, awaiting retry or completed, exactly one of these, and holds a buffer exactly while in flight |
| IoTheorems.BuffersAreExclusive | bdev/csrc/spdk/spdk_buffer_pool.cpp:91-128 | while a worker's pool exists no two of its requests share a buffer |
| IoTheorems.WritesAreStaged | bdev/csrc/spdk/spdk_bdev_context.cpp:825-830 | a write in flight has its caller's bytes, zero padded to whole pages, in the buffer the device reads |
| IoTheorems.NoIdleBuffer | bdev/csrc/spdk/spdk_bdev_context.cpp:797-806 | work conservation: parked requests at a running worker mean that every buffer is held by a request in flight, although the -ENOMEM path frees a buffer without draining |
| IoTheorems.StrictArrivalOrder | bdev/csrc/spdk/spdk_bdev_context.cpp:941-954 | buffers go out strictly in the order in which requests reached the worker; no new dispatch overtakes a parked one |
| IoTheorems.WokenOnce | bdev/csrc/spdk/spdk_bdev_context.cpp:956-975 | remaining is the number of incomplete requests; the waiter is woken exactly when it reaches zero; a result slot is filled exactly when its request completed |
| IoResults.SlotTells | bdev/csrc/spdk/spdk_bdev_context.cpp:903-975 | over every run: a request's slot says success if and only if the device completed it so, for a read while its worker had its buffers; it says failure if and only if it completed otherwise; and nothing before it completed |
| IoResults.SlotStays | bdev/csrc/spdk/spdk_bdev_context.cpp:956-975 | a slot once filled says the same for ever |
| IoResults.EveryStepTells | bdev/csrc/spdk/spdk_bdev_context.cpp:677-975 | no step changes a filled slot, and none but a successful completion adds a success |
| IoResults.CompleteTells | bdev/csrc/spdk/spdk_bdev_context.cpp:903-926 | a completion fills its request's slot with the device's result |
| IoResults.PostTells | bdev/csrc/spdk/spdk_bdev_context.cpp:738-745 | a message that cannot be posted leaves every slot of its requests saying failure |
| IoResults.StopTells | bdev/csrc/spdk/spdk_bdev_context.cpp:598-606 | an orderly stop leaves every parked request's slot saying failure |
| IoResults.ExecuteAnswers | bdev/csrc/spdk/spdk_bdev_context.cpp:776-901 | whatever the drain does next, a request whose turn it is flies if SPDK accepts it, waits if a retry was arranged, is parked without a buffer, and otherwise has a slot that says failure |
| IoResults.CountersTell | bdev/csrc/spdk/spdk_bdev_context.cpp:961-968 | succeeded is the number of slots that say success and failed of those that say failure |
| IoTheorems.CountersBalance | bdev/csrc/spdk/spdk_bdev_context.cpp:808-895 | submitted equals completed plus outstanding plus abandoned, succeeded plus failed equals completed, physical plus unused bytes equal segment size times accepted commands, in-use bytes are those of leased buffers and of buffers lost with their pool until the teardown sets them to zero |
| IoTheorems.SubmitBalancesIff | bdev/csrc/spdk/spdk_bdev_context.cpp:709-727 | a submission keeps submitted equal to completed plus outstanding exactly when all items are valid or the first is not: items before an invalid one, such as a null buffer, stay counted |
| IoTheorems.OnlyNullIsInvalid | bdev/csrc/spdk/spdk_bdev_context.cpp:1026-1049 | a command that the connector makes for an entry passes validate_item exactly when the caller's buffer is not null |
| IoExamples.LeakHappens | bdev/csrc/spdk/spdk_bdev_context.cpp:677-727 | a concrete run: a batch of one good item and one with a null buffer leaves submitted above completed plus outstanding |
| IoTheorems.InUseFits | bdev/csrc/spdk/spdk_bdev_context.cpp:808-817 | until a worker stops, in-use bytes equal segment size times leased buffers and fit in the allocated bytes |
| IoTheorems.NoLostWork | bdev/csrc/spdk/spdk_bdev_context.cpp:776-954 | an incomplete request always has a message or callback coming that will move it on, unless its worker was stopped under it |
| IoStranding.StrandsIffParked | bdev/csrc/spdk/spdk_bdev_context.cpp:569-592 | when a secondary worker's stop message cannot be posted, requests are stranded if and only if some are parked there; the orderly stop strands none |
| IoStranding.StrandedForever | bdev/csrc/spdk/spdk_bdev_context.cpp:584-592 | no later message, completion, retry or stop ever completes a stranded request |
| IoStranding.StrandedWaiterSleeps | bdev/csrc/spdk/spdk_bdev_context.cpp:748-749 | the submitter of a stranded request is never woken |
| IoExamples.StrandingHappens | bdev/csrc/spdk/spdk_bdev_context.cpp:569-592 | a concrete run that strands a request: four writes dealt round robin to two one-buffer workers, then a stop to the second worker that cannot be posted |
| SpdkBdevContexts.SpdkBdevContext.CompleteRequest | bdev/csrc/spdk/spdk_bdev_context.cpp:956-975 | in place: the slot and counters of one request, at most once |
| SpdkBdevContexts.SpdkBdevContext.BuildBatch | bdev/csrc/spdk/spdk_bdev_context.cpp:696-728 | in place: the requests and round-robin messages of a whole batch, or the abandoned count of a batch with an invalid item |
| SpdkBdevContexts.SpdkBdevContext.PostDispatch | bdev/csrc/spdk/spdk_bdev_context.cpp:730-746 | in place: the message is sent, or its requests fail in order |
| SpdkBdevContexts.IoWorker.ReleaseBuffer | bdev/csrc/spdk/spdk_bdev_context.cpp:928-939 | in place: lease, in-use bytes and buffer index, errors swallowed |
| SpdkBdevContexts.IoWorker.ExecuteIo | bdev/csrc/spdk/spdk_bdev_context.cpp:776-901 | in place: exactly the specified transition for every answer of SPDK |
| SpdkBdevContexts.IoWorker.DrainPending | bdev/csrc/spdk/spdk_bdev_context.cpp:941-954 | the loop terminates and does what the recursive specification does; a nested drain returns at once |
| SpdkBdevContexts.IoWorker.ExecuteWorkerBatch | bdev/csrc/spdk/spdk_bdev_context.cpp:769-774 | in place: all requests of a message, in order |
| SpdkBdevContexts.IoWorker.RetryIo | bdev/csrc/spdk/spdk_bdev_context.cpp:320-323 | in place: one retry |
| SpdkBdevContexts.IoWorker.CompleteIo | bdev/csrc/spdk/spdk_bdev_context.cpp:903-926 | in place: copy, release, completion and drain |
| SpdkBdevContexts.IoWorker.ShutdownIoWorker | bdev/csrc/spdk/spdk_bdev_context.cpp:598-616 | in place: parked requests fail in order, then the pool is released |
| ShutdownHandshakes.TeardownIsOrderly | bdev/csrc/spdk/spdk_bdev_context.cpp:507-664 | under any interleaving of close, resize, remove and lost messages: teardown starts at most once, each worker is acknowledged at most once, the descriptor is closed exactly when all are acknowledged, once, and only after all released |
| ShutdownHandshakes.TeardownCompletes | bdev/csrc/spdk/spdk_bdev_context.cpp:618-656 | a started teardown that lost no acknowledgement is finished once no message is left |
| ShutdownHandshakes.SendStopsKeeps | bdev/csrc/spdk/spdk_bdev_context.cpp:569-594 | acknowledgements given on the spot never end the teardown early: the application worker comes last |
| ShutdownHandshakes.CloseReturnsIff | bdev/csrc/spdk/spdk_bdev_context.cpp:253-275 | once nothing is on its way, a caller of close gets out if and only if the teardown was requested and no worker's answer was lost; it was not requested only if the runtime had gone before |
| ShutdownHandshakes.CompleteMeansClosed | bdev/csrc/spdk/spdk_bdev_context.cpp:253-275 | unless a begin message could not be posted, the wait in close ends only after every worker released its resources, every answer was counted and the descriptor was closed |
| ShutdownHandshakes.CloseHangs | bdev/csrc/spdk/spdk_bdev_context.cpp:271-275 | a caller of close that does not get out then never does, whatever still happens |
| ShutdownHandshakes.HangsHappen | bdev/csrc/spdk/spdk_bdev_context.cpp:526-533 | both ways to hang have a run: the runtime goes before close, or a worker's answer cannot be posted |
| ShutdownHandshakes.AnswerCounts | bdev/csrc/spdk/spdk_bdev_context.cpp:634-656 | an answer lowers the count by one and leaves every other worker's standing alone; the descriptor is closed by the last one and by no other |
| ShutdownHandshakes.LastAnswer | bdev/csrc/spdk/spdk_bdev_context.cpp:634-664 | counting a released worker's answer keeps the teardown in order: still waiting for somebody, or finished with the descriptor closed once |
| ShutdownHandshakes.Lifecycle.RequestShutdown | bdev/csrc/spdk/spdk_bdev_context.cpp:517-551 | in place: only the first caller posts |
| ShutdownHandshakes.Lifecycle.BeginShutdown | bdev/csrc/spdk/spdk_bdev_context.cpp:553-596 | in place: the loop over secondary workers, then the application worker |
| ShutdownHandshakes.Lifecycle.OnIoWorkerShutdown | bdev/csrc/spdk/spdk_bdev_context.cpp:634-646 | in place: the count, and the finish after the last answer |
| ShutdownHandshakes.Lifecycle.CloseBegins | bdev/csrc/spdk/spdk_bdev_context.cpp:253-270 | in place: the first close requests teardown or declares it complete |
| KvFormat.MaterialInjective | nvme-kv/src/lmcache_spdk_connector_kv/kv_format.py:179-184 | domain, identity and fixed-width index can be read back from the hashed material, whatever the identities are |
| KvFormat.CollisionsComeFromHash | nvme-kv/src/lmcache_spdk_connector_kv/kv_format.py:179-184 | if the first 16 bytes of the hash tell the materials of the records in use apart, no two of these records share a key |
| KvFormat.ManifestRoundTrip | nvme-kv/src/lmcache_spdk_connector_kv/kv_format.py:98-137 | every manifest that can be encoded is read back, and whatever is read is valid |
| KvFormat.JoinSplit | nvme-kv/src/lmcache_spdk_connector_kv/kv_format.py:75-81 | the chunks joined in order are the payload |
| KvFormat.SplitAt | nvme-kv/src/lmcache_spdk_connector_kv/kv_format.py:75-81 | chunk i holds its own range of the payload and every chunk but the last is full |
| KvFormat.PlanExistsIff | nvme-kv/src/lmcache_spdk_connector_kv/kv_format.py:59-95 | exactly when make_object_plan succeeds |
| KvFormat.PlanRoundTrip | nvme-kv/src/lmcache_spdk_connector_kv/kv_format.py:59-95 | the plan's manifest decodes to itself and validates its own chunks back to the payload; all keys are 16 bytes and all values fit the device |
| KvFormat.UnhexHex | nvme-kv/src/lmcache_spdk_connector_kv/kv_format.py:85-90 | the hexadecimal digest, read digit by digit, spells the digest |
| KvFormat.ValidatedDigest | nvme-kv/src/lmcache_spdk_connector_kv/kv_format.py:150-164 | a payload that validates has the length and the digest its manifest states and is its chunks joined |
| KvFormat.PlannedDigest | nvme-kv/src/lmcache_spdk_connector_kv/kv_format.py:82-88 | the manifest of a plan states the payload's own length and digest |
| KvMachine.FinishIsAfter | nvme-kv/src/lmcache_spdk_connector_kv/kv_store.py:57-124 | every call ends after finitely many engine operations |
| KvMachine.LoaderReads | nvme-kv/src/lmcache_spdk_connector_kv/kv_store.py:87-107 | the load protocol run alone returns the verified object or nothing |
| KvMachine.LoadedDigest | nvme-kv/src/lmcache_spdk_connector_kv/kv_store.py:87-107 | whatever loads has the length and the digest that its manifest states |
| KvMachine.CorruptionIsAMiss | nvme-kv/src/lmcache_spdk_connector_kv/kv_store.py:103-107 | under a published manifest, chunk records that join to a payload of another digest load as nothing |
| KvPublication.PublicationIsSafe | nvme-kv/src/lmcache_spdk_connector_kv/kv_store.py:57-107 | in every run of any number of storing and loading clients with crashes and no deletes: a valid manifest has all its chunks, an identity whose store returned true loads as that payload, and at most one store per identity returned true |
| KvPublication.VisibleForEver | nvme-kv/src/lmcache_spdk_connector_kv/kv_store.py:87-107 | without deletes, what load returns for a visible identity never changes again |
| KvPublication.LoadsAreAtomic | nvme-kv/src/lmcache_spdk_connector_kv/kv_store.py:87-107 | a load whose reads interleave with stores returns what a single look at the device would |
| KvPublication.AlreadyStoredIsLoadable | nvme-kv/src/lmcache_spdk_connector_kv/kv_store.py:147-156 | a store that returns false found a loadable object of the same length and checksum |
| KvPublication.LatecomersAgree | nvme-kv/src/lmcache_spdk_connector_kv/kv_store.py:63-66 | beside or after a published store of an identity, another one reports the object as already there exactly when it asks for the same manifest, a conflict otherwise |
| KvPublication.ChunkIsNoManifest | nvme-kv/src/lmcache_spdk_connector_kv/kv_format.py:179-184 | a chunk never turns up under the manifest key of an object in use |
| KvCrash.StoreCrash | nvme-kv/src/lmcache_spdk_connector_kv/kv_store.py:57-85 | a store cut off after any number of operations: manifests stay complete, its identity loads as before or as the payload, others as before |
| KvCrash.DeleteCrash | nvme-kv/src/lmcache_spdk_connector_kv/kv_store.py:109-124 | a delete cut off after any number of operations: its identity loads as before or not at all, others as before |
| KvCrash.StoreSucceedsIff | nvme-kv/src/lmcache_spdk_connector_kv/kv_store.py:57-85 | a store on a quiet device succeeds exactly when no manifest and no differing chunk stands in the way, or the same manifest is already there |
| KvCrash.StoreTells | nvme-kv/src/lmcache_spdk_connector_kv/kv_store.py:57-85 | a store reports that it published exactly when the manifest's record was absent and is now its own, that the object was there exactly when nothing changed and the record decodes to the same manifest, and a conflict otherwise |
| KvCrash.RetrySucceedsIff | nvme-kv/src/lmcache_spdk_connector_kv/kv_store.py:57-85 | a store cut off anywhere and retried with the same payload succeeds exactly when the identity's manifest was absent and no chunk record differed, or the same manifest was there, before the first attempt; then what it published loads as the payload |
| KvCrash.OrphanBlocks | nvme-kv/src/lmcache_spdk_connector_kv/kv_store.py:70-76 | a chunk left behind by another payload makes the store conflict and leaves the identity invisible |
| KvCrash.OrphanFromCrash | nvme-kv/src/lmcache_spdk_connector_kv/kv_store.py:68-76 | a store of another payload cut off past a chunk that differs makes the next store of the identity conflict |
| KvCrash.DropFinishes | nvme-kv/src/lmcache_spdk_connector_kv/kv_store.py:122-124 | a delete removes exactly the chunk records its manifest counts |
| KvCrash.DeleteUndoesStore | nvme-kv/src/lmcache_spdk_connector_kv/kv_store.py:57-124 | storing a new object and deleting it again restores every record of the device |
| KvCrash.DeleteTells | nvme-kv/src/lmcache_spdk_connector_kv/kv_store.py:109-124 | a delete reports true exactly when it removed the manifest's record; it never adds or changes a record and removes none but the manifest and the chunks it counts |
| KvCrash.DeleteRace | nvme-kv/src/lmcache_spdk_connector_kv/kv_store.py:109-124 | a concrete interleaving of one delete and one store of an identity that leaves a manifest without its chunk; load then reports a miss |
| KvDeletion.DeletingIsSafe | nvme-kv/src/lmcache_spdk_connector_kv/kv_store.py:57-124 | in every run of any number of storing, loading and deleting clients with crashes in which no delete of an identity overlaps a store of it, every valid manifest has all its chunks |
| KvDeletion.ApartStep | nvme-kv/src/lmcache_spdk_connector_kv/kv_store.py:57-124 | in such a run each operation changes what at most one identity loads as: a publication from nothing to its payload, a delete to nothing |
| KvDeletion.ApartStoreLoads | nvme-kv/src/lmcache_spdk_connector_kv/kv_store.py:78-80 | in such a run a store that reports success has made its payload loadable at that moment |
| KvDeletion.OthersFollow | nvme-kv/src/lmcache_spdk_connector_kv/kv_store.py:57-124 | an operation takes nothing away from what a client it does not overlap has established |
| KvLoss.IncompleteIff | nvme-kv/src/lmcache_spdk_connector_kv/kv_store.py:57-124 | in every run of storing, loading and deleting clients with crashes, overlapping or not: an object with a visible manifest loads as nothing only if a delete took one of its chunks after its store had found or put it there, and it does so if nothing was stored in that place |
| KvLoss.LostIff | nvme-kv/src/lmcache_spdk_connector_kv/kv_store.py:57-124 | a visible manifest misses a chunk it was published over exactly when that chunk is among those deleted since and not stored again; with none missing the object loads |
| KvLoss.FoundIsNotGone | nvme-kv/src/lmcache_spdk_connector_kv/kv_store.py:70-77 | a chunk that a store has just put or found is not among the deleted ones, so a loss is always later than the find |
| KvLoss.EveryLooseStep | nvme-kv/src/lmcache_spdk_connector_kv/kv_store.py:57-124 | every operation of every kind of client keeps the record of what was published over which chunks and what was deleted since |
| KvObjectStores.KvObjectStore.Store | nvme-kv/src/lmcache_spdk_connector_kv/kv_store.py:57-85 | the loop over an engine changed in place does what the lone storing client does; for a plan whose chunks do not share the manifest's key, it returns true exactly when the manifest's record was absent and is now the plan's, false exactly when nothing changed and the record decodes to the plan's manifest, and a conflict otherwise |
| KvObjectStores.KvObjectStore.Load | nvme-kv/src/lmcache_spdk_connector_kv/kv_store.py:87-107 | returns the verified object, whose length and digest are those its manifest states, or nothing; an empty identity is an error |
| KvObjectStores.KvObjectStore.Delete | nvme-kv/src/lmcache_spdk_connector_kv/kv_store.py:109-124 | does what the lone deleting client does: true exactly when the manifest's record was there and is gone, and false only when nothing changed |
| KvObjectStores.KvObjectStore.RecoverIdentities | nvme-kv/src/lmcache_spdk_connector_kv/kv_store.py:126-145 | for every device content: in strictly ascending order exactly the identities for which load succeeds |
| KvObjectStores.SortIsRight | nvme-kv/src/lmcache_spdk_connector_kv/kv_store.py:145-145 | sorting keeps the elements and orders them bytewise |
| KvObjectStores.AtMostIs | nvme-kv/src/lmcache_spdk_connector_kv/kv_store.py:145-145 | comparing byte by byte is the order in which the first differing byte decides and a proper prefix comes first |
| KvObjectStores.OnlyNamed | nvme-kv/src/lmcache_spdk_connector_kv/kv_store.py:141-142 | a key names at most one identity, the one in the manifest under it |
| StoreSteps.BeginStep | bdev/csrc/spdk_connector.cpp:137-138 | a request enters with its sorted list of distinct key locks |
| StoreSteps.AcquireStep | bdev/csrc/spdk_connector.cpp:285-288 | taking the next lock in order keeps the lock table and every worker's list in agreement |
| StoreSteps.UnlockStep | bdev/csrc/spdk_connector.cpp:138-169 | locks are dropped one by one with nobody else's lock touched |
| StoreSteps.TakeStep | bdev/csrc/spdk_connector.cpp:186-187 | a reservation takes its pages out of the free set and is nobody else's |
| StoreSteps.UnpublishStep | bdev/csrc/spdk_connector.cpp:225-226 | a delete moves the entry from the key to retirement: the key is gone, its pages are not free yet |
| StoreSteps.DeviceStep | bdev/csrc/spdk_connector.cpp:191-199 | bytes put on the device inside a store's own reservation are invisible to everybody else |
| StoreSteps.WrittenStays | bdev/csrc/spdk_connector.cpp:191-199 | a finished command's range survives every other command of the same store |
| StorePublication.ReservationHoldsBuffer | bdev/csrc/spdk_connector.cpp:191-208 | a reservation whose commands all succeeded holds the caller's bytes |
| StorePublication.PublishStep | bdev/csrc/spdk_connector.cpp:207-208 | publication keeps the invariant and adds one store to the history |
| StorePublication.RollBackStep | bdev/csrc/spdk_connector.cpp:200-206 | rolling back frees the reservations one by one, invisibly to readers |
| StorePublication.RetireStep | bdev/csrc/spdk_connector.cpp:209-211 | replaced entries are freed one by one, invisibly to readers |
| StoreTheorems.ReadCommandStep | bdev/csrc/spdk_connector.cpp:152-160 | a finished read command puts its bytes in place and leaves the other commands' bytes there |
| StoreTheorems.FinishReadStep | bdev/csrc/spdk_connector.cpp:152-168 | when all read commands are done, every key still marked successful holds its value |
| StoreTheorems.ReachableInv | bdev/csrc/spdk_connector.cpp:104-229 | the invariant holds in every reachable state |
| StoreProgress.RunnableMoves | bdev/csrc/spdk_connector.cpp:104-229 | a worker that waits for no lock can always take its next step |
| IoMachine.CompleteStep | bdev/csrc/spdk/spdk_bdev_context.cpp:903-926 | a completion keeps the whole engine in order |
| IoMachine.RetryStep | bdev/csrc/spdk/spdk_bdev_context.cpp:320-323 | a retry keeps the whole engine in order |
| IoMachine.DeliverStep | bdev/csrc/spdk/spdk_bdev_context.cpp:769-774 | a delivered message moves exactly its requests from the mail to the worker |
| IoMachine.StrandStep | bdev/csrc/spdk/spdk_bdev_context.cpp:584-592 | dropping a pool without failing its queue keeps the books, if not the promise |
| IoMachine.FinishStep | bdev/csrc/spdk/spdk_bdev_context.cpp:648-656 | with every pool gone, setting the in-use bytes to zero keeps the books |
| IoTheorems.SubmitStep | bdev/csrc/spdk/spdk_bdev_context.cpp:677-728 | a submission adds its requests to the mail and its batch to the books |
| IoTheorems.RunKeepsInv | bdev/csrc/spdk/spdk_bdev_context.cpp:677-975 | the engine's invariant holds after every run |
| ShutdownHandshakes.BeginKeeps | bdev/csrc/spdk/spdk_bdev_context.cpp:553-596 | begin_shutdown accounts for every worker once, whichever stop messages could be posted |
| ShutdownHandshakes.StopKeeps | bdev/csrc/spdk/spdk_bdev_context.cpp:598-632 | a stopped worker is released and its answer is on its way or lost |
| ShutdownHandshakes.AcknowledgeKeeps | bdev/csrc/spdk/spdk_bdev_context.cpp:634-646 | an answer is counted once; the last one finishes the teardown |
| KvPublication.StepKeeps | nvme-kv/src/lmcache_spdk_connector_kv/kv_store.py:57-107 | storing and loading clients only add records and keep what they have established |
| KvPublication.LoadedGrows | nvme-kv/src/lmcache_spdk_connector_kv/kv_store.py:87-107 | whatever can be loaded once can be loaded for ever, unchanged, while records are only added |
| KvPublication.Complete | nvme-kv/src/lmcache_spdk_connector_kv/kv_store.py:68-78 | a manifest over all its chunks is the whole object |
| KvPublication.ManifestKeepsSound | nvme-kv/src/lmcache_spdk_connector_kv/kv_store.py:78-79 | publishing over a full set of chunks makes the object visible and no other manifest incomplete |
| KvPublication.ChunkKeepsSound | nvme-kv/src/lmcache_spdk_connector_kv/kv_store.py:70-71 | a chunk put makes no manifest incomplete |
| KvCrash.StoreStep | nvme-kv/src/lmcache_spdk_connector_kv/kv_store.py:68-84 | one operation of a lone store changes at most what its own identity loads as |
| KvCrash.DeleteStep | nvme-kv/src/lmcache_spdk_connector_kv/kv_store.py:111-124 | hiding a manifest removes one object; removing records of a hidden object changes nothing |
| KvCrash.PutsFinish | nvme-kv/src/lmcache_spdk_connector_kv/kv_store.py:70-79 | from any chunk on, a lone store is published exactly when no chunk record differs |
| KvCrash.FreshStore | nvme-kv/src/lmcache_spdk_connector_kv/kv_store.py:70-79 | a store of a new object adds exactly its records |
| KvObjectStores.KvEngine.StoreIfAbsent | nvme-kv/src/lmcache_spdk_connector_kv/kv_store.py:34-35 | a record is stored only when its key is absent |
| KvObjectStores.KvEngine.ListKeys | nvme-kv/src/lmcache_spdk_connector_kv/kv_store.py:43-44 | a snapshot lists every key once |
| KvMachine.PutUnfolds | nvme-kv/src/lmcache_spdk_connector_kv/kv_store.py:70-76 | one round of the chunk loop: stored, found equal, or conflict |
| KvMachine.DeleteUnfolds | nvme-kv/src/lmcache_spdk_connector_kv/kv_store.py:109-121 | what a delete does with an absent, malformed, foreign or valid manifest |

## Left out

- StoreSystem publishes all keys of a batch in one step: the source assigns them one after the other, but under all
  their locks, where no other worker can look.
- StoreSystem gives every key state a fixed address from the start: the source creates states on first use and never
  drops them. Key states without an entry are not distinguished from keys never seen.
- StoreSystem lets the allocator hand out any free pages that fit, where PageExtentAllocators proves that they are the
  lowest; this only adds runs.
- Contents of a caller's buffer after a load of that key failed are not specified.
- SpdkConnectors.SpdkConnector.DoBatchSet: collects the commands of all reservations after the reservation loop, where the source
  appends them inside it; both see the same reservations.
- The I/O engine checks and carries the device offset of a command but does not interpret it; the connector proofs do.
  Block numbers (offset and length divided by the block size) are not modelled.
- IoTheorems.CountersBalance: relates the byte and acceptance counters to each other but does not count what SPDK accepted, and of
  the peak says only that it is never below the bytes in use; counters are unbounded integers, not 64-bit words; wait times and starvation counts are not modelled.
- ShutdownHandshakes.TeardownCompletes: assumes that no acknowledgement was lost; ShutdownHandshakes.CloseReturnsIff says what happens
  when one was.
- Construction failures.
- IoMachine.FinishStep: resets the counter at any time when no pool is left; that the teardown comes to this point is
  ShutdownHandshakes.TeardownCompletes.
- KvDeletion says nothing of what a load returns when a delete hides its object between two of its reads.
- KvFormat takes identities as bytes: the UTF-8 encoding of string identities is not modelled, nor are the type checks
  of dynamically typed arguments.
- SHA-256, JSON, base64 and what Python accepts as a hexadecimal number are parameters.
- SPDK and DPDK themselves, LMCache's request queues and event descriptors, the Python bindings, CPU pinning, log
  parsing, the SPDK application's start and stop, and the native NVMe-KV command layer.
