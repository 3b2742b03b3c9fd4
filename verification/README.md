# Bake: a verified model of the storage backends and of the structures under them

Bake stores regions of bytes on targets. A provider keeps a registry of targets and serves RPCs on
them; a target lives in a backend, either one append-only log file accessed with direct I/O, or a
persistent memory pool. This project models that logic in Dafny and proves what it promises, for all
inputs, all interleavings and all runs. `dafny verify dfyconfig.toml` checks everything.

## The parts

- **Chunked transfer** (`Transfer`, `TransferInvariant`, `TransferData`, `TransferTheorems`,
  `TransferResults`, `TransferSucceeds`, `TransferErrors`): `transfer_data` and its `xfer_ult` workers as a state
  machine. A worker is a program counter with its `this_*` locals. A section under the mutex is one
  step; each I/O, each unlocked test of `ret` and each unlocked store to it is a step of its own. The
  answers of I/O calls are the environment's, and so are changes others make to the log outside the
  extent.
- **File backend** (`FileBackend`, `FileBackendTheorems`, `FileBackendCalls`): one log seen by its
  clients as a map from regions to bytes. The two halves of creates, removes, eager reads and writes
  interleave with single steps of any number of bulk transfers, which run the protocol above on the
  shared log. A view says of each byte of a region whether its value may be relied on.
  `FileBackendCalls.Backend` is the backend's entry with its fields; its methods follow the C bodies and
  are proved to be the events.
- **Split creates and crashes** (`SplitCreate`, `Durability`): creates whose end block comes after
  anything else has happened, other creates included; and what a crash leaves of the log, each byte in
  one of the versions it has had since the last sync, over any number of crashes and reopens.
- **Log allocator** (`LogAllocator`): the reserve, end-block and sync steps of concurrent creates, with
  crashes and reopens anywhere between them.
- **Pmem write** (`Pmem`): the pipelined write is the transfer protocol with no skipped head and a
  second I/O that cannot fail; the direct write beside it is the specification.
- **uthash** (`HashItems`, `HashChains`, `HashTable`, `HashFsck`, `HashSort`, `HashSortList`): the macros
  as methods on linked items. `HashChains` and `HashSort` say on sequences what the loops compute;
  `Table.Valid` is what `HASH_FSCK` checks, and more.
- **Base64 and region ids** (`Base64`, `Base64Alphabet`, `Base64Codec`, `RegionId`): the codec as
  functions on strings, section 4 of RFC 4648 beside it with its literal alphabet, the C loops over
  their small buffers, and the region-id text around them.
- **Provider** (`Registry`, `LockProtocol`, `LockInvariant`, `LockTheorems`, `LockEffects`,
  `LockPaths`): the registry's operations over the hash table, and handlers, migration, attach, detach and listing as threads that interleave
  under the reader-writer lock.
- `Bits` holds the word arithmetic the others use.

## What the code does that its comments and names do not say

Each of these is a lemma; the model follows the code.

- `transfer_data` says that it returns the first error code. `ret` is tested and stored outside the
  mutex, so a later error can replace an earlier one. The first one is returned in every schedule if and
  only if the extent fits in one pool buffer (`TransferErrors.FirstErrorReturned`). What is returned is
  always the last value stored (`TransferTheorems.ReturnCode`).
- A log I/O that reports zero bytes stores 0, and the error is lost. The return code can be trusted if
  and only if that never happens (`TransferErrors.TruthfulIff`).
- A transfer whose extent is empty starts no worker, and its caller waits for ever
  (`TransferTheorems.EveryScheduleReturns`).
- `write_raw` and `read_raw` compare the byte count with the alignment instead of the length. Complete
  eager I/O therefore succeeds exactly for one block (`FileBackendTheorems.EagerWriteCode`,
  `FileBackendTheorems.EagerReadAnswers`), and I/O on a longer extent that stops after one block
  reports success (`FileBackendTheorems.ShortReadSucceeds`, `FileBackendTheorems.ShortWriteSucceeds`).
- `read_bulk` reports the requested size as bytes read, also when the bulk offset makes it move fewer
  (`FileBackendCalls.BytesReadExact`).
- `create` reads `log_offset` again after the unlock to place its end block. The block is stored in the
  create's own extent if and only if the size is positive and nobody has reserved before that read
  (`SplitCreate.EndBlockAtHome`); otherwise it can destroy data in a region already handed out
  (`SplitCreate.OvertakenCreateLosesData`) or, for a create of no bytes on a new log, the end of the
  superblock (`SplitCreate.EmptyCreateHitsSuperblock`). The block is not cleared.
- With sync off a region can be handed out twice (`LogAllocator.UnsyncedRegionsCanOverlap`), and a
  persist reports success for data that a crash can take away (`Durability.UnsyncedPersistLoses`).
- `bake_region_id_from_string` copies twenty bytes without looking at how many were decoded. They are
  there if and only if the text starts with at least 26 alphabet characters (`RegionId.EnoughText`,
  `RegionId.ShortTextOverruns`).
- `detach_target` does not count down `num_targets` (`Registry.CounterLags`,
  `Registry.DetachLeavesCounter`), so a probe answers with more slots than targets. It counts and lists
  in two locked sections, and its slots suffice only if the registry has not grown in between by more
  than that lag (`Registry.ProbeFits`, `Registry.ProbeRace`).
- The alignment test at initialization also lets 0 through (`Bits.AlignmentTest`).

## What is assumed

- The alignment is a power of two, at least 1 and at most the largest pool buffer; the log is a whole
  number of blocks when it is opened. In `FileBackend` created sizes are positive and no other create
  reserves between the two halves of one; `SplitCreate` has neither assumption.
- Where the log's contents are claimed of a bulk transfer that returned 0, none of its log I/O reported
  zero bytes; that no other region and no superblock byte changes does not depend on it.
- The bulk offset is at most the bulk size. `poolset_get` blocks until it succeeds; allocation succeeds.
- RDMA copies bytes; `pread` and `pwrite` access the log; one that reports the full count did all of it. `fdatasync`
  makes the whole log durable; a crash keeps each later byte or loses it.
- Keys in a hash table and target ids in a registry are distinct.
- Clients do not overlap a write or a remove of a region with another operation on the same region.

## Model

| member | source | states |
|---|---|---|
| Bits.AndLowMask | src/uthash.h:220-223 | masking with one less than a power of two is the remainder by it, for every number |
| Bits.MacrosRound | src/bake-file-backend.c:32-35 | for every power of two of a 64-bit word the two mask macros are exact rounding down and up, as long as the sum does not wrap |
| Bits.AlignFacts | src/bake-file-backend.c:32-35 | rounding moves by less than the alignment and ends on a multiple |
| Bits.AlignOptimal | src/bake-file-backend.c:32-35 | no other multiple lies between a number and its rounding, on either side |
| Bits.AlignmentTest | src/bake-file-backend.c:299-312 | the bit test at initialization accepts exactly zero and the powers of two |
| Transfer.ClaimArithmetic | src/bake-file-backend.c:853-878 | the incremental chunk arithmetic is a closed form: no subtraction underflows, skip plus transmit fits in the chunk, the running total is min(issued - skip, transmit) |
| TransferTheorems.SetupFits | src/bake-file-backend.c:754-778 | the extent is in bounds exactly as tested, block aligned, inside its region, and empty exactly for an aligned access of no bytes; operation, buffer size, remote start and byte count are those asked for |
| TransferTheorems.CountUlts | src/bake-file-backend.c:787-791 | the counting loop gives ceil(extent / buffer size) within a 32-bit counter, so ults_active is final before any worker starts |
| TransferInvariant.CoreStep | src/bake-file-backend.c:811-970 | every step of every worker keeps: claims tile the issued prefix, each claim has one owner, the life-cycle counts agree with ults_active, errors are accounted for |
| TransferData.DataStep | src/bake-file-backend.c:895-940 | every step keeps: buffers hold the bytes they should, and a chunk whose I/Os succeeded has its bytes in place on both sides |
| TransferTheorems.RunHolds | src/bake-file-backend.c:740-970 | the whole invariant holds in every state of every schedule |
| TransferTheorems.TeardownInEverySchedule | src/bake-file-backend.c:952-967 | the mutex is freed once, after the last decrement, and never locked again; the eventual is set once, when every worker has made its decrement |
| TransferTheorems.EveryScheduleReturns | src/bake-file-backend.c:790-807 | every schedule makes boundedly many steps and can only stop when the caller has returned; an empty extent never returns |
| TransferTheorems.CanFinish | src/bake-file-backend.c:811-970 | from every reachable state the transfer can be driven to its return |
| TransferTheorems.ReturnCode | src/bake-file-backend.c:804-807 | the result is the last value stored to ret, 0 if none; nothing was stored exactly when every chunk was issued, both its I/Os succeeded and it was retired, and then log_retired is the whole extent |
| TransferTheorems.ToldRun | src/bake-file-backend.c:884-940 | when no log I/O reports zero bytes, ret never goes back to zero |
| TransferTheorems.ZeroMeansDelivered | src/bake-file-backend.c:853-948 | in a schedule in which no log I/O reports zero bytes the transfer returns 0 exactly when every chunk was delivered |
| TransferTheorems.DeliveredBytes | src/bake-file-backend.c:853-948 | if every chunk was delivered, each byte crossed the network in exactly one chunk, once, and log and remote agree on it |
| TransferSucceeds.SomeScheduleSucceeds | src/bake-file-backend.c:740-970 | for every non-empty transfer between ranges that exist there is a schedule that returns 0 with every chunk delivered |
| TransferSucceeds.SucceedFrom | src/bake-file-backend.c:853-948 | from every reachable state in which nothing has failed the transfer can still return without a failure |
| TransferResults.StepTouches | src/bake-file-backend.c:895-933 | no step, failed I/O included, changes a log byte outside the extent or a remote byte outside the requested range |
| TransferResults.ReadDelivers | src/bake-file-backend.c:761-948 | after a read that delivered all, the remote range holds the log bytes as they were at the start, each sent once; other remote bytes never change |
| TransferResults.WriteDelivers | src/bake-file-backend.c:754-919 | after a write to an extent that starts with its region, that delivered all, the log holds the remote bytes; the remote buffer never changes |
| TransferResults.MisalignedWriteLandsEarly | src/bake-file-backend.c:761-778 | with a skipped head a write that delivered all puts its whole first chunk that many bytes early: over what precedes the region, which then starts in the middle of the remote range |
| TransferResults.Bookkeeping | src/bake-file-backend.c:875-948 | in every state issued bytes are retired, in flight or given up; the transmit counter is min(issued - skip, transmit); no chunk is sent twice |
| TransferResults.ChunksAligned | src/bake-file-backend.c:857-863 | when the alignment divides the buffer size every access to the log is aligned |
| TransferErrors.OneErrorRun | src/bake-file-backend.c:884-940 | an extent of one buffer records at most one error in every schedule |
| TransferErrors.SecondErrorReturned | src/bake-file-backend.c:884-940 | for every extent of more than one buffer, read or write, a schedule from the start records two errors and returns the second |
| TransferErrors.FirstErrorReturned | src/bake-file-backend.c:804-807 | every schedule that records an error returns the first one if and only if the extent fits in one pool buffer |
| TransferErrors.ClaimsStop | src/bake-file-backend.c:853 | once ret is not zero no worker takes another chunk, in any further schedule without zero-byte log I/O |
| TransferErrors.ZeroBytesAreLost | src/bake-file-backend.c:895-933 | for every non-empty transfer, read or write, the schedule whose log I/O reports zero bytes returns 0 with no chunk retired |
| TransferErrors.TruthfulIff | src/bake-file-backend.c:853-948 | over all schedules with allowed log I/O counts, 0 is returned exactly when all was delivered, if and only if the count 0 is not allowed |
| LogAllocator.RegionsNeverOverlap | src/bake-file-backend.c:366-420 | with sync on, after any interleaving of creates, crashes and reopens all regions handed out are disjoint, past the superblock and within the durable file |
| LogAllocator.RegionsAligned | src/bake-file-backend.c:376-383 | offsets and sizes stay multiples of the alignment if every length the log is opened at is one |
| LogAllocator.CreateAlone | src/bake-file-backend.c:366-420 | an undisturbed create hands out the space asked for, rounded up to blocks, at the next offset, and with sync on within the durable file |
| LogAllocator.DurableNeverShrinks | src/bake-file-backend.c:376-416 | over any run, hole punching, crashes and reopens included, with sync on or off, the length that survives a crash never decreases |
| SplitCreate.EndBlockAtHome | src/bake-file-backend.c:376-405 | whatever runs between reservation, second read of the offset and end block, the block falls in its own extent if and only if the size was positive and nobody reserved before the read; otherwise all of it falls outside |
| SplitCreate.EndBlockTouches | src/bake-file-backend.c:376-405 | in the first case no byte outside the extent changes, whatever ran in between; in the second any region that lies there now holds the block |
| SplitCreate.OvertakenBy | src/bake-file-backend.c:376-405 | a create that was overtaken stores its block in the extent reserved last before its read |
| SplitCreate.EmptyCreateHitsSuperblock | src/bake-file-backend.c:376-405 | on a log with nothing but the superblock a create of no bytes that is not overtaken stores its block over the superblock's end |
| SplitCreate.OvertakenCreateLosesData | src/bake-file-backend.c:376-405 | from every state there is a run in which a region handed out and completely written loses its data to another create's end block |
| LogAllocator.UnsyncedRegionsCanOverlap | src/bake-file-backend.c:410-416 | with sync off, for every alignment and length, some run hands out the same region twice |
| FileBackend.StepInv | src/bake-file-backend.c:366-674 | every event, I/O that reports zero bytes and each half of a create included, keeps the log a picture of every region's view and every transfer in flight sound |
| FileBackendTheorems.LogRefinesViews | src/bake-file-backend.c:366-674 | the same for every run: the log refines the map from regions to bytes |
| FileBackendTheorems.OnlyOwnRegion | src/bake-file-backend.c:366-674 | whatever an event does, failed I/O of every kind included, every byte of every other region stays |
| FileBackendTheorems.SuperblockKept | src/bake-file-backend.c:276-277 | no event changes the superblock; creates of no bytes, which can, are not among the events |
| FileBackendTheorems.BulkReadAnswers | src/bake-file-backend.c:587-612 | a bulk read that returned 0 delivered the region's bytes, agreeing with everything known of them |
| FileBackendTheorems.BulkReadReads | src/bake-file-backend.c:587-612 | whatever runs in between, a bulk read that returned 0 put the region's bytes from the region offset on at the bulk offset of the client's buffer, as many as asked for, and left the rest of the buffer alone |
| FileBackendTheorems.EagerReadAnswers | src/bake-file-backend.c:545-585 | a complete eager read succeeds exactly when the request lies in one block, and delivers the region's bytes |
| FileBackendTheorems.EagerAndBulkAgree | src/bake-file-backend.c:523-612 | both successful, for a request in one block, they deliver the same bytes |
| FileBackendTheorems.ShortReadSucceeds | src/bake-file-backend.c:566-572 | for every longer request there are two successful eager reads that deliver different bytes |
| FileBackendTheorems.FreeFindsBuffer | src/bake-file-backend.c:516-521 | rounding the caller's pointer down gives the start of the bounce buffer |
| FileBackendTheorems.EagerWriteCode | src/bake-file-backend.c:441-478 | a complete eager write reports success if and only if it starts the region and fits in one block |
| FileBackendTheorems.ShortWriteSucceeds | src/bake-file-backend.c:466-472 | for every longer write a pwrite that stops after one block reports success, and the log has the data only if its rest was there before |
| FileBackendTheorems.EagerCreateWritePersist | src/bake-server.c:697-713 | the region is new and has room, after a complete write the log has the data, and the code is success exactly for one block |
| FileBackendTheorems.ReadAfterWrite | src/bake-file-backend.c:423-612 | after a bulk write that returned 0 or a complete eager write, and any run that does not write or remove the region, the log has the data, and every bulk read that returns 0 and every complete eager read inside it delivers it |
| FileBackendTheorems.PastTheEndKept | src/bake-file-backend.c:505-507 | from the start of a bulk write, over any run while it is in flight and past its end, every byte of the region past the rounded-up end keeps its value |
| FileBackendTheorems.EagerRestKept | src/bake-file-backend.c:461-472 | an eager write, complete or not, leaves every byte past its rounded-up end alone |
| FileBackendTheorems.BulkWriteWrites | src/bake-file-backend.c:481-510 | whatever runs in between, a bulk write that returned 0 wrote the source it was started with |
| FileBackendTheorems.BulkCreateWrite | src/bake-server.c:657-672 | create and bulk write composed: the region is new and has room, and when the write returns 0 its start is the source, over any run that does not write or remove it |
| FileBackendCalls.Backend.constructor | src/bake-file-backend.c:269-277 | a log of whole blocks opens with the next offset at its end and no region handed out |
| FileBackendCalls.Backend.Create | src/bake-file-backend.c:366-420 | the call is the two events of a create; on success the region is new, has room and ends the file, and with sync on a crash leaves the log as it is; a create of no bytes stores its block over what precedes it |
| FileBackendCalls.Backend.WriteRaw | src/bake-file-backend.c:423-478 | the call is the eager write event; it is unsupported for another offset, out of bounds if it does not fit, and otherwise succeeds exactly if one block was reported; after a success of at most one block the log has the data at the region's start; empty data never succeeds |
| FileBackendCalls.Backend.ReadRaw | src/bake-file-backend.c:523-585 | out of bounds if the range does not fit, and otherwise a success exactly if one block was reported; pointer and bytes lie in the bounce buffer, which rounding finds again; for one block they are the region's bytes |
| FileBackendCalls.Backend.Remove | src/bake-file-backend.c:648-674 | the call is the remove event, keeps the length of the file and every byte outside the region, reads as zeros after success and returns the code as it came |
| FileBackendCalls.Backend.Persist | src/bake-file-backend.c:614-632 | after a success with sync on, the log as it is now is all that a crash can leave; otherwise nothing more is durable than before |
| FileBackendCalls.Backend.BeginBulk | src/bake-file-backend.c:496-510 | a bulk write to another offset is unsupported, a range that does not fit is out of bounds, and otherwise exactly the transfer asked for starts |
| FileBackendCalls.Backend.CreateWritePersist | src/bake-server.c:697-713 | succeeds exactly for non-empty data when all three calls do; then, for at most one block, the log has the data at the start of a new region, and with sync on so has whatever a crash leaves |
| Durability.RegionsSurvive | src/bake-file-backend.c:401-416 | with sync on no region handed out is lost, over any run of events, syncs, crashes and reopens |
| Durability.PersistedSurvives | src/bake-file-backend.c:614-632 | with sync on, a region that is persisted keeps its bytes, and what is known of them, through any number of crashes and reopens and all that does not write or remove it, later creates included |
| Durability.WrittenSurvives | src/bake-file-backend.c:614-632 | so data written, by either kind of write, and then persisted is in the log after all of them, in what another crash would leave, and in bulk reads that return 0 |
| Durability.UnsyncedPersistLoses | src/bake-file-backend.c:614-632 | with sync off, from every state: data new to the log is completely written and persisted with success, and a crash can leave a log without it |
| FileBackendCalls.StoredAtEnd | src/bake-file-backend.c:401-408 | the end block of an undivided create lands at the end of its own extent and past everything in the file |
| FileBackendCalls.BytesReadExact | src/bake-file-backend.c:603-609 | the reported bytes read are the bytes delivered if and only if the bulk offset is zero |
| Pmem.DirectWriteMeans | src/bake-pmem-backend.c:222-239 | the direct write is refused exactly if the remote range is not there, and otherwise puts that range, and nothing else, into the region's |
| Pmem.PipelineRefinesDirect | src/bake-pmem-backend.c:222-279 | every schedule of the pipelined write changes nothing outside the range; when it returned 0 the range holds the remote bytes asked for, the memory is byte for byte that of the direct transfer, and all chunks are delivered |
| Pmem.PipelineCanSucceed | src/bake-pmem-backend.c:222-279 | for every range that exists some schedule of the pipelined write returns 0 with the memory the direct transfer leaves |
| HashItems.AppendOrder | src/uthash.h:204-209 | linking an item behind the tail extends the doubly linked list by it |
| HashItems.UnlinkOrder | src/uthash.h:255-269 | patching the neighbours leaves the doubly linked list without the item, wherever it stood |
| HashItems.PushChain | src/uthash.h:717-721 | pushing on a chain puts the item before the others, links in both directions |
| HashItems.UnlinkChain | src/uthash.h:730-734 | taking an item off a chain leaves the others linked in both directions, and gives the right head |
| HashChains.MaskIsIndex | src/uthash.h:220-223 | the bucket mask selects the hash value modulo the number of buckets |
| HashChains.DoublingKeepsItems | src/uthash.h:781-800 | doubling keeps exactly the same items, each in the bucket its hash selects among twice as many |
| HashChains.DoublingSplits | src/uthash.h:781-800 | the items of bucket i go to buckets i and i + n and nowhere else |
| HashChains.IdealIsCeiling | src/uthash.h:776-780 | the shift and mask compute ceil(items / buckets), which is not zero when it divides |
| HashChains.OverlongSum | src/uthash.h:789-793 | the items counted as nonideal are what each chain has beyond the ideal length, added up |
| HashTable.DoubleBuckets | src/uthash.h:765-800 | the two nested loops over the linked chains compute the doubling, with counts, heads, links, expand_mult and nonideal_items those of the new chains |
| HashTable.Table.Expand | src/uthash.h:765-815 | the table stays valid with twice the buckets; expand_mult is each count divided by the ideal length if above it; nonideal_items is the sum of the excess; noexpand is set after two ineffective expansions |
| HashTable.Table.Find | src/uthash.h:110-123 | the item with the key if there is one, and null otherwise, though only one bucket is searched |
| HashTable.FindInBucket | src/uthash.h:693-712 | the walk finds an item with the key or shows that the chain has none |
| HashTable.Table.MakeTable | src/uthash.h:165-181 | a new table has 32 empty buckets and its statistics cleared |
| HashTable.Table.AddToBucket | src/uthash.h:715-727 | the item is in its bucket, and the number of buckets doubles exactly if the new count reaches ten times expand_mult plus one and expansion is on |
| HashTable.Table.Add | src/uthash.h:194-218 | the item goes to the end of the insertion order, and the table stays valid; a first item makes 32 buckets, a later one doubles them exactly if it brings its bucket to the threshold |
| HashTable.Table.Delete | src/uthash.h:237-276 | exactly that item leaves the insertion order, whether first, last, between or alone; the table stays valid, buckets and multipliers are kept, and so are the item's own links for an iterator |
| HashTable.LookupAdded | src/uthash.h:194-218 | adding sets the key in the map and changes no other key |
| HashTable.LookupDeleted | src/uthash.h:237-276 | deleting clears the key in the map and changes no other key |
| HashFsck.CheckChain | src/uthash.h:320-333 | the bucket walk accepts a chain exactly if its back links are right |
| HashFsck.CheckOrder | src/uthash.h:349-363 | the walk in insertion order accepts the list exactly if its back links are right |
| HashFsck.Fsck | src/uthash.h:310-365 | the whole check passes if and only if all counts and back links are right, for any table whose forward links end |
| HashFsck.ValidPasses | src/uthash.h:310-365 | every table the operations leave passes it |
| HashSort.SortIsStable | src/uthash.h:818-937 | for every total preorder on the items the result is a permutation in order, and items that tie keep their order |
| HashSort.StableSortUnique | src/uthash.h:818-937 | every stable sort of the list is this one |
| HashSort.PassOrders | src/uthash.h:831-925 | one pass turns ordered runs of n into ordered runs of 2n |
| HashSort.MergeItems | src/uthash.h:852-922 | a merge loses and repeats nothing |
| HashSortList.TakeRun | src/uthash.h:837-850 | counting off a run gives its length and the item after it |
| HashSortList.Choose | src/uthash.h:852-907 | the item taken is the next one of the merge of what is left of the two runs |
| HashSortList.MergeRuns | src/uthash.h:836-924 | relinking in place merges the first two runs onto the list and leaves the rest linked |
| HashSortList.OnePass | src/uthash.h:829-926 | the list becomes the pass of itself, linked both ways; there was at most one merge if and only if the list has at most two runs |
| HashSortList.SortList | src/uthash.h:821-937 | the loop ends and the list is the sort of itself, linked both ways |
| HashSortList.Sort | src/uthash.h:821-937 | the table's insertion order is its sort, head and tail are its ends, the bucket chains are untouched and the table is valid |
| Base64.RoundTrip | src/base64/decode.c:39-106 | decoding an encoding gives back every byte sequence |
| Base64Alphabet.SymbolTable | src/base64/encode.c:16-20 | digit v is written as character v of the literal alphabet and read back as v |
| Base64Alphabet.ValueTable | src/base64/decode.c:50-58 | each alphabet character is read as its position in the literal alphabet |
| Base64Alphabet.EncodedGroup | src/base64/encode.c:37-57 | each group of three bytes becomes four characters, six bits at a time from the first byte's highest |
| Base64Alphabet.EncodedTail | src/base64/encode.c:60-83 | one byte left over becomes two characters and two pads, two bytes three characters and one pad |
| Base64Alphabet.DecodedGroup | src/base64/decode.c:48-75 | each group of four characters becomes three bytes, six bits at a time |
| Base64Alphabet.DecodedTail | src/base64/decode.c:79-106 | one character left over becomes nothing, two become one byte, three two |
| Base64.EncodeInjective | src/base64/encode.c:37-83 | different bytes have different encodings |
| Base64.EncodeCanonical | src/base64/encode.c:37-83 | an encoding has length 4 ceil(n / 3), alphabet characters before at most two pads, and zero pad bits |
| Base64.CanonicalIffEncoded | src/base64/encode.c:61-83 | the encodings are exactly the canonical strings, and those are exactly what decoding and encoding gives back |
| Base64.LeadingRun | src/base64/decode.c:40-42 | what is decoded is the longest leading run of alphabet characters |
| Base64.DecodedLength | src/base64/decode.c:48-106 | a run of alphabet characters decodes to three bytes for each four, and one less than the characters of a shorter last group |
| Base64Codec.EncodeMasks | src/base64/encode.c:43-46 | the masks and shifts cut three bytes into the four digits of their 24-bit number |
| Base64Codec.DecodeMasks | src/base64/decode.c:61-63 | the masks and shifts join four digits into the three bytes of their number |
| Base64Codec.EncodeBuffer | src/base64/encode.c:23-90 | the loops over the three-byte buffer compute the encoding |
| Base64Codec.DecodeBuffer | src/base64/decode.c:24-120 | the loops over the four-character buffer compute the decoding of any string |
| RegionId.ToString | src/util.c:106-116 | fails exactly for a buffer under 29 characters, leaving it alone; otherwise writes the text and its end and nothing else |
| RegionId.EnoughText | src/util.c:118-124 | the decoder's buffer holds the twenty bytes copied if and only if the text starts with at least 26 alphabet characters |
| RegionId.ShortTextOverruns | src/util.c:118-124 | text shorter than that, or with another character before, makes the copy read past the buffer |
| RegionId.FromString | src/util.c:118-124 | for all other text the result is the first twenty decoded bytes: the type, lowest byte first, and then the data |
| RegionId.TextLayout | src/util.c:106-116 | the text of a region id decodes to its type, lowest byte first, and then its data |
| RegionId.TextRoundTrip | src/util.c:106-124 | the text of every region id decodes to at least 20 bytes, which are the region id |
| RegionId.ThroughText | src/util.c:106-124 | to_string and then from_string restores every region id |
| Registry.CounterLags | src/bake-server.c:406-465 | in every run num_targets is the number of registered targets plus the single detaches since all were detached |
| Registry.DetachLeavesCounter | src/bake-server.c:432-450 | after one attach and one detach nothing is registered and the counter says one |
| Registry.AttachmentsConserved | src/bake-server.c:406-465 | in every run each attachment is registered once or finalized once |
| Registry.RegisteredIds | src/bake-server.c:406-465 | in every run an id is registered once if the last event about it attached it, and not at all otherwise |
| Registry.Provider.Attach | src/bake-server.c:366-430 | the entry is appended and counted, and found again; failures change nothing and give their code |
| Registry.Provider.Detach | src/bake-server.c:432-450 | a registered target is removed and finalized, the counter stays; an unknown one is an error |
| Registry.Provider.DetachAll | src/bake-server.c:452-465 | deleting while iterating finalizes every target once, in order, and leaves the registry empty and the counter zero |
| Registry.Provider.Count | src/bake-server.c:467-473 | the counter, never below the number of registered targets |
| Registry.Provider.List | src/bake-server.c:475-488 | fills as many slots as targets, in insertion order, and no other slot |
| Registry.Provider.Probe | src/bake-server.c:827-856 | as many slots as the counter says, of which the first are the registered ids |
| Registry.ProbeFits | src/bake-server.c:844-846 | the slots a probe made after counting hold the listing if and only if, in between, the registry has not grown by more than the detaches the counter missed |
| Registry.ProbeRace | src/bake-server.c:844-846 | when the counter is exact, one attach between count and list makes one target more than slots |
| LockInvariant.InvStep | src/bake-server.c:406-540 | every step of every thread keeps: the lock's fields say who is inside, a writer is alone, targets in use are registered, entries are registered or finalized and never both |
| LockTheorems.BackendCallsAreLive | src/bake-server.c:521-717 | in every interleaving every backend call works on a target that is registered under the requested id and not finalized |
| LockTheorems.LockBalanced | src/bake-server.c:500-963 | every path of every handler, the migration's unlock, detach and relock included, releases the lock as often as it takes it |
| LockTheorems.UnlocksOwnHold | src/bake-server.c:536-539 | every unlock is by a thread that holds the lock and undoes what that thread took |
| LockTheorems.FinalizedOnce | src/bake-server.c:437-461 | a target is finalized only by the writer, while registered, and leaves the registry in the same step |
| LockTheorems.FollowsRegistry | src/bake-server.c:406-465 | in every interleaving the shared registry takes the sequential registry's steps: its ids in insertion order, its counter and its finalized ids change by attach, detach and detach-all as there, and by nothing else |
| LockEffects.KeptSourceStays | src/bake-server.c:956-959 | no step of a migration that keeps its source changes the registry |
| LockEffects.MigrationDetaches | src/bake-server.c:956-959 | a migration that is to remove its source has, when it ends, detached that target once if nothing went wrong, and done nothing to the registry otherwise |
| LockEffects.AttachAttaches | src/bake-server.c:366-430 | an attach has, when it ends, attached its target once if the backend could be initialized, and nothing otherwise |
| LockEffects.OthersEffects | src/bake-server.c:432-488 | a detach and a detach-all have done their one thing to the registry when they end, handlers and listings nothing |
| LockEffects.HandlerCalls | src/bake-server.c:549-893 | a handler for which nothing goes wrong makes one backend call, or three if it composes create, write and persist |
| LockEffects.FailedCallIsLast | src/bake-server.c:657-713 | after a backend call that failed a handler makes no other |
| LockEffects.HandlersShare | src/bake-server.c:521-525 | while nobody writes, a handler gets the lock at once, however many are inside |
| LockEffects.LockModes | src/bake-server.c:406-525 | handlers and listings take the lock for reading, all that changes the registry for writing, and a migration coming back for reading |
| LockPaths.PathTaken | src/bake-server.c:549-963 | a task for which nothing goes wrong visits exactly the steps of its path, written out, from start to end: the address only for bulk handlers, the calls in number, and the migration's lock, search, transfer, unlock, detach, relock and unlock |
| LockTheorems.MeasureDrops | src/bake-server.c:895-963 | every step brings the threads nearer to their end |
| LockTheorems.RunsEnd | src/bake-server.c:406-963 | no schedule is longer than the measure of its start |
| LockTheorems.StuckMeansDone | src/bake-server.c:406-963 | a schedule that cannot go on has ended every task with the lock free: there is no deadlock |

## Left out

- Margo, Mercury, Argobots, abt-io, PMDK, REMI and json-c: foreign libraries; what they answer is a parameter.
- RPC registration, client forwarding, encoders, configuration, daemons, benchmarks: set-up without logic of this kind.
- Region migration, and the pmem backend's create-write-persist, which returns success whatever its transfer returned.
- The pmem backend's other calls: single library calls.
- Bloom filter, `HASH_SELECT`, the alternative hash functions: the hash is any 32-bit function of the key.
- Integer widths: sizes and offsets are unbounded except in `Bits.MacrosRound` and `TransferTheorems.CountUlts`; hash counters do not wrap.
- Allocation failure, and the buffer pool's own error path: assumed not to happen.
- FileBackend.StepInv: for creates not split by another create and of positive size; `SplitCreate.EndBlockAtHome` says exactly when an end block stays in its extent.
- TransferTheorems.SetupFits: the bulk offset is at most the bulk size; beyond it the C subtraction wraps.
- TransferTheorems.CountUlts: extents for which the int loop counter would overflow are excluded.
- TransferTheorems.ZeroMeansDelivered: only when no log I/O reports zero bytes; `TransferErrors.TruthfulIff` shows that this is exactly the condition.
- TransferResults.WriteDelivers: only for extents that start with their region, which the offset check of write_bulk and an aligned log give; `TransferResults.MisalignedWriteLandsEarly` shows the other case.
- FileBackendTheorems.EagerAndBulkAgree: only for a request inside one block; `FileBackendTheorems.ShortReadSucceeds` shows that no longer request has the property.
- LogAllocator.RegionsNeverOverlap: only with sync on; `LogAllocator.UnsyncedRegionsCanOverlap` shows that it fails with sync off.
- RegionId.FromString: text for which the C code copies past its buffer is excluded; `RegionId.EnoughText` says which text that is.
- Registry.Provider.Attach: target ids are distinct; `HASH_ADD` does not reject a second entry with the same key.
- Registry.Provider.Probe: count and list are one call after the other; `Registry.ProbeFits` says what an attach or detach between the two does.
- HashTable.Table.Add: the key is not in the table yet; `HASH_ADD` accepts a second item with the same key.
- HashTable.Table: the bucket array is a sequence held in a field and replaced, not an array allocated anew; pointers to handles and to elements are one pointer.
- HashSortList.Sort: the comparison is a function of the items that the sort does not change.
- LockProtocol: a backend call is a span of steps with no effect inside; the cleanup call after the unlock in the eager read handler and provider teardown are not modelled.
- Handle reference counts, error strings, timers, size-suffix parsing: easy members.
