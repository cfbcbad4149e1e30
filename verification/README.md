# The TrustKernel driver, modelled and proved

The TrustKernel Linux driver carries calls between Android and a secure world. This project models
the parts of it that keep state on their own (an allocator, a log pipeline, a graph of counted
objects, three small concurrent protocols), the parameter codec of the keymaster service, and the
routine of the trusted firmware that raises software interrupts, and proves what holds of them over
all inputs, all runs and all interleavings.

`dafny verify dfyconfig.toml` checks everything. Files and modules:

- `Alignment`, `ShmPoolModel`, `ShmPoolOps`, `ShmPoolLaws`, `ShmPool`: the shared-memory pool. The
  first four speak of values: chunk lists, the operations on them, and what every run keeps. `ShmPool`
  is the pool as the driver holds it, a linked list of descriptors edited in place on words that wrap,
  proved to do what the operations say.
- `KmsgLines`, `LogRing`, `LogRace`, `LogFullPass`: the log pipeline, from the ring of the secure world
  to the kernel ring and, line by line, to the console. The class methods make the block copies; the
  functions are a byte automaton and a queue that keeps its last bytes. `LogRace` lets the reader and
  logd run at once, and `LogFullPass` adds the pass of exactly the size of the ring.
- `Collections`, `ObjectGraph`, `ObjectGraphProofs`, `ObjectGraphLaws`, `ObjectGraphFates`, `TeeMoves`,
  `TeeCore`: contexts, sessions and shared buffers. `ObjectGraph` has one function for each critical section, on a value that
  includes the pool; `ObjectGraphProofs` shows what each keeps; `ObjectGraphLaws` interleaves them and
  draws the conclusions; `ObjectGraphFates` says what each move brings in, changes and takes away; `TeeCore` carries the sections out on objects that are updated in place. The
  device is `Valid` when the objects say what the value says and the value is in agreement. Every call
  keeps it `Valid`, requires of its arguments what the move of `ObjectGraphLaws` allows and no more, and
  is one or two such moves; `TeeMoves` derives what the objects need and puts the moves of several calls
  together, so that the laws about runs are laws about the device. The methods that only require
  `Linked` are the parts these calls are made of.
- `HandleTable`, `HandleThreads`, `HandleOverlap`: the growable table behind the cookies of RPC buffers,
  with one request at a time, with the accesses of many threads, and with two requests at once.
- `Totals`, `Atomics`, `SuspendProtocol` with `SuspendLaws`, `SmcTransfer` with `SmcTransferLaws` and
  `SmcCallLaws`, and `WaitQueue`: three protocols as steps of any number of threads, each step one access to shared state,
  interleaved in any order.
- `KeymasterCodec`: the encoder and the decoder of parameter sets, byte by byte.
- `PageRuns`: pages merged into scatterlist segments.
- `SgiBatch`: software interrupts, one register write for each run of cores of a cluster. The word
  written is that of ICC_SGI0R_EL1 in the Arm GICv3 and GICv4 architecture specification (IHI 0069),
  section "ICC_SGI0R_EL1".

What the models assume of the outside:

- A pool lies at a base above 0 and ends in the lower half of the address space; alignments are 0 or a
  power of two, because `ALIGN` is a mask. Sizes, counts and sequence numbers have the widths of the
  source on a 64-bit kernel.
- Whether an allocation of the kernel succeeds is a parameter (`memory`, `descriptors`, `prevMemory`,
  `nextMemory`), and so is whether a file can be made (`exported`) and what the secure world answers.
- Threads take sequentially consistent atomic steps. In `SuspendProtocol` prepare and post events
  alternate, as the kernel's power management sends them, and there are at most 2^31 - 1 threads.
  A wake-up makes runnable everybody who is queued, and a thread that was woken before it slept does
  not sleep. In `WaitQueue` each round of a key has one sleep and one wakeup, and the rounds of a key do not
  overlap: a wakeup of the next round that came while the entry of the last one is still linked would be
  lost with it. In `LogRace` there is one
  logd and, because of the lock of the log, one reader at a time; a copy is one step.
- In `HandleThreads` krealloc copies the table and hands back its block in one step, and the new block is
  installed in another. That the secure world has its payload requests served one at a time,
  as `HandleTable.CookiesNameOwned` and `HandleThreads.CookiesNameOwned` need it, is not seen to by the
  driver: the table has no lock.
- In `ObjectGraphLaws` the callers keep to the rules of `Allowed`: a context is used until its owner
  destroys it, a file is released once, the secure world frees once what it was given. Other users of
  the pool (argument structures, temporary buffers) appear as loans.
- In `SgiBatch` the table of cores has 32 entries at most, because the map of cores is 32 bits wide and
  the source shifts a 1 by the core index.

Some properties are false of the code as it stands. They are kept as the code has them, with the exact
condition:

- a call keeps the pool well formed and its mutex free: `ShmPoolLaws.StepKeepsIff`, `MutexOpenIff` and
  `FreesCommute`, with `FreeOfFreeWitness`, `IncrefOfFreeWitness` and `ZeroSizeOnFreshPool`;
- the ring keeps its last bytes, an index follows its sequence number, a reader gets each byte once:
  `LogRing.StoreKeepsLastIff`, `LogRing.WalkAgreesIff`, `LogFullPass.AnyPassIff`;
- tee_shm_alloc_io reports success only for a buffer: `ObjectGraphLaws.SuccessWithoutBuffer`;
- when requests overlap cookies and buffers stay in bijection and no buffer is freed twice:
  `HandleOverlap.OverlapGoesWrongIff`;
- every parked caller is released: `SmcTransferLaws.EverybodyReleasedIff`;
- a wait queue keeps one entry for each round: `WaitQueue.StepKeepsIff` and `RunKeepsIff`, with
  `SleepWithoutMemory` and `WakeWithoutMemory`;
- the table of pages is right: `PageRuns.TableRightIff`;
- an interrupt ends its call and reaches every selected core: `SgiBatch.TerminatesIff`,
  `AllSignalledIff` and `WordsNameSelectedIff`.

Where a comment of the source disagrees with its code the code is modelled: the guard against more than
16 cores in a cluster lets affinity 16 through, and the free of a block that is already free returns
without unlocking the pool.


## Model

| member | source | states |
|---|---|---|
| `ShmPoolOps.BestFitIsBest` | trustkernel/source/driver/tkcore/armtz/tee_mem.c:410-422 | The chunk chosen is free and fits, none that fits is smaller, and none before it is as small; -1 only when nothing fits |
| `ShmPoolOps.AllocPlaces` | trustkernel/source/driver/tkcore/armtz/tee_mem.c:391-434 | A block returned comes from the smallest free chunk that has room behind its first multiple of the rounded alignment, the first of several, and starts at that multiple; and descriptors were at hand |
| `ShmPoolOps.EffectiveIsMax` | trustkernel/source/driver/tkcore/armtz/tee_mem.c:394-398 | The rounded alignment of 0 or a power of two is the alignment, and 0x20 at least |
| `ShmPoolOps.AllocSucceeds` | trustkernel/source/driver/tkcore/armtz/tee_mem.c:396-497 | A block returned starts at a multiple of the rounded alignment, lies inside the pool and apart from every live block, is new among the live blocks with count 1 and the rounded size, and changes no other |
| `ShmPoolOps.AllocComplete` | trustkernel/source/driver/tkcore/armtz/tee_mem.c:391-422 | With descriptors at hand, 0 is returned if and only if no aligned window of the rounded size is inside the pool and apart from all live blocks: neither fragmentation bookkeeping nor the free-byte test ever refuses a request that fits |
| `ShmPoolOps.GapIsInOneChunk` | trustkernel/source/driver/tkcore/armtz/tee_mem.c:573-607 | Coalescing loses nothing: any gap between live blocks lies inside a single free chunk |
| `ShmPoolOps.AlignmentHonoured` | trustkernel/source/driver/tkcore/armtz/tee_mem.c:394-398 | A multiple of the rounded alignment is a multiple of the alignment asked for |
| `ShmPoolOps.ReleaseIsMerge` | trustkernel/source/driver/tkcore/armtz/tee_mem.c:573-607 | The two conditional merges of a free replace one range of the list, the block with its free neighbours, by one free chunk of their total size |
| `ShmPoolOps.ReleaseKeeps` | trustkernel/source/driver/tkcore/armtz/tee_mem.c:569-607 | Freeing the last reference keeps tiling, coalescing and the byte count, and takes exactly that block from the live ones |
| `ShmPoolModel.Canonical` | trustkernel/source/driver/tkcore/armtz/tee_mem.c:424-483 | The chunk list and the byte count of a well-formed pool are determined by its region and its live blocks |
| `ShmPoolLaws.FreeKeeps` | trustkernel/source/driver/tkcore/armtz/tee_mem.c:532-627 | A free takes one reference off the block at the address, removes it with its last one, and is no change for an address that is not live; the outcome tells which, and it is the one that leaves the mutex locked exactly for the address of a free chunk |
| `ShmPoolLaws.FreeReports` | trustkernel/source/driver/tkcore/armtz/tee_mem.c:554-616 | What a free reports and the size it stores: not found exactly when no chunk starts at the address, and otherwise the outcome for the count, with the size of that chunk |
| `ShmPoolLaws.IncrefKeeps` | trustkernel/source/driver/tkcore/armtz/tee_mem.c:653-691 | An incref adds one reference to a live block and reports whether the address was live |
| `ShmPoolLaws.AllocFails` | trustkernel/source/driver/tkcore/armtz/tee_mem.c:500-518 | When 0 is returned the pool is untouched |
| `ShmPoolLaws.AllocKeeps` | trustkernel/source/driver/tkcore/armtz/tee_mem.c:366-518 | An allocation of a positive size keeps the pool well formed over its region, whatever comes of it |
| `ShmPoolLaws.ZeroSizeSucceedsIff` | trustkernel/source/driver/tkcore/armtz/tee_mem.c:391-422 | An allocation of size 0 returns 0 exactly when there are no descriptors or no free chunk holds an aligned address |
| `ShmPoolLaws.StepKeepsIff` | trustkernel/source/driver/tkcore/armtz/tee_mem.c:366-691 | A call that got in leaves the pool well formed (tiled, coalesced, bytes counted) and its mutex free if and only if it is not an allocation of size 0 that finds a free chunk, not an incref of a free chunk or of one whose 32-bit count would wrap, and not a free of the address of a free chunk: conditions that can be checked before the call |
| `ShmPoolLaws.StepDoes` | trustkernel/source/driver/tkcore/armtz/tee_mem.c:257-691 | What each call does to the live blocks: one more, one reference more or less, or none left after a reset |
| `ShmPoolLaws.MutexOpenIff` | trustkernel/source/driver/tkcore/armtz/tee_mem.c:554-565 | A free returns with the mutex free if and only if the chunk found at the address, if there is one in the pool, is not a free one: the early -EINVAL does not unlock |
| `ShmPoolLaws.LockedForGood` | trustkernel/source/driver/tkcore/armtz/tee_mem.c:400-404 | After it every call that takes the mutex never returns, and those that are refused before it change nothing |
| `ShmPoolLaws.FreeOfFreeWitness` | trustkernel/source/driver/tkcore/armtz/tee_mem.c:559-565 | A new pool freed at its start: no free of any address ever returns again |
| `ShmPoolLaws.SecondFree` | trustkernel/source/driver/tkcore/armtz/tee_mem.c:554-616 | A free repeated after the last reference is gone leaves the mutex free exactly when the block was merged into a free chunk before it |
| `ShmPoolLaws.IncrefBreaks` | trustkernel/source/driver/tkcore/armtz/tee_mem.c:666-679 | incref does not test the counter: on a free chunk, or past the last count, the used bytes no longer match the live blocks |
| `ShmPoolLaws.IncrefOfFreeWitness` | trustkernel/source/driver/tkcore/armtz/tee_mem.c:666-679 | A concrete pool that such an incref breaks |
| `ShmPoolLaws.ZeroSizeOnFreshPool` | trustkernel/source/driver/tkcore/armtz/tee_mem.c:391-398 | An allocation of size 0 breaks every fresh pool that holds an aligned address |
| `ShmPoolLaws.RunKeeps` | trustkernel/source/driver/tkcore/armtz/tee_mem.c:134-691 | Every run of such calls keeps the pool well formed over its region and its mutex free |
| `ShmPoolLaws.RunsConfluent` | trustkernel/source/driver/tkcore/armtz/tee_mem.c:366-627 | Any two runs of such calls that leave the same live blocks leave the same chunk list and byte count |
| `ShmPoolLaws.FreeUndoesAlloc` | trustkernel/source/driver/tkcore/armtz/tee_mem.c:424-607 | Freeing a block just allocated gives back the very pool it was carved from |
| `ShmPoolLaws.FreeUndoesIncref` | trustkernel/source/driver/tkcore/armtz/tee_mem.c:566-616 | Taking a reference and dropping it is no change |
| `ShmPoolLaws.FreesCommute` | trustkernel/source/driver/tkcore/armtz/tee_mem.c:554-627 | Two frees of different addresses, live or not, both return in either order if and only if neither is the address of a free chunk, and then they can be exchanged |
| `ShmPoolLaws.DrainedPoolIsInitial` | trustkernel/source/driver/tkcore/armtz/tee_mem.c:554-627 | Dropping every outstanding reference once, in any order, leaves the single chunk the pool was created with |
| `ShmPool.ShmPool.Create` | trustkernel/source/driver/tkcore/armtz/tee_mem.c:134-199 | The pool is one free chunk over its region, and there is one exactly when both allocations succeed |
| `ShmPool.ShmPool.Reset` | trustkernel/source/driver/tkcore/armtz/tee_mem.c:257-296 | The pool is as created, and the head of its list is kept |
| `ShmPool.ShmPool.Alloc` | trustkernel/source/driver/tkcore/armtz/tee_mem.c:366-518 | On unsigned long arithmetic that wraps, the call changes the linked list as the allocation function does, whose place and effect AllocPlaces and AllocSucceeds give, returns its address, and leaves the mutex free, for alignments that are 0 or a power of two |
| `ShmPool.ShmPool.BestChunk` | trustkernel/source/driver/tkcore/armtz/tee_mem.c:410-422 | The loop over the list finds the best-fitting chunk and its place |
| `ShmPool.ShmPool.Split` | trustkernel/source/driver/tkcore/armtz/tee_mem.c:433-483 | The relinking of the list puts the carved pieces in the place of the chunk |
| `ShmPool.ShmPool.Free` | trustkernel/source/driver/tkcore/armtz/tee_mem.c:532-627 | The call changes the linked list as the free function does; it returns 0, 1 or -EINVAL and the size accordingly, and a block found already free leaves the mutex locked |
| `ShmPool.ShmPool.Drop` | trustkernel/source/driver/tkcore/armtz/tee_mem.c:555-616 | The counter, the used bytes and both merges for the chunk found |
| `ShmPool.ShmPool.Incref` | trustkernel/source/driver/tkcore/armtz/tee_mem.c:653-691 | The call changes the linked list as the incref function does |
| `ShmPool.FitTest` | trustkernel/source/driver/tkcore/armtz/tee_mem.c:412-418 | For chunks in the lower half of the address space the wrapping fit test is the mathematical one |
| `ShmPool.SizeOnWords` | trustkernel/source/driver/tkcore/armtz/tee_mem.c:391-396 | The overflow test on the size refuses only sizes that round past half the address space |
| `Alignment.WrapIsMod` | trustkernel/source/driver/tkcore/armtz/tee_mem.c:391-396 | Sizes and addresses wrap modulo 2^64 |
| `KmsgLines.FeedConcat` | trustkernel/source/driver/tkcore/core/tee_procfs.c:783-850 | The line splitter is a byte automaton: feeding a then b is feeding both together |
| `KmsgLines.FeedConserves` | trustkernel/source/driver/tkcore/core/tee_procfs.c:783-850 | Every byte that is not NUL comes out once and in order, or is still pending |
| `KmsgLines.FeedText` | trustkernel/source/driver/tkcore/core/tee_procfs.c:750-850 | Every line printed is non-empty NUL-free text of at most 255 bytes, and so is the pending text |
| `KmsgLines.StringComesOutCut` | trustkernel/source/driver/tkcore/core/tee_procfs.c:805-844 | A NUL-terminated string of any length comes out as its 255-byte pieces, continuing the pending text |
| `KmsgLines.CutPieces` | trustkernel/source/driver/tkcore/core/tee_procfs.c:805-844 | The pieces of a string: together they are the string, and all but the last have 255 bytes |
| `KmsgLines.Printer.PrintToKmsg` | trustkernel/source/driver/tkcore/core/tee_procfs.c:783-850 | The scan with its block copies prints exactly the lines of the automaton and keeps exactly its pending text, inside the line buffer; it ends by the lexicographic measure of bytes left and pending text |
| `KmsgLines.Printer.Block` | trustkernel/source/driver/tkcore/core/tee_procfs.c:805-848 | One turn over a block: what is printed and pending afterwards still leads to the same lines, and the turn makes progress |
| `LogRing.StoreKeepsLast` | trustkernel/source/driver/tkcore/core/tee_procfs.c:770-916 | For fewer bytes than the ring size, the window is the last LOG_AREA_SIZE - 1 bytes of the old window followed by the new bytes |
| `LogRing.StoreKeepsLastIff` | trustkernel/source/driver/tkcore/core/tee_procfs.c:770-916 | At exactly LOG_AREA_SIZE bytes this holds if and only if the tail lay ahead of the head or the ring was full with its head on the last byte |
| `LogRing.WalkAgreesIff` | trustkernel/source/driver/tkcore/core/tee_procfs.c:159-162 | Walking the TEE ring from the index of a sequence number gives the byte of every later number if and only if the 32-bit numbers do not wrap on the way or the ring length divides 2^32 |
| `LogRing.TookFollowsSequence` | trustkernel/source/driver/tkcore/core/tee_procfs.c:868-885 | When the 32-bit numbers do not wrap on the way, or the ring length divides 2^32, byte k of a pass is the one of its sequence number |
| `LogRing.PassFollowsStream` | trustkernel/source/driver/tkcore/core/tee_procfs.c:854-885 | For a log whose last bytes the TEE ring holds by their sequence numbers: a pass takes the newest bytes between the position it stands at and the one it finds, as many as both rings hold |
| `LogRing.PassesTakeAll` | trustkernel/source/driver/tkcore/core/tee_procfs.c:927-982 | Passes that are never further behind than both rings hold take every byte of the log in between, each once and in order |
| `LogRing.BatchingIsInvisible` | trustkernel/source/driver/tkcore/core/tee_procfs.c:886-916 | How the bytes are batched into passes changes neither the window nor the lines printed |
| `LogRing.LogArrives` | trustkernel/source/driver/tkcore/core/tee_procfs.c:783-982 | So the unread bytes are the last LOG_AREA_SIZE - 1 of the whole stretch of the log, and the console has its lines, whatever the passes |
| `LogRing.LogDriver.DoKlog` | trustkernel/source/driver/tkcore/core/tee_procfs.c:854-919 | The ring becomes the store of the bytes fetched, the console gets their lines, and the new read sequence is returned |
| `LogRing.LogDriver.Fetch` | trustkernel/source/driver/tkcore/core/tee_procfs.c:867-885 | The copy out of the TEE ring, in one or two pieces, gives the newest bytes, at most LOG_AREA_SIZE |
| `LogRing.LogDriver.StoreTmp` | trustkernel/source/driver/tkcore/core/tee_procfs.c:890-913 | The copy into the kernel ring and the new head and tail |
| `LogRing.LogDriver.DoUlog` | trustkernel/source/driver/tkcore/core/tee_procfs.c:188-206 | The leading bytes of the window, at most count, across the wraparound |
| `LogRing.LogDriver.Read` | trustkernel/source/driver/tkcore/core/tee_procfs.c:256-326 | While no log arrives: what is copied out followed by the window left is the window before; less than count only when the ring is drained |
| `LogRing.LogDriver.LogdPass` | trustkernel/source/driver/tkcore/core/tee_procfs.c:957-982 | A pass takes exactly as many bytes as logd is behind, at most as many as either ring holds and then the newest, round the TEE ring up to the write sequence; it stores and prints them and publishes the write sequence |
| `LogRace.PassAlone` | trustkernel/source/driver/tkcore/core/tee_procfs.c:854-919 | A pass that nobody disturbs moves the head on by what it stores, and the tail with it where the new bytes would reach it |
| `LogRace.ReadAlone` | trustkernel/source/driver/tkcore/core/tee_procfs.c:209-331 | A read that nobody disturbs gives the oldest bytes, as many as there are and as the buffer holds, and takes them off |
| `LogRace.ReadOvertaken` | trustkernel/source/driver/tkcore/core/tee_procfs.c:279-322 | A read whose tail was moved on meanwhile gives what is behind the missing bytes, or nothing, and leaves the tail |
| `LogRace.ReadsAreExact` | trustkernel/source/driver/tkcore/core/tee_procfs.c:209-331 | In every interleaving of the accesses of any passes of logd and any reads, as long as every pass finds room in the ring: the user gets the bytes of the log as they are, each once and none left out, and the tail is where he stopped |
| `LogRace.OnePassIff` | trustkernel/source/driver/tkcore/core/tee_procfs.c:767-919 | One pass of logd, of fewer bytes than the ring holds, among any reads gives the right bytes once in every interleaving if and only if it finds room in the ring or at most one byte unread |
| `LogFullPass.AnyPassIff` | trustkernel/source/driver/tkcore/core/tee_procfs.c:754-919 | The same for a pass of any size: one of exactly the size of the ring is right in every interleaving if and only if the unread bytes do not go round the end of the ring, or fill it from its last byte on |
| `LogRace.OvertakenGoesWrong` | trustkernel/source/driver/tkcore/core/tee_procfs.c:890-913 | Whenever a pass finds no room, after however many that found it, a read between the copy into the ring and the store of the tail gets bytes that are overwritten, or bytes that it gets again because the tail goes back |
| `LogRace.IndicesAgree` | trustkernel/source/driver/tkcore/core/tee_procfs.c:754-779 | The used bytes and the adjusted tail that the source computes from ring indices are those of the positions of the stream |
| `ObjectGraphProofs.TakenIsNew` | trustkernel/source/driver/tkcore/armtz/tee_tz_drv.c:907-966 | A static buffer gets a block that was not live, of count 1, and nothing else of the pool changes; a nonsecure one leaves the pool alone |
| `ObjectGraphProofs.StaticBlockHasRoom` | trustkernel/source/driver/tkcore/armtz/tee_tz_drv.c:926-948 | The block of a static buffer starts a page, is of whole pages, is longer than what was asked for, and at most a page longer |
| `ObjectGraphProofs.StorageIff` | trustkernel/source/driver/tkcore/armtz/tee_tz_drv.c:926-948 | A nonsecure request gives NULL exactly without size or memory; a static one gives NULL exactly when its size is within a page of 2^64, and -ENOMEM exactly when memory fails or no window of enough whole pages is left that starts a page |
| `ObjectGraphProofs.PutContextKeeps` | trustkernel/source/driver/tkcore/core/tee_context.c:151-225 | Dropping a reference in hand keeps lists, pointers and counts in agreement, the freed context included |
| `ObjectGraphProofs.LastReference` | trustkernel/source/driver/tkcore/core/tee_context.c:207-218 | The reference in hand is the last one exactly when the context is closed and has neither sessions nor buffers |
| `ObjectGraphProofs.FailedExportUndone` | trustkernel/source/driver/tkcore/core/tee_shm.c:800-812 | An allocation whose file cannot be made leaves everything as it was, the pool included |
| `ObjectGraphProofs.FreeShmStores` | trustkernel/source/driver/tkcore/core/tee_shm.c:250-267 | When one owner frees a buffer the counts still equal the owners left, in the pool or in ns.ref |
| `ObjectGraphLaws.OnRpcList` | trustkernel/source/driver/tkcore/core/tee_shm.c:684-695 | What tee_shm_fd_for_rpc can find is exactly the buffers without a context that the secure world holds |
| `ObjectGraphLaws.StepKeepsGood` | trustkernel/source/driver/tkcore/core/tee_context.c:107-246 | Every critical section of every operation (creating, destroying and releasing contexts, opening and closing sessions, allocating, exporting and freeing buffers) keeps lists, pointers, reference counts, statistics and pool counts in agreement |
| `ObjectGraphLaws.RunKeepsGood` | trustkernel/source/driver/tkcore/core/tee_session.c:561-650 | Every interleaving of the critical sections keeps lists, pointers, reference counts, statistics and pool counts in agreement |
| `ObjectGraphLaws.ReferencesConserved` | trustkernel/source/driver/tkcore/core/tee_core.c:143-240 | In every run: tee.refcount is 1, plus the references on their way, the contexts, the sessions (opening ones included) and the buffers on the contexts' lists; a context counts its owner until destroyed, its sessions and its buffers; each statistic is the length of the lists it describes |
| `ObjectGraphLaws.ContextFreedIff` | trustkernel/source/driver/tkcore/core/tee_context.c:151-225 | A context is freed by exactly the step after which its owner has destroyed it and no session and no file of a buffer of it is left, failed opens included |
| `ObjectGraphLaws.BufferOwnership` | trustkernel/source/driver/tkcore/core/tee_shm.c:201-221 | In every run: the pool count or ns.ref of a buffer is the number of its remaining owners; its storage goes exactly with the last of them, file or secure world, and its block leaves the pool with it; once exported it is never found for export again |
| `ObjectGraphLaws.BufferFate` | trustkernel/source/driver/tkcore/core/tee_shm.c:623-730 | Which owners, and which context, a buffer has after any step |
| `ObjectGraphLaws.LastOwnerEmpties` | trustkernel/source/driver/tkcore/armtz/tee_tz_drv.c:969-994 | The last owner of a static buffer removes its block from the live blocks of the pool |
| `ObjectGraphLaws.DrainedDriver` | trustkernel/source/driver/tkcore/core/tee_shm.c:832-852 | When all contexts are gone and everything borrowed is given back, the tee holds its one reference, nothing is counted, and the pool is as created |
| `ObjectGraphLaws.TeeStaysReferenced` | trustkernel/source/driver/tkcore/core/tee_core.c:194-238 | The counts behind the warnings "unexpected refcount" of tee_get and tee_put are never reached |
| `ObjectGraphFates.SessionFate` | trustkernel/source/driver/tkcore/core/tee_session.c:561-650 | Which sessions there are after any move, of which context and in which phase: a session opens, is open, is closing and is gone by its own moves, and by no others |
| `ObjectGraphFates.NewContext` | trustkernel/source/driver/tkcore/core/tee_context.c:107-145 | A context appears by its creation alone, listed, open, empty, and with one reference |
| `ObjectGraphFates.NewBuffer` | trustkernel/source/driver/tkcore/core/tee_shm.c:623-830 | A buffer appears exactly by an allocation that gets its storage, and its file for a client, with the owner, context and storage that belong to it |
| `ObjectGraphFates.NewEntries` | trustkernel/source/driver/tkcore/core/tee_shm.c:671-830 | New entries come to the end of their lists, an exported buffer to the front |
| `Collections.WithoutCuts` | trustkernel/source/driver/tkcore/core/tee_shm.c:832-852 | list_del cuts the entry out and leaves the others in order |
| `ObjectGraphFates.ReturnCodes` | trustkernel/source/driver/tkcore/core/tee_shm.c:671-830 | What an allocation for a client and an export return in each case, and that a failed export changes nothing |
| `ObjectGraphFates.BooksFollow` | trustkernel/source/driver/tkcore/core/tee_core.c:194-240 | Which references of the tee are on their way, and which blocks are lent, after any move |
| `ObjectGraphFates.PoolFate` | trustkernel/source/driver/tkcore/armtz/tee_tz_drv.c:907-1006 | The pool changes by the storage that a move takes, shares and gives back, and by nothing else |
| `ObjectGraphFates.MaximaReached` | trustkernel/source/driver/tkcore/core/tee_core.c:143-190 | In every run the maxima of the three statistics are the largest counts that there have been |
| `TeeMoves.LeadsOn` | trustkernel/source/driver/tkcore/core/tee_core.c:143-240 | Calls on the device one after the other make one run of the critical sections |
| `TeeMoves.LeadsReaches` | trustkernel/source/driver/tkcore/core/tee_core.c:143-240 | From the probe of the device on, its calls lead to the states that the conservation and ownership laws speak of |
| `TeeMoves.ExportLeads` | trustkernel/source/driver/tkcore/core/tee_shm.c:671-730 | What is found on the list of the secure world is a buffer that may be exported, its block is live, and its count cannot wrap |
| `TeeMoves.ReleaseLeads` | trustkernel/source/driver/tkcore/core/tee_shm.c:832-852 | A buffer with a file has its context, and its block is live |
| `TeeCore.Tee.Get` | trustkernel/source/driver/tkcore/core/tee_core.c:194-219 | The count goes up by one, for a reference that is not used yet |
| `TeeCore.Tee.Put` | trustkernel/source/driver/tkcore/core/tee_core.c:221-240 | The count goes down by one |
| `TeeCore.Tee.ContextCreate` | trustkernel/source/driver/tkcore/core/tee_context.c:107-145 | With memory, the device makes the moves of a tee_get and of a new context; without, no change |
| `TeeCore.Tee.ContextGet` | trustkernel/source/driver/tkcore/core/tee_context.c:181-191 | One more reference |
| `TeeCore.Tee.ContextPut` | trustkernel/source/driver/tkcore/core/tee_context.c:151-225 | One reference less; with the last one the context leaves list and statistics and gives back its reference on the tee |
| `TeeCore.Tee.ContextDestroy` | trustkernel/source/driver/tkcore/core/tee_context.c:230-246 | The device makes the move that drops the reference of the owner, and frees the context if it was the last |
| `TeeCore.Tee.SessionCreate` | trustkernel/source/driver/tkcore/core/tee_session.c:597-626 | The device makes the moves of a tee_get and of the first half of an open; without memory no change |
| `TeeCore.Tee.SessionOpened` | trustkernel/source/driver/tkcore/core/tee_session.c:626-651 | Success exactly for ret 0, a session id and no error; the device makes the move of a finished or of a failed open |
| `TeeCore.Tee.SessionCloseAndDestroy` | trustkernel/source/driver/tkcore/core/tee_session.c:561-595 | An open session is closed and destroyed, two moves; one that is not open is left alone |
| `TeeCore.Tee.ShmAlloc` | trustkernel/source/driver/tkcore/core/tee_shm.c:223-248 | Storage is taken from pages or from the pool, or the failure is told by NULL or by an error |
| `TeeCore.Tee.ShmFree` | trustkernel/source/driver/tkcore/core/tee_shm.c:250-267 | One owner less, the storage gone with the last |
| `TeeCore.Tee.ShmFreeNs` | trustkernel/source/driver/tkcore/core/tee_shm.c:201-221 | The same for nonsecure pages |
| `TeeCore.Tee.ShmFreeStatic` | trustkernel/source/driver/tkcore/armtz/tee_tz_drv.c:969-994 | The same for a block of the pool |
| `TeeCore.Tee.ShmAllocIo` | trustkernel/source/driver/tkcore/core/tee_shm.c:777-830 | The device makes the move of an allocation, or no change; 0 is returned with a buffer and when tee_shm_alloc gave NULL, which is an unsatisfied nonsecure request or a static size that wraps to 0 |
| `TeeCore.Tee.ShmAllocIoPerm` | trustkernel/source/driver/tkcore/core/tee_shm.c:732-775 | -EINVAL for a nonsecure buffer, with no change; otherwise as ShmAllocIo |
| `TeeCore.Tee.ShmFreeIo` | trustkernel/source/driver/tkcore/core/tee_shm.c:832-852 | The device makes the move of a released file |
| `TeeCore.Tee.ShmAllocFromRpc` | trustkernel/source/driver/tkcore/core/tee_shm.c:623-645 | The device makes the move of a buffer for the secure world, or no change |
| `TeeCore.Tee.ShmFreeFromRpc` | trustkernel/source/driver/tkcore/core/tee_shm.c:647-667 | The device makes the move of a free by the secure world; NULL is no change |
| `TeeCore.Tee.ShmFdForRpc` | trustkernel/source/driver/tkcore/core/tee_shm.c:671-730 | The device makes the move of an export, which what is found on the list of the secure world always allows; or -ENOMEM and no change |
| `TeeCore.Tee.PoolIncref` | trustkernel/source/driver/tkcore/armtz/tee_tz_drv.c:996-1006 | A live block gets one more reference |
| `HandleTable.GetAddsLeast` | trustkernel/source/driver/tkcore/armtz/handle.c:22-55 | A new handle is the least free one, every other handle keeps its pointer across growth, and -1 is returned exactly for NULL or a full table without memory, with no change |
| `HandleTable.PutRemoves` | trustkernel/source/driver/tkcore/armtz/handle.c:57-67 | A put returns what a lookup would, removes it, and a second put of the same handle returns NULL |
| `HandleTable.PutUndoesGet` | trustkernel/source/driver/tkcore/armtz/handle.c:22-67 | A put undoes a get, up to the size of the table |
| `HandleTable.CookiesNameOwned` | trustkernel/source/driver/tkcore/armtz/tee_tz_drv.c:430-447 | In every run of payload requests that are served one at a time the cookies that can be given back are in bijection with the buffers that the secure world owns |
| `HandleTable.ServeDoes` | trustkernel/source/driver/tkcore/armtz/tee_tz_drv.c:430-447 | A buffer gets the least free cookie and belongs to the secure world, unless it is NULL or the full table cannot grow; the buffer of a cookie is given up with it |
| `HandleThreads.AccessServes` | trustkernel/source/driver/tkcore/armtz/handle.c:22-67 | When one request is under way, each of its accesses is to a block that is there, and together they do to handles and owned buffers what the request does when served at once |
| `HandleThreads.CookiesNameOwned` | trustkernel/source/driver/tkcore/armtz/tee_tz_drv.c:430-447 | For any number of threads and any interleaving of their accesses to the table: when every request begins alone, no access is to a block that krealloc handed back, no buffer is freed twice, and cookies and owned buffers are in bijection at every moment |
| `HandleOverlap.AloneServes` | trustkernel/source/driver/tkcore/armtz/handle.c:22-67 | Left to itself every request comes to its end, and its accesses together do what it does when it is served at once |
| `HandleOverlap.OverlapGoesWrongIff` | trustkernel/source/driver/tkcore/armtz/handle.c:22-67 | Two requests at once on any table have a schedule that breaks the bijection, touches a block that was handed back or frees a buffer twice, if and only if both allocate, or one frees the cookie of the place that the other takes, or one frees while the other has to grow the table, or both free one cookie that is given out |
| `HandleOverlap.AllocMeetsAlloc` | trustkernel/source/driver/tkcore/armtz/handle.c:31-53 | The schedule for two allocations: both take the same place, or both grow the table |
| `HandleOverlap.FreeTwice` | trustkernel/source/driver/tkcore/armtz/handle.c:57-67 | The schedule for two frees of one cookie: both read the pointer before either clears it, and its buffer is freed twice |
| `HandleTable.HandleDb.HandleGet` | trustkernel/source/driver/tkcore/armtz/handle.c:22-55 | The loop and the reallocation change the array as the get function does; the capacity stays 0 or 4 doubled |
| `HandleTable.HandleDb.HandlePut` | trustkernel/source/driver/tkcore/armtz/handle.c:57-67 | The array after a put, and the pointer returned |
| `HandleTable.HandleDb.HandleLookup` | trustkernel/source/driver/tkcore/armtz/handle.c:69-75 | The pointer at a handle, NULL out of range |
| `HandleTable.HandleDb.Destroy` | trustkernel/source/driver/tkcore/armtz/handle.c:13-20 | The table is empty, and can be used again |
| `SuspendLaws.SuspendExcludesCallers` | trustkernel/source/driver/tkcore/core/pm.c:16-60 | For any number of threads and any interleaving: while the system is down the counter is -1 and no thread is between tee_keep_awake and tee_cancel_awake; otherwise the counter is their number; the unlocked read and write of tee_post_suspend leave 0; the warning about an unexpected value is unreachable |
| `SuspendLaws.CallbackPerCall` | trustkernel/source/driver/tkcore/core/pm.c:21-35 | In every run a thread has been in its callback once for each call of tkcore_stay_awake, but for a call still on its way there: none returns without it, by a signal or otherwise, and none runs it twice |
| `SuspendLaws.EnteringCounts` | trustkernel/source/driver/tkcore/core/pm.c:21-26 | A thread enters its callback by a step of its own that finds the counter not negative and raises it by one |
| `SuspendLaws.DownPerPrepare` | trustkernel/source/driver/tkcore/core/pm.c:36-60 | In every run each prepare event has brought the system down once before it returned, and each post event has brought it up again |
| `SuspendLaws.WaitersLook` | trustkernel/source/driver/tkcore/core/pm.c:21-26 | A thread that waits tries again only when it has seen the counter not negative, or for a signal |
| `SuspendLaws.NotifierLooks` | trustkernel/source/driver/tkcore/core/pm.c:36-50 | The notifier looks again only when it has seen the counter 0 |
| `SuspendLaws.StepKeepsInv` | trustkernel/source/driver/tkcore/core/pm.c:21-60 | Every step keeps the count exact and loses no wakeup: a sleeping suspender implies a positive count or a pending wake on awake_done, a sleeping caller implies a negative count or a pending wake on suspend_done |
| `SuspendLaws.NobodyStuck` | trustkernel/source/driver/tkcore/core/pm.c:21-60 | In every reachable state that is not at rest some participant under way can move |
| `SuspendLaws.EffortDrops` | trustkernel/source/driver/tkcore/core/pm.c:21-60 | Every step of a participant under way lowers one measure of what is left |
| `SuspendLaws.EverybodyGetsThrough` | trustkernel/source/driver/tkcore/core/pm.c:21-60 | From any reachable state, with no new calls, suspends or signals, every schedule ends within 180n + 29 steps for n threads, and one that cannot go on has let everybody through; no fairness is assumed |
| `SmcTransferLaws.OneThreadInside` | trustkernel/source/driver/tkcore/armtz/tee_smc_xfer.c:191-223 | At most one thread is inside tee_smc_call, and it holds the lock |
| `SmcTransferLaws.UnboundCounts` | trustkernel/source/driver/tkcore/armtz/tee_smc_xfer.c:182-219 | nr_unbound_cmds is the number of threads that entered and have not finished |
| `SmcTransferLaws.PreemptsForSomebody` | trustkernel/source/driver/tkcore/armtz/tee_smc_xfer.c:153-171 | The count that the lock holder reads is one more than the threads contending for the lock, never 0; it gives the lock up exactly when there is one, which is still contending when it does |
| `SmcTransferLaws.WaitersConserved` | trustkernel/source/driver/tkcore/armtz/tee_smc_xfer.c:742-773 | Parked callers are nr_waiting_cmds plus the permits plus the ups under way, so permits never exceed them and at most one is released per completion |
| `SmcTransferLaws.StuckIffQuiet` | trustkernel/source/driver/tkcore/armtz/tee_smc_xfer.c:175-227 | The only reachable states in which nothing but a new call can move are those with every thread outside or parked and no permit: the lock never deadlocks |
| `SmcTransferLaws.ParkedIsExcess` | trustkernel/source/driver/tkcore/armtz/tee_smc_xfer.c:742-773 | In every run: those parked without a permit on its way are as many as the largest surplus of registrations over completions that a tail of the run has |
| `SmcTransferLaws.EverybodyReleasedIff` | trustkernel/source/driver/tkcore/armtz/tee_smc_xfer.c:742-773 | When all is quiet nobody is left parked if and only if every tail of the run completes at least as often as it registers |
| `SmcCallLaws.CallsAreExecuted` | trustkernel/source/driver/tkcore/armtz/tee_smc_xfer.c:760-773 | In every run the calls of a thread by __call_tee are those that the secure world has executed, and the one it is still at: a call goes back to its caller exactly when it is executed, and a released caller calls again |
| `SmcCallLaws.PlainCallsReturn` | trustkernel/source/driver/tkcore/armtz/tee_smc_xfer.c:775-778 | A call by smc_xfer goes back with the first answer for good, whatever it is |
| `SmcCallLaws.ParksAndDequeues` | trustkernel/source/driver/tkcore/armtz/tee_smc_xfer.c:742-773 | A thread parks once for each answer "out of threads", and looks once for a waiter to release for each completion |
| `SmcCallLaws.ConsidersPerInterrupt` | trustkernel/source/driver/tkcore/armtz/tee_smc_xfer.c:153-215 | A thread considers giving up the lock once for each interrupt, and for no other answer |
| `SmcCallLaws.CallsAccountedFor` | trustkernel/source/driver/tkcore/armtz/tee_smc_xfer.c:742-773 | Over all threads: when all is quiet the calls made are those executed and those whose threads are still parked |
| `SmcTransferLaws.CompletionBeforeRegistration` | trustkernel/source/driver/tkcore/armtz/tee_smc_xfer.c:742-773 | A run in which a completion comes before the registration of the caller it should release, which then stays parked with all others gone |
| `SmcTransferLaws.StepKeepsInv` | trustkernel/source/driver/tkcore/armtz/tee_smc_xfer.c:153-227 | Every step keeps the lock, the count and the waiters in agreement |
| `WaitQueue.RendezvousSafe` | trustkernel/source/driver/tkcore/core/tee_wait_queue.c:25-73 | In every interleaving of one sleep and one wakeup per key and round in which no get has to make its entry without memory: no step touches a freed entry, no key has two entries, and the list is empty when no round is open |
| `WaitQueue.RoundGoesOn` | trustkernel/source/driver/tkcore/core/tee_wait_queue.c:48-73 | A round that is not over can always go on, whichever call comes first: no wakeup is lost |
| `WaitQueue.RoundEnds` | trustkernel/source/driver/tkcore/core/tee_wait_queue.c:48-73 | No wakeup is lost: whatever any rounds have done since, an open round is at its end after as many steps of its own calls as it had left, five at most, and those that it lacks can be taken one after the other |
| `WaitQueue.SleepWaitsForWake` | trustkernel/source/driver/tkcore/core/tee_wait_queue.c:48-73 | In every run in which no get has to make its entry without memory a sleep comes back only after its wakeup |
| `WaitQueue.StepKeepsIff` | trustkernel/source/driver/tkcore/core/tee_wait_queue.c:25-73 | No step on a state in order touches a freed entry, and it keeps one entry per key in the state of its round if and only if it is not a get that finds no entry and has no memory |
| `WaitQueue.RunKeepsIff` | trustkernel/source/driver/tkcore/core/tee_wait_queue.c:25-73 | A run stays in order throughout if and only if no get on it has to make its entry without memory |
| `WaitQueue.SleepWithoutMemory` | trustkernel/source/driver/tkcore/core/tee_wait_queue.c:36-54 | If the sleep comes first and gets no memory it returns at once and the completed entry of its wakeup stays behind |
| `WaitQueue.WakeWithoutMemory` | trustkernel/source/driver/tkcore/core/tee_wait_queue.c:36-70 | If the wakeup comes first and gets no memory the sleep never ends |
| `KeymasterCodec.RoundTrip` | trustkernel/source/external/AndroidServices/keymaster_v2/module.cpp:329-465 | What marshal writes, whatever the padding bytes and whatever follows, is read back as the same parameters for every tag kind |
| `KeymasterCodec.PrefixRejected` | trustkernel/source/external/AndroidServices/keymaster_v2/module.cpp:397-465 | No proper prefix of it is accepted |
| `KeymasterCodec.RecordLayout` | trustkernel/source/external/AndroidServices/keymaster_v2/module.cpp:287-307 | The bytes of the struct: the tag at 0, the value at 8, the length of a blob at 16, the least significant byte first, and the stack in between |
| `KeymasterCodec.EncodedAt` | trustkernel/source/external/AndroidServices/keymaster_v2/module.cpp:342-384 | The structs follow one another, each with the bytes it points to behind it |
| `KeymasterCodec.WholeLayout` | trustkernel/source/external/AndroidServices/keymaster_v2/module.cpp:329-384 | The encoding is the number of parameters and the parameters, and has the size computed for it |
| `KeymasterCodec.ReadLayout` | trustkernel/source/external/AndroidServices/keymaster_v2/module.cpp:413-441 | What is read from a struct is the number that its bytes at these places show, whatever they are |
| `KeymasterCodec.DecodeOneIff` | trustkernel/source/external/AndroidServices/keymaster_v2/module.cpp:411-455 | Exactly which inputs hold a parameter, and which: 24 bytes, and for a blob as many more as its length modulo 2^32 |
| `KeymasterCodec.Marshal` | trustkernel/source/external/AndroidServices/keymaster_v2/module.cpp:329-395 | A buffer is returned exactly when malloc succeeds and the true size is below 2^32, and it then holds exactly the encoding: the error exit and the mismatch test are not reached |
| `KeymasterCodec.MarshalSize` | trustkernel/source/external/AndroidServices/keymaster_v2/module.cpp:309-327 | The size of the encoding modulo 2^32 |
| `KeymasterCodec.PackParams` | trustkernel/source/external/AndroidServices/keymaster_v2/module.cpp:342-384 | The loop writes the encoding of all parameters, or stops exactly when the buffer is too short |
| `KeymasterCodec.Pack` | trustkernel/source/external/AndroidServices/keymaster_v2/extract.h:59-75 | The cursor macro copies and advances if and only if the bytes fit |
| `KeymasterCodec.Unmarshal` | trustkernel/source/external/AndroidServices/keymaster_v2/module.cpp:397-465 | The loop with its bounds checks computes the decoding function, rejections included, and nothing comes out when one of its allocations fails |
| `KeymasterCodec.ExtractOne` | trustkernel/source/external/AndroidServices/keymaster_v2/extract.h:4-21 | One record and its blob, taken only when they lie inside the input and there is memory for the blob |
| `PageRuns.SegmentsExpand` | trustkernel/source/driver/tkcore/core/tee_shm.c:60-79 | The segments name the pages in order and their lengths sum to the size |
| `PageRuns.SegmentsMaximal` | trustkernel/source/driver/tkcore/core/tee_shm.c:60-79 | No two neighbouring segments could be one |
| `PageRuns.CountsSegments` | trustkernel/source/driver/tkcore/core/tee_shm.c:52-75 | The first loop counts as many chunks as the second produces |
| `PageRuns.TableLossless` | trustkernel/source/driver/tkcore/core/tee_shm.c:41-82 | The table as computed in 32 and 64 bits names the pages in order, accounts for all bytes and has no two entries that could be one, whenever the condition of TableRightIff holds |
| `PageRuns.TableRightIff` | trustkernel/source/driver/tkcore/core/tee_shm.c:60-79 | For every offset in the first page the table of 32-bit and 64-bit arithmetic is the one it should be if and only if every run of pages behind the first is shorter than 4 GiB, and so is the first, or it has exactly 4 GiB, is entered behind its start, and is the last or the whole ends at a multiple of 4 GiB |
| `PageRuns.PageStartRightIff` | trustkernel/source/driver/tkcore/core/tee_shm.c:73-76 | For a buffer that starts a page: if and only if no run of pages reaches 4 GiB, where the 32-bit shift wraps |
| `PageRuns.SgAllocTableFromPages` | trustkernel/source/driver/tkcore/core/tee_shm.c:41-82 | The two loops fill the table, one entry for each chunk counted |
| `SgiBatch.TerminatesIff` | atf/v1.3/plat/mediatek/mt6739/plat_mt_gic.c:456-492 | For as many cores as the map has bits at most, the call ends if and only if no selected online core has an affinity 0 over 16; then within one turn per core |
| `SgiBatch.Delivery` | atf/v1.3/plat/mediatek/mt6739/plat_mt_gic.c:456-502 | The cluster and target bits written are exactly the selected online cores with an affinity 0 below 16 |
| `SgiBatch.WordsNameSelectedIff` | atf/v1.3/plat/mediatek/mt6739/plat_mt_gic.c:456-551 | Of the cores that are up, the words written to ICC_SGI0R_EL1 name exactly those that were selected, if and only if each of these has affinity 0 below 16 and affinities 2 and 3 of 0 |
| `SgiBatch.NamedTwiceIff` | atf/v1.3/plat/mediatek/mt6739/plat_mt_gic.c:494-547 | Some core is named by two of the words written if and only if two selected cores differ only in what a word does not carry, which is all but the affinities 0 and 1 |
| `SgiBatch.AllSignalledIff` | atf/v1.3/plat/mediatek/mt6739/plat_mt_gic.c:471-485 | Every selected core is signalled if and only if none has affinity 16, whose bit falls out of the 16-bit list |
| `SgiBatch.OneWritePerRun` | atf/v1.3/plat/mediatek/mt6739/plat_mt_gic.c:479-482 | There is one write for each maximal run of selected cores of the same cluster |
| `SgiBatch.OneWritePerCluster` | atf/v1.3/plat/mediatek/mt6739/plat_mt_gic.c:479-482 | With contiguous clusters no cluster is written twice |
| `SgiBatch.WordFields` | atf/v1.3/plat/mediatek/mt6739/plat_mt_gic.c:494-502 | TargetList and Aff1 come out as they went in, Aff2 and Aff3 are 0, and INTID is the interrupt if and only if it is below 16 |
| `SgiBatch.ComputeTargetList` | atf/v1.3/plat/mediatek/mt6739/plat_mt_gic.c:456-492 | The loop gathers the affinities of the cores of the cluster and moves the core index, a uint8_t, to the last core passed |
| `SgiBatch.IrqRaiseSoftirq` | atf/v1.3/plat/mediatek/mt6739/plat_mt_gic.c:514-551 | The values written to the register, in order |

## Left out

- The big.LITTLE path of tee_smc_xfer.c: its natural completion claims do not hold, because the daemon signals the command it took even after another one was swapped in.
- Which of its answers the secure world gives and when, the classification of return codes, and the end of call_tee: the answers are arbitrary.
- LogRing.LogDriver.Read: is stated for a reader that no store overtakes, because LogRace has the overlapping accesses; of the branch that reports missing bytes LogRace keeps which bytes follow the notice, not the length returned, which does not follow from what was copied. The waiting and the signals of tee_log_read are left out.
- The byte behind the text that print_to_kmsg looks at before it compares the index: the buffer is one byte longer in the model.
- p2v, v2p, destroy and the dump of the pool, and the debugging output everywhere: easy members.
- The flags, sizes, device pointers and scatterlists of a buffer, mmap, dma-buf attachment and tee_shm_get and tee_shm_put: they hold no count that is modelled here.
- The filling and releasing of commands in tee_session.c: its temporary buffers appear as loans of the pool.
- How tee_shm_fd_for_rpc compares an address with tokens and addresses: which entry of the list it finds is arbitrary.
- TeeCore.Tee.Get: does not model tee.max_refcount, which tee_get reads and writes without a lock, so that it need not be a maximum.
- A second close of a session by another thread while the first is under way, and any use of an object after its last reference: the callers of the driver do not do it.
- ObjectGraphProofs.AllocIoKeeps: does not model the failure of sg_alloc_table in tee_shm_alloc_static (tee_shm.c:116-121), where tz_free meets a buffer whose tee is still NULL and stops the kernel (tee_tz_drv.c:976); nor a close that comes between fd_install (tee_shm.c:804) and the store of shm->ctx (tee_shm.c:818).
- TeeCore.Tee.ShmAlloc: does not model the failure of sg_alloc_table (tee_shm.c:116-121), because its clean-up stops the kernel.
- TeeCore.Tee.ShmAllocIo: does not model the failure of sg_alloc_table and a file that is closed before shm->ctx is set.
- Interference inside a method of TeeCore: a method that spans two critical sections runs them one after the other; their interleavings are in ObjectGraphLaws.
- keymaster_tag_get_type is not part of this model: the kind of a tag is an arbitrary function.
- keymaster_v1 repeats the codec of keymaster_v2; the OpenSSL conversions and the calls into the secure world around it are not modelled.
- ShmPool.ShmPool.Alloc: does not model alignments that are neither 0 nor a power of two, for which the ALIGN mask aligns to nothing.
- A wakeup of the next round of a key that comes between the wait and the unlinking of the round before: WaitQueue opens a round of a key when the last one is over.
- LogRace: over several passes says when all is right and that each pass without room can go wrong, and not which mixtures of passes with at most one byte unread are right.
- HandleOverlap: three requests at once; a free of which the kfree has not happened yet.
- HandleTable: handles past 2^31, which would read as negative, need a table of 16 GiB.
- PageRuns.TableLossless: assumes the condition of PageRuns.TableRightIff, because a scatterlist length is an unsigned int.
- SgiBatch.IrqRaiseSoftirq: models the calls that end; when they do is SgiBatch.TerminatesIff. Aff2 and Aff3 are not written by the source.
- The rest of the interrupt controller code, the secure payload dispatcher, the device protection tables, the Python tools, the patches and module registration: plumbing.
- Memory barriers and weak memory ordering.
