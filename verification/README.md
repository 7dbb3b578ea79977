# Proofs about the TINOS kernel

A Dafny 4.11 model of the stateful machinery of the TINOS kernel and of the in-place algorithms of its
C library. `dafny verify dfyconfig.toml` checks it.

Code that changes things in place is modelled by classes and methods with the same fields, loops and
branches; each is proved against functions on values, and what the code is for is proved about those
functions, for all inputs and over all runs.

- **Semaphores and threads** (`Queue`, `Semaphores`, `Kernel`): the circular queues, the ready ring and the
  wait queues. Threads are on one queue each, waiters are released first come first served.
- **Messages** (`Messages`, `MessageSteps`, `MessageRuns`, `MessageHistory`, `MessageEffects`, `PortLists`,
  `PortRuns`): a port as a state machine. A step is what runs without another thread or an interrupt getting
  in between; any ready thread may take the next step and an interrupt may come at any time. History fields
  (who has a message, the order of enqueues, the sends of each interrupt) are in no branch of the model. The
  linked lists of the port in memory follow it through every run, and what a send and a receive come to is
  followed from step to step.
- **Buffer cache** (`BufferLists`, `CacheSpec`, `BufferCache`): hash chains and the free ring over the same
  buffer headers, against a total read-only disk, under least-recently-released replacement.
- **ext2 reader** (`Ext2Blocks`, `Ext2Read`): block lookup through the indirect blocks, and reads of any
  alignment, on top of the cache.
- **qsort** (`Qsort`): records in a byte buffer, quicksort that stops early and the sentinel insertion sort
  that relies on it. Section 7.20.5.2 of ISO/IEC 9899:1999.
- **random** (`Random`, `RandomTable`): the two-pointer tables, their streams, switching between state arrays,
  and the table the source starts with, which is the one of seed 1.
- **Memory** (`Pages`, `PoolSpec`, `Pool`, `PoolAlloc`, `Vas`, `HatSpec`, `Hat`): the page free list, pools of
  equal chunks, regions of an address space, two-level page tables.
- **Numbers** (`Strtol`, `Number`): strtol, strtoul and the integer formats of vsprintf, which undo each
  other. Sections 7.20.1.4 and 7.19.6.1 of ISO/IEC 9899:1999.
- **Scheduler** (`SchedSpec`, `SchedUsage`, `Sched`): clock ticks, ageing, usage, the choice of the next thread.

`Common` and `Digits` hold what several of these use. `Digits` writes products, quotients and remainders of
variables as repeated addition and subtraction, so that the proofs stay linear; `Digits.AreOperators` and
`Digits.TimesIsProduct` say that they are the usual operators. Where the source masks with a size that is
a power of two, the model takes a remainder.

## Where the code does something else

- `ext2fs_get_block` leaves out a remainder in the triple tree (src/kernel/dev/ext2fs.c:442). Lookups are right
  exactly up to the first entries^2 triple-indirect blocks (`LookupIsFlat`, `FarRead`). Inside a tree it follows a null
  pointer as block 0 (`HoleInDouble`, `HoleInTriple`, `StrayRead`). `LookupExact` says for every index when
  a lookup is right, and `ReadRight` when a read is.
- `ext2fs_read` returns 0 for a hole in the first or last part of a block and -1 for a whole one, and its
  count is an int (`AdjustedIsWanted`).
- `buf_getblk` leaves a buffer for block (0, 0) unhashed the first time (src/kernel/dev/buf.c:296), so that block
  can be in two buffers (`ZeroBlockTwice`).
- `m_receive` reads and resets the count of an interrupt message in two instructions
  (src/kernel/kern/msg.c:240-241); the sends in between, and only those, are lost (`InterruptsConserved`,
  `InterruptLost`), and without any nothing is (`NothingLost`).
- `free_pool`'s scan does not advance (src/kernel/kern/pool.c:210); `FindBefore` has the intended step, and
  `ScanAsWrittenFinds` says when the loop as it stands ends.
- Page 2 is on the free list from the start, but `free_page` takes back only pages above it
  (src/kernel/vm/page.c:172, 333), so a pool that had it loses it (`SecondReservedPageIsLost`, `FreePool`).
- `region_create` refuses every region in front of two or more, because the ring makes the last region the
  predecessor of the first (src/kernel/vm/vas.c:136-141, `FitsExactly`).
- A page whose directory slot gets a table through another page's insert reads 0 instead of -1 from
  `hat_getpfn` (`InsertTranslates`), and `hat_map` of no pages makes a table (`HatMap`).
- The comment on `setstate` says it may be called with the current array; that keeps the stream just
  when the rear pointer is where the saved word has it (src/libc/stdlib/random.c:286-302, `SetstateOnCurrent`),
  and loses it after one call from the table the source starts with (`SetstateAtStart`).
- `sched_preempt--` wraps from 0 to 2^32 - 1 on a tick that had nothing to answer
  (src/kernel/kern/sched.c:284). While it is not 0 every tick reschedules, and a request that comes when it is
  at 2^32 - 1 makes it 0 and goes unanswered (`TickReschedules`, `RequestHonoured`, `RequestLost`); `PreemptCounts`
  says when it still counts the requests.
- For `0x` without a hexadecimal digit `strtol` finds no number and sets the end to the start, where section
  7.20.1.4 has the 0 for the number (src/libc/stdlib/strtol.c:34-40, 91; `SubjectFound`).

## Model

| member | source | states |
|---|---|---|
| Queue.Enqueue | include/tinos/queue.h:23-34 | the element ends up last in the ring, the others keep their order, and no link of an element outside the ring changes |
| Queue.EnqueueBefore | include/tinos/queue.h:50-58 | the element ends up just before a given one, which makes it the new head when that was the head |
| Queue.Dequeue | include/tinos/queue.h:60-73 | the ring without that element, in order; the head moves on if it was the head, and is null for the last one |
| Queue.Unlink | src/kernel/kern/thread.c:121-128 | the same for a ready thread that is never the head, without the tests for it |
| Semaphores.PKeepsInv | src/kernel/kern/sema.c:71-96 | a P by a ready thread keeps every thread on exactly one queue, -count waiters on a negative semaphore, the ready count, and first-in first-out order of release |
| Semaphores.VKeepsInv | src/kernel/kern/sema.c:98-120 | a V keeps the same |
| Semaphores.PEffect | src/kernel/kern/sema.c:71-96 | a P takes a unit if there is one and the thread runs on; else the thread is off the ready ring, whose others keep their order, and last on the wait queue; nothing else changes |
| Semaphores.VEffect | src/kernel/kern/sema.c:98-120 | a V makes the thread that waits longest the last ready one; with none waiting there is a unit more; nothing else changes |
| Semaphores.CreateKeepsInv | src/kernel/kern/thread.c:262-271 | a new thread keeps the same |
| SemaphoreRuns.BootInv | src/kernel/kern/thread.c:56-75 | the idle thread alone on the ready ring meets the invariant |
| SemaphoreRuns.ApplyKeepsInv | src/kernel/kern/sema.c:47-120 | each operation keeps the invariant |
| SemaphoreRuns.RunKeepsInv | src/kernel/kern/sema.c:47-120 | so does every sequence of operations |
| SemaphoreRuns.EveryReachableState | src/kernel/kern/sema.c:71-120 | in every reachable state a thread is ready or waits on exactly one semaphore; a semaphore has -count waiters if count is negative and else none; the completed P operations do not exceed the initial count plus the V operations; those released are, in order, the first that came; the ready count is the size of the ring |
| SemaphoreRuns.VsRelease | src/kernel/kern/sema.c:98-120 | n V operations in a row release the first n waiters, in order, and no other |
| KernelQueues.KernelState.constructor | src/kernel/kern/thread.c:56-75 | the links and counters of the idle thread alone represent the initial state |
| KernelQueues.KernelState.ThreadSleep | src/kernel/kern/thread.c:133-149 | takes the thread off the ready ring and counts one ready thread less; one that sleeps already is left alone |
| KernelQueues.KernelState.ThreadWakeup | src/kernel/kern/thread.c:154-169 | puts it back last in the ready ring and counts one more; one that is awake is left alone |
| KernelQueues.KernelState.SemaInit | src/kernel/kern/sema.c:47-69 | a semaphore with a value and an empty wait queue |
| KernelQueues.KernelState.SemaSetval | src/kernel/kern/sema.c:58-69 | sets the count and nothing else; while no thread waits the semaphore is as new, else count and queue match only if the count is what it was |
| KernelQueues.KernelState.SemaP | src/kernel/kern/sema.c:71-96 | the ring links, counts and wait queues after it are those of the P operation on values |
| KernelQueues.KernelState.SemaV | src/kernel/kern/sema.c:98-120 | the same for V: the first waiter, and only it, becomes the last ready thread |
| KernelQueues.KernelState.CreateThread | src/kernel/kern/thread.c:262-271 | the same for thread creation |
| KernelQueues.QueuesApart | src/kernel/kern/sema.c:71-120 | a ready thread is on no wait queue, so relinking it disturbs none |
| KernelQueues.WaiterAsleep | src/kernel/kern/sema.c:98-120 | the thread at the head of a wait queue is asleep and off the ready ring |
| MessageRuns.InitialInv | src/kernel/kern/msg.c:67-114 | a port as alloc_port leaves it, with its free messages and the interrupt messages unused, meets the invariant |
| MessageRuns.SomeStart | src/kernel/kern/msg.c:67-114 | there is such a start for any number of threads and interrupt messages |
| MessageRuns.NextKeepsInv | src/kernel/kern/msg.c:116-360 | every step any thread or interrupt can take keeps it |
| MessageRuns.RunKeepsInv | src/kernel/kern/msg.c:116-360 | so does every interleaving |
| MessageRuns.ReachableInv | src/kernel/kern/msg.c:67-360 | it holds in every reachable state |
| MessageRuns.QueueLength | src/kernel/kern/msg.c:203-327 | in every interleaving the queue is as long as max(recv.count, 0) plus the receivers past the gate plus the senders between enqueue and V; a receiver past the gate never finds it empty |
| MessageRuns.ReceivedInOrder | src/kernel/kern/msg.c:147-239 | messages are received in the order in which they were enqueued, with nothing lost or repeated |
| MessageRuns.ReceivedIntact | src/kernel/kern/msg.c:224-265 | what a receiver reads of a message is what it was when enqueued |
| MessageRuns.SenderReturnsAfterTaken | src/kernel/kern/msg.c:303-327 | a sender goes on only after its message has been taken off the queue |
| MessageRuns.SleepingSenderIsServed | src/kernel/kern/msg.c:311-327 | a sleeping sender's message is queued or in the hands of a receiver that will wake it |
| MessageRuns.NoMessageStranded | src/kernel/kern/msg.c:203-239 | no message waits while all receivers sleep and none is being woken |
| MessageRuns.InterruptQueuedOnce | src/kernel/kern/msg.c:276-297 | an interrupt message is queued at most once, exactly while its count is positive and no receiver is about to read the count |
| MessageRuns.InterruptsConserved | src/kernel/kern/msg.c:240-297 | sends = reported + pending + lost, and what is lost is exactly the sends that fall between the two instructions that read and reset the count |
| MessageLoss.NothingLost | src/kernel/kern/msg.c:240-297 | over any run with no send between the two instructions, as if they were one step, sends = reported + pending and nothing is lost |
| MessageLoss.InterruptLost | src/kernel/kern/msg.c:240-241 | a run of one receiver and two interrupts in which one is lost |
| MessageEffects.GetFreeGets | src/kernel/kern/msg.c:127-142 | in every reachable state a send gets a message exactly if one is free, the first; it is then free no more, and nothing else changes |
| MessageEffects.FillFills | src/kernel/kern/msg.c:276-360 | it is filled with the copy and counted once, and the sender goes on to enqueue it |
| MessageEffects.EnqPosts | src/kernel/kern/msg.c:303-306 | it joins the queue as it is |
| MessageEffects.SignalWakes | src/kernel/kern/msg.c:308-311 | the V lets the receiver that has slept longest past the gate, or else one more of those to come |
| MessageEffects.AwaitWaits | src/kernel/kern/msg.c:313-319 | the sender sleeps exactly if the receiver has not finished with its message |
| MessageEffects.PutFreeReturns | src/kernel/kern/msg.c:116-125 | the message is free again, and first in line |
| MessageEffects.GateOpens | src/kernel/kern/msg.c:203-223 | a receiver goes past the gate exactly if there are more messages than receivers past it and senders before their V; else it sleeps |
| MessageEffects.TakeTakes | src/kernel/kern/msg.c:224-239 | it takes the head of the queue, with what it carries |
| MessageEffects.CountIsRead | src/kernel/kern/msg.c:240-241 | it reads the count, and what it then reports of an interrupt is what it read; the count is 0 |
| MessageEffects.FinishReleases | src/kernel/kern/msg.c:255-265 | the sender of the message goes on if it sleeps, and will not sleep if it does not yet |
| MessageEffects.InterruptCounts | src/kernel/kern/msg.c:276-297 | an interrupt adds one to the count, and queues the message and wakes a receiver exactly if none was pending |
| MessageExchange.ReceiverFirst | src/kernel/kern/msg.c:203-360 | from any quiet reachable state: a receiver that comes first sleeps, is woken by the send, and has the copy of what was sent; the sender sleeps until it is taken; in the end both are out and queue, free list and counts are as before |
| MessageExchange.SenderFirst | src/kernel/kern/msg.c:203-360 | so it is with the sender first |
| MessageExchange.StartsQuiet | src/kernel/kern/msg.c:67-114 | a new port is such a state, for any two threads but the idle one |
| MessageExchange.FirstExchange | src/kernel/kern/msg.c:67-360 | the first send and receive on a new port, step by step |
| PortLists.Lists.Enq | src/kernel/kern/msg.c:144-159 | the message joins the queue last even though the tail is never cleared when the queue empties |
| PortLists.Lists.TakeHead | src/kernel/kern/msg.c:224-232 | the head of the queue, which then starts at the next message |
| PortLists.Lists.PutFree | src/kernel/kern/msg.c:116-125 | the message becomes the first of the free list; the queue is untouched |
| PortLists.Lists.GetFree | src/kernel/kern/msg.c:127-142 | the first free message, or null |
| PortLists.Lists.Fill | src/kernel/kern/msg.c:97-111 | the free list has all the messages of the new port, the last one first |
| PortRuns.CallsAllowed | src/kernel/kern/msg.c:116-159 | where a step of any interleaving puts a message on the queue or the free list, it is not on that list; where it takes the head of the queue, there is one |
| PortRuns.PortMemory.constructor | src/kernel/kern/msg.c:67-114 | the lists as alloc_port links them hold the queue and the free list of the start |
| PortRuns.PortMemory.Do | src/kernel/kern/msg.c:116-360 | the links in memory go on holding the queue and the free list of the state machine through every step, with the list call the step makes; a receiver gets the head of the queue, a sender the first free message, with which it goes on |
| PortRuns.PortMemory.Play | src/kernel/kern/msg.c:116-360 | so they do through every run |
| MessageData.CopyIsPrefix | src/kernel/kern/msg.c:351-357 | the copy has the sender's id, and the first 32 bytes of its data, all of it if it is no longer, none if there is none |
| MessageData.MessageCarries | src/kernel/kern/msg.c:336-360 | in every run a filled or queued message carries the copy of what its sender handed over, and so does what a receiver takes |
| BufferLists.UnlinkKeepsRing | src/kernel/dev/buf.c:195-227 | taking a buffer off the free ring leaves the ring of the others in order of release |
| BufferLists.AppendKeepsRing | src/kernel/dev/buf.c:165-193 | a released buffer is the last of the ring |
| BufferLists.UnchainKeepsChain | src/kernel/dev/buf.c:145-163 | taking a buffer off a hash chain leaves the chain of the others |
| BufferLists.ChainInsert | src/kernel/dev/buf.c:133-143 | a buffer becomes the first of a chain |
| HashFunction.HashSpreads | src/kernel/dev/buf.c:26 | blocks of one device share a chain exactly if their numbers agree modulo 32, and so do devices for one block number |
| BufferHash.RemoveHashed | src/kernel/dev/buf.c:145-163 | removal keeps each other buffer on the chain its key selects |
| BufferHash.RemoveUnhashed | src/kernel/dev/buf.c:145-163 | removing a buffer that was never hashed changes nothing |
| BufferHash.InsertHashed | src/kernel/dev/buf.c:133-143 | insertion keeps each buffer on the chain its key selects |
| CacheSpec.ReadKeepsInv | src/kernel/dev/buf.c:273-306 | a read keeps every block in at most one hashed buffer, and takes its buffer off the free list with the right key |
| CacheSpec.ReadChanges | src/kernel/dev/buf.c:265-306 | a read gives the buffer that has the block, else the head of the free list; that leaves the list, in which the others keep their order, and no other buffer changes |
| CacheSpec.OneBufferPerBlock | src/kernel/dev/buf.c:273-306 | no block but (0, 0) is in two buffers |
| CacheSpec.RereadSameBuffer | src/kernel/dev/buf.c:296-297 | a block read again after its release comes back in the same buffer, exactly unless the shortcut of line 296 was taken, which happens for (0, 0) only |
| CacheSpec.ZeroBlockTwice | src/kernel/dev/buf.c:296-297 | in a fresh cache (0, 0) read twice does end up in two buffers |
| CacheSpec.ApplyKeepsInv | src/kernel/dev/buf.c:273-345 | a read or a release keeps the free list in order of release |
| CacheSpec.RunKeepsInv | src/kernel/dev/buf.c:273-345 | so does every run of them |
| CacheSpec.StartInv | src/kernel/dev/buf.c:49-115 | the buffers as buf_init leaves them meet the invariant |
| CacheSpec.LeastRecentlyReleased | src/kernel/dev/buf.c:231-306 | in every run the buffer given to a new block is the one released longest ago |
| BufferCache.InitialRing | src/kernel/dev/buf.c:80-115 | the links buf_init sets up are the free ring of all buffers |
| BufferCache.FoundOnChain | src/kernel/dev/buf.c:248-258 | a walk of the chain of a key finds the buffer of that block if any buffer has it |
| BufferCache.Cache.constructor | src/kernel/dev/buf.c:49-115 | after buf_init every buffer is free and unhashed |
| BufferCache.Cache.WalkChain | src/kernel/dev/buf.c:252-257 | the first buffer of a chain with the key |
| BufferCache.Cache.GetHash | src/kernel/dev/buf.c:248-258 | the buffer that has the block, or null |
| BufferCache.Cache.RemoveFree | src/kernel/dev/buf.c:195-227 | the free ring without that buffer |
| BufferCache.Cache.InsertFree | src/kernel/dev/buf.c:165-193 | the free ring with it last |
| BufferCache.Cache.RemoveHash | src/kernel/dev/buf.c:145-163 | the hash table without it |
| BufferCache.Cache.InsertHash | src/kernel/dev/buf.c:133-143 | the hash table with it |
| BufferCache.Cache.Rekey | src/kernel/dev/buf.c:299-303 | the buffer stands for the new block alone, its data unread |
| BufferCache.Cache.Claim | src/kernel/dev/buf.c:276-295 | the buffer of the block, else the least recently released one, is off the free list |
| BufferCache.Cache.Getblk | src/kernel/dev/buf.c:273-306 | the abstract read, on all links and fields |
| BufferCache.Cache.Fetch | src/kernel/dev/buf.c:318-331 | the data is the disk's; it is read and marked if it was not there, else nothing changes |
| BufferCache.Cache.Bread | src/kernel/dev/buf.c:310-334 | whatever was read and released before, the buffer holds exactly the requested block of the disk; it alone has left the free list, and no other buffer is given to another block |
| BufferCache.Cache.Brelse | src/kernel/dev/buf.c:336-345 | the buffer is free again, last in line; no block changes its buffer |
| Ext2Blocks.PathThenIndex | src/kernel/dev/ext2fs.c:336-461 | each block index of the largest file has an in-range path through the trees, and that path has this index |
| Ext2Blocks.IndexThenPath | src/kernel/dev/ext2fs.c:336-461 | each in-range path has a block index, and that index has this path |
| Ext2Blocks.LeavesLength | src/kernel/dev/ext2fs.c:336-461 | a tree of n levels has entries^n leaves |
| Ext2Blocks.LeafAt | src/kernel/dev/ext2fs.c:384-461 | the leaf at a position is found by dividing the position |
| Ext2Blocks.WalkIsFlat | src/kernel/dev/ext2fs.c:315-466 | with the remainder that line 442 leaves out, every lookup is an index into the flat left-to-right list of the file's blocks |
| Ext2Blocks.LookupIsFlat | src/kernel/dev/ext2fs.c:315-466 | as written, a lookup is that, exactly up to the first entries^2 blocks of the triple tree (or with no triple tree), and past them reads beyond an indirect block |
| Ext2Blocks.TripleReach | src/kernel/dev/ext2fs.c:442-443 | the second index stays inside its block just for those |
| Ext2Blocks.HoleInDouble | src/kernel/dev/ext2fs.c:367-403 | where a double indirect pointer is null the file has a hole, but the lookup gives an entry of block 0 of the device |
| Ext2Blocks.HoleInTriple | src/kernel/dev/ext2fs.c:405-461 | the same for a null pointer in either level of the triple indirect tree |
| Ext2Blocks.LookupExact | src/kernel/dev/ext2fs.c:315-466 | for every index the lookup gives the file's block, or 0 for none, exactly when: past i_blocks the file has none; else the index is reached, and no null pointer inside a tree is on the way unless what is read there instead is 0 too |
| Ext2Blocks.BlockFound | src/kernel/dev/ext2fs.c:315-466 | a block of the file within i_blocks and reach is found |
| Ext2Blocks.EntryIs | src/kernel/dev/ext2fs.c:354 | an entry of an indirect block is the word its four bytes hold, least significant first |
| Ext2Blocks.SingleByBytes | src/kernel/dev/ext2fs.c:336-362 | a lookup in the single indirect block gives the word those bytes hold |
| Ext2Blocks.DoubleByBytes | src/kernel/dev/ext2fs.c:363-403 | so with two levels |
| Ext2Blocks.TripleByBytes | src/kernel/dev/ext2fs.c:405-461 | and with three, for the first entries^2 blocks |
| Ext2Blocks.MixedBlocks | src/kernel/dev/ext2fs.c:315-466 | a file with lookups of all four kinds |
| Ext2Blocks.StrayRead | src/kernel/dev/ext2fs.c:367-403 | a file with a hole for which the lookup gives a block |
| Ext2Blocks.FarRead | src/kernel/dev/ext2fs.c:405-461 | a file with a block in its triple tree for which the lookup leaves an indirect block |
| Ext2Read.Ext2.GetBlock | src/kernel/dev/ext2fs.c:315-466 | through the cache, the lookup above; every buffer is released again |
| Ext2Read.Ext2.ReadEntry | src/kernel/dev/ext2fs.c:348-355 | the entry of an indirect block on the disk, or none past its end |
| Ext2Read.Ext2.BlockOf | src/kernel/dev/ext2fs.c:576-582 | the block of the disk, and no buffer left in use |
| Ext2Read.ReadAndRelease | src/kernel/dev/ext2fs.c:576-582 | with every buffer free a read may be made, and its release frees every buffer |
| Ext2Read.Ext2.CopyFrom | src/kernel/dev/ext2fs.c:572-582 | the next bytes of the buffer are those of the block looked up, or the lookup gives none and nothing is written |
| Ext2Read.Ext2.ReadBlocks | src/kernel/dev/ext2fs.c:592-636 | the whole blocks and the tail, as far as lookups give blocks |
| Ext2Read.Ext2.ReadFound | src/kernel/dev/ext2fs.c:522-637 | head, whole blocks and tail: the bytes of the blocks looked up, and the result that goes with where they end |
| Ext2Read.Ext2.Read | src/kernel/dev/ext2fs.c:522-637 | the buffer holds the file's bytes up to its first hole, and the result is the count if there is none, -1 if the hole is a whole block of the request and 0 if it is a part of one, exactly when the lookups up to there are right; nothing past the count is written |
| Ext2Bytes.AdjustedIsWanted | src/kernel/dev/ext2fs.c:546-553 | the count is min(count, size - pos), or none at or past the end, exactly when that fits an int and pos is at most 2^31 past the end |
| Ext2Bytes.StretchCopied | src/kernel/dev/ext2fs.c:558-634 | bytes copied from a block at the position division gives continue the slice |
| Ext2Bytes.WantedIsMost | src/kernel/dev/ext2fs.c:546-553 | the bytes wanted are the most that count and the size of the file allow |
| Ext2Bytes.StoppedMeans | src/kernel/dev/ext2fs.c:555-637 | the result is the count if every block is there; else -1 if the one missing is a whole block of the request, and 0 if it is a part of one |
| Ext2Bytes.ByteMeans | src/kernel/dev/ext2fs.c:555-637 | byte o of the file is byte o % block_size of block o / block_size |
| Ext2Bytes.ReadRight | src/kernel/dev/ext2fs.c:522-637 | what a read copies and returns is right for the file, holes included, exactly when the lookups up to its first hole are right |
| Ext2Bytes.WholeRead | src/kernel/dev/ext2fs.c:522-637 | with the file's blocks all there exactly min(count, size - pos) bytes are returned, and they are the file's, for every alignment |
| Ext2Bytes.ChunksDeliver | src/kernel/dev/ext2fs.c:522-637 | reads one after the other deliver what is due to the sum of their counts |
| Ext2Read.Ext2.ReadChunks | src/kernel/dev/ext2fs.c:522-637 | calls of the read, one after the other, deliver the file's bytes of the whole range |
| Ext2Bytes.ChunksConcatenate | src/kernel/dev/ext2fs.c:522-637 | they concatenate to the one large read |
| RecordBuffer.SwapBytes | src/libc/stdlib/qsort.c:137-142 | the byte loop exchanges two stretches |
| RecordBuffer.SwapRecords | src/libc/stdlib/qsort.c:137-142 | it exchanges two records and leaves all others |
| RecordBuffer.RotateColumn | src/libc/stdlib/qsort.c:233-236 | the inner loop moves one byte column up by one record |
| RecordBuffer.InsertRecord | src/libc/stdlib/qsort.c:231-237 | the column-wise rotation takes one record out and puts it back further down |
| RecordBuffer.RotatedRecords | src/libc/stdlib/qsort.c:231-237 | rotating all columns is rotating the records |
| QuickSort.MedianOfThree | src/libc/stdlib/qsort.c:76-86 | a median of first, middle and last |
| QuickSort.MedianToMiddle | src/libc/stdlib/qsort.c:76-96 | the middle record is that median, for a large enough part |
| QuickSort.ScanUp | src/libc/stdlib/qsort.c:102-103 | stops at the first record above the pivot |
| QuickSort.ScanDown | src/libc/stdlib/qsort.c:104-110 | stops at the last record below it |
| QuickSort.Partition | src/libc/stdlib/qsort.c:100-144 | with a pivot that moves: all before it are at most, all after it at least the pivot, and the part is a permutation of itself |
| QuickSort.PartingStep | src/libc/stdlib/qsort.c:111-143 | each of the three swaps keeps the partition found so far |
| QuickSort.Qst | src/libc/stdlib/qsort.c:57-168 | a permutation in which records three or more places apart are in order; the recursion is at most log2(n) deep |
| QuickSort.QstIfLarge | src/libc/stdlib/qsort.c:156-164 | the same for the recursive call, made on parts of at least THRESH only |
| QuickSort.NearSortedJoin | src/libc/stdlib/qsort.c:153-167 | two nearly sorted parts on either side of a cut are nearly sorted as one |
| Qsort.FindSentinel | src/libc/stdlib/qsort.c:206-208 | the minimum of the first THRESH is found, the first of equals |
| Qsort.PlaceSentinel | src/libc/stdlib/qsort.c:206-218 | the minimum of the whole array is then first, because qst left it among the first THRESH |
| Qsort.ScanBack | src/libc/stdlib/qsort.c:228-229 | the scan without a bounds check stops inside the array, at the record's place, after at most 3 comparisons |
| Qsort.InsertNext | src/libc/stdlib/qsort.c:226-238 | one more record is sorted in |
| Qsort.InsertedSorted | src/libc/stdlib/qsort.c:226-238 | an insertion at the place found keeps the sorted part sorted |
| Qsort.InsertedNearSorted | src/libc/stdlib/qsort.c:226-238 | and keeps records three places apart in order |
| Qsort.InsertedPermutes | src/libc/stdlib/qsort.c:231-237 | and is a permutation |
| Qsort.Qsort | src/libc/stdlib/qsort.c:177-240 | for every array, size and total preorder: a sorted permutation, with at most 3(n-1) comparisons in the insertion phase |
| LaggedStreams.LaggedRecurrence | src/libc/stdlib/random.c:340-365 | y(n) = y(n - deg) + y(n - sep) modulo 2^32, and the output is y(n) without its low bit |
| LaggedStreams.Trinomials | src/libc/stdlib/random.c:70-92 | y(n) = y(n - 7) + y(n - 3), y(n - 15) + y(n - 1), y(n - 31) + y(n - 3) and y(n - 63) + y(n - 1), modulo 2^32, for kinds 1 to 4 |
| LaggedStreams.Congruence | src/libc/stdlib/random.c:346-348 | kind 0: each number is 1103515245 times the one before plus 12345, modulo 2^31 |
| LaggedStreams.FillIs | src/libc/stdlib/random.c:190-194 | the fill begins with the seed and goes on by that congruence modulo 2^32 |
| LaggedStreams.SeededStream | src/libc/stdlib/random.c:174-201 | the numbers after seeding are the terms of the recurrence over the fill, from 11 * deg on, halved |
| LaggedStreams.TermAt | src/libc/stdlib/random.c:340-365 | the terms of a stream and its outputs correspond |
| LaggedStreams.Independent | src/libc/stdlib/random.c:219-323 | whatever is seeded and drawn from other state arrays in between, what is drawn from one is its own stream without interruption |
| RandomState.TableStep | src/libc/stdlib/random.c:351-363 | one addition and two pointer moves in the circular table are one step of the stream |
| RandomState.RotatedStep | src/libc/stdlib/random.c:351-363 | the table read from the front pointer on is the window of the recurrence |
| RandomState.MarkReadBack | src/libc/stdlib/random.c:295-302 | the bookkeeping word gives back kind and rear pointer |
| RandomState.FrontIsModulo | src/libc/stdlib/random.c:316-320 | the front pointer is sep ahead of the rear one modulo deg |
| RandomState.RearCycles | src/libc/stdlib/random.c:195-198 | deg calls bring the pointers back |
| RandomState.SetstateOnCurrent | src/libc/stdlib/random.c:291-323 | setstate on the current array keeps its stream, whatever the table, exactly if the rear pointer is where the saved word has it |
| RandomState.SetstateAtStart | src/libc/stdlib/random.c:291-323 | the table the source starts with, one call and setstate on it: the next number is not the next of the stream |
| RandomState.FrontsDiffer | src/libc/stdlib/random.c:340-365 | distinct rear pointers have distinct front pointers |
| RandomState.Random.constructor | src/libc/stdlib/random.c:122-163 | the static initial state is a valid table of kind 3 with its pointers sep apart |
| RandomState.Random.DrawLag | src/libc/stdlib/random.c:351-363 | the front pointer stays sep ahead, and both pointers never wrap on the same call |
| RandomState.Random.Draw | src/libc/stdlib/random.c:340-365 | the next output of the current stream |
| RandomState.Random.Random | src/libc/stdlib/random.c:340-365 | the same, with every other array's stream as it was |
| RandomState.Random.Reseed | src/libc/stdlib/random.c:178-201 | the current array's stream is the one of the seed; no other changes: the reseeding step of the machine of streams |
| RandomState.Random.Srandom | src/libc/stdlib/random.c:178-201 | the stream of the seed, with the pointers at their starting slots |
| RandomState.Random.FillTable | src/libc/stdlib/random.c:190-194 | the linear congruential fill |
| RandomState.Random.WarmUp | src/libc/stdlib/random.c:195-198 | 10 * deg calls discard that many terms and bring both pointers back to where they started |
| RandomState.Random.SaveMark | src/libc/stdlib/random.c:299-302 | what the array then holds stands for the current stream |
| RandomState.Random.Initstate | src/libc/stdlib/random.c:219-277 | the new array has the stream of the seed, of the largest kind its size allows; the others keep theirs; too small an array is refused and nothing changes |
| RandomState.Random.Setstate | src/libc/stdlib/random.c:291-323 | the array continues the stream it held and all others keep theirs, the switching step of the machine, unless it is the current one |
| RandomState.KindFits | src/libc/stdlib/random.c:228-268 | the kind chosen for a size fits it |
| RandomState.KindIsLargest | src/libc/stdlib/random.c:232-276 | no larger kind fits |
| RandomTable.StartsSeeded | src/libc/stdlib/random.c:108-130 | the table random() starts with is the one srandom(1) makes, as its comment says |
| RandomTable.AtStart | src/libc/stdlib/random.c:122-165 | so the generator a program starts with has the stream of seed 1 |
| Pages.PageDb.constructor | src/kernel/vm/page.c:152-174 | all pages but the first two are free, in order |
| Pages.PageDb.ReserveRegion | src/kernel/vm/page.c:251-273 | the pages of a region are off the free list, and the count matches |
| Pages.PageDb.AllocPage | src/kernel/vm/page.c:292-322 | the first free page, now marked used, or 0 when there is none |
| Pages.PageDb.FreePage | src/kernel/vm/page.c:327-352 | the page is free again and first in line, exactly if its number is above 2 and in range |
| Pages.SecondReservedPageIsLost | src/kernel/vm/page.c:169-174 | page 2 is handed out but never taken back |
| PoolSpec.ChunkInPage | src/kernel/kern/pool.c:55-95 | a chunk lies within its page, behind the descriptor, and its address gives the page back |
| PoolSpec.TotalIsMost | src/kernel/kern/pool.c:56 | a pool has as many chunks as its page has room for |
| PoolSpec.ChunksApart | src/kernel/kern/pool.c:55-95 | two chunks of a page do not overlap |
| PoolSpec.FreshChain | src/kernel/kern/pool.c:90-95 | the words new_pool writes chain all chunks in order |
| PoolSpec.TakeChunk | src/kernel/kern/pool.c:147-150 | taking the first free chunk keeps the chain acyclic, nfree its length and nfree + refcnt the total |
| PoolSpec.GiveChunk | src/kernel/kern/pool.c:180-188 | giving a chunk back keeps them |
| PoolSpec.EmptyPool | src/kernel/kern/pool.c:131-188 | refcnt is 0 just when no chunk is in use, free is null just when none is free |
| PoolSpec.UnlinkPool | src/kernel/kern/pool.c:210-216 | unlinking a pool by its predecessor leaves the list of the others |
| PoolSpec.ScanAsWrittenFinds | src/kernel/kern/pool.c:210-216 | the scan as written, which never advances, finds a pool exactly if it is the second of the list, however often it goes round |
| PoolState.LiveChunksDisjoint | src/kernel/kern/pool.c:43-155 | two chunks in use, of any pools, share no byte and lie within their pages |
| PoolState.TookInv | src/kernel/kern/pool.c:147-150 | a chunk taken was not in use, and every pool stays in order |
| PoolState.GaveInv | src/kernel/kern/pool.c:180-188 | a chunk given back keeps every pool in order |
| PoolState.UseInv | src/kernel/kern/pool.c:147-154 | what the owner of a chunk writes into it disturbs no pool |
| PoolState.AddedInv | src/kernel/kern/pool.c:67-95 | a new pool keeps every pool and list in order |
| PoolState.RemovedInv | src/kernel/kern/pool.c:188-227 | so does the removal of an empty one: hint null or on the list, count the length |
| PoolAlloc.PoolMemory.InitPool | src/kernel/kern/pool.c:27-37 | a master pool without pools |
| PoolAlloc.PoolMemory.LinkChunks | src/kernel/kern/pool.c:90-95 | the free chain of all chunks; no other page is written |
| PoolAlloc.PoolMemory.Register | src/kernel/kern/pool.c:71-95 | a pool of free chunks at the head of the list |
| PoolAlloc.PoolMemory.NewPool | src/kernel/kern/pool.c:43-111 | that, on the first free page, or null and no change |
| PoolAlloc.PoolMemory.FindFree | src/kernel/kern/pool.c:132-137 | the first pool of the list with a free chunk, or null if every pool is full |
| PoolAlloc.PoolMemory.Pick | src/kernel/kern/pool.c:130-142 | the pool to take from becomes the hint; a new page is taken only when every pool of the master is full |
| PoolAlloc.PoolMemory.TakeFrom | src/kernel/kern/pool.c:147-150 | the address of a chunk that was not in use and is now |
| PoolAlloc.PoolMemory.AllocPool | src/kernel/kern/pool.c:116-155 | the hint if it has a free chunk, else the first pool of the list that has one, else a new page; its first free chunk, and only that, is in use now, and the pool is the hint; every field is as that says; pages are conserved |
| PoolAlloc.PoolMemory.WriteChunk | src/kernel/kern/pool.c:147-154 | an owner's write into its chunk changes that word and keeps every pool in order |
| PoolAlloc.PoolMemory.FindBefore | src/kernel/kern/pool.c:210-216 | with the intended step the predecessor is found |
| PoolAlloc.PoolMemory.GiveBack | src/kernel/kern/pool.c:180-188 | the chunk is free again, and refcnt reaches 0 exactly with the last one |
| PoolAlloc.PoolMemory.Unlink | src/kernel/kern/pool.c:188-226 | the pool is gone from list, hint and count |
| PoolAlloc.PoolMemory.Retire | src/kernel/kern/pool.c:188-231 | the pool is unlinked, and its page goes back unless it is page 2 |
| PoolAlloc.PoolMemory.FreePool | src/kernel/kern/pool.c:160-232 | exactly one chunk less is in use, and it is the first free one of its pool; the page goes back just when its last chunk does, unless it is page 2; pages are conserved but for that |
| PoolAlloc.HintInv | src/kernel/kern/pool.c:134-140 | a hint on the list keeps every pool in order |
| Regions.FitsExactly | src/kernel/vm/vas.c:126-156 | the tests accept a range exactly if it is clear of every region and not in front of two or more |
| Regions.PlacedSorted | src/kernel/vm/vas.c:170-174 | a region put in at the place found keeps the ring sorted |
| Regions.SortedApart | src/kernel/vm/vas.c:111-177 | sorted regions are disjoint even as whole pages |
| Regions.AskedIsRange | src/kernel/vm/vas.c:118-119 | the region begins on the page of start, ends at start + size, and has every address in between |
| Regions.AcceptsFree | src/kernel/vm/vas.c:112-160 | a request is accepted exactly if no region has an address of its pages, and it is not in front of two or more |
| Regions.CreatedHas | src/kernel/vm/vas.c:112-176 | an accepted request has its addresses in its region, and they were in none |
| Regions.CreatedKeeps | src/kernel/vm/vas.c:112-176 | any address that was in a region still is in the same |
| Regions.AcceptedStays | src/kernel/vm/vas.c:112-176 | after any further requests every address of an accepted one is in the region made for it |
| Regions.AllCreatedSorted | src/kernel/vm/vas.c:111-177 | after any requests the regions are sorted |
| Regions.AllCreatedApart | src/kernel/vm/vas.c:111-177 | and pairwise disjoint as whole pages |
| Regions.HintIsScan | src/kernel/vm/vas.c:306-330 | a region that has an address is the one the full scan finds |
| Regions.CreatedSorted | src/kernel/vm/vas.c:111-177 | one request keeps the ring sorted |
| Vas.VasDesc.FindAbove | src/kernel/vm/vas.c:128-147 | the first region above an address |
| Vas.VasDesc.Probe | src/kernel/vm/vas.c:126-156 | the outcome of the tests around it |
| Vas.VasDesc.Insert | src/kernel/vm/vas.c:164-174 | the ring with the region at that place |
| Vas.VasDesc.RegionCreate | src/kernel/vm/vas.c:111-177 | accepted exactly if the pages of the range are free and not in front of two regions or more; the region then begins on the page of start, ends at start + size, and is the one found for every address of the range; a refused request changes nothing |
| Vas.VasDesc.ScanRing | src/kernel/vm/vas.c:314-329 | the first region that has the address |
| Vas.VasDesc.PageFault | src/kernel/vm/vas.c:304-346 | hint or scan, the result is the region that has the address, if any has, and the hint is set to it |
| Numerals.CutoffExact | src/libc/stdlib/strtol.c:61-76 | the cutoff test says exactly when one more digit exceeds the limit |
| Numerals.HornerGrows | src/libc/stdlib/strtol.c:64-82 | more digits never make a number smaller, so an exceeded limit stays exceeded |
| Numerals.SubjectFound | src/libc/stdlib/strtol.c:34-42 | the digits found are those of the subject sequence of the standard, exactly unless 0x comes without a digit |
| Numerals.SpaceChars | src/libc/stdlib/strtol.c:24-26 | white space is the six characters of isspace |
| Strtol.ClampedIsNearest | src/libc/stdlib/strtol.c:83-92 | the result is the number itself if it is a long, and else the long nearest to it |
| Strtol.UnsignedIsModulo | src/libc/stdlib/strtoul.c:66-73 | the result is the number modulo 2^32 unless it is out of range without its sign, and then 2^32 - 1 |
| Strtol.Prologue | src/libc/stdlib/strtol.c:24-42 | white space, sign and base prefix are skipped and the base is decided |
| Strtol.Accumulate | src/libc/stdlib/strtol.c:64-82 | the exact value of the longest run of digits if it is within the limit; the accumulator never exceeds the limit |
| Strtol.Strtol | src/libc/stdlib/strtol.c:10-93 | the exact integer of the longest digit run, clamped to the range of long; the range error exactly if it was clamped; where it ended |
| Strtol.Strtoul | src/libc/stdlib/strtoul.c:16-77 | the same with the unsigned limit, negated modulo 2^32 after a minus sign |
| NumberText.DigitTables | src/libc/stdio/vsprintf.c:84-87 | the digits are those of the two tables, lower case exactly for SMALL |
| NumberText.SignAndPrefix | src/libc/stdio/vsprintf.c:91-124 | the sign of a negative number, else + or a space as asked for; the prefix 0, 0x or 0X |
| NumberText.Padding | src/libc/stdio/vsprintf.c:110-130 | a field width adds spaces on the right for LEFT, else on the left, or with ZEROPAD the zeros of a larger precision |
| NumberText.TextLength | src/libc/stdio/vsprintf.c:97-129 | the length is max(width, sign + prefix + max(precision, digits)) |
| NumberText.FewDigits | src/libc/stdio/vsprintf.c:101-105 | a number below 2^k has at most k digits in any base, so tmp does not overflow |
| Vsprintf.Fill | src/libc/stdio/vsprintf.c:108-128 | writes a character n times and leaves the counter negative |
| Vsprintf.DivideOut | src/libc/stdio/vsprintf.c:104-105 | the digits of the number, last first |
| Vsprintf.FillTmp | src/libc/stdio/vsprintf.c:101-105 | at most 32 characters, a zero for zero |
| Vsprintf.CopyTmp | src/libc/stdio/vsprintf.c:125-126 | them in reading order |
| Vsprintf.Measure | src/libc/stdio/vsprintf.c:91-100 | sign and prefix and what they leave of the width |
| Vsprintf.EmitFront | src/libc/stdio/vsprintf.c:108-122 | padding, sign and prefix in order |
| Vsprintf.EmitBack | src/libc/stdio/vsprintf.c:123-128 | zeros, digits and padding in order |
| Vsprintf.Number | src/libc/stdio/vsprintf.c:80-130 | exactly the text of the number, nothing before or behind it touched; null for a base outside 2 to 36 |
| NumberRoundTrip.DigitsDenote | src/libc/stdio/vsprintf.c:101-105 | the digits printed have the value of the number |
| NumberRoundTrip.RunChars | src/libc/stdlib/strtol.c:64-82 | a digit run is read back digit by digit up to what follows it |
| NumberRoundTrip.ParseText | src/libc/stdio/vsprintf.c:80-130 | the text parses to the sign and magnitude printed |
| NumberRoundTrip.SignedRoundTrip | src/libc/stdio/vsprintf.c:80-130 | strtol of a number printed as signed is that number, for every value, base, width, precision and flags, also when it is asked to tell the base from the text and can; it stops right behind the digits |
| NumberRoundTrip.UnsignedRoundTrip | src/libc/stdio/vsprintf.c:80-130 | strtoul of one printed as unsigned is that number, likewise |
| NumberRoundTrip.SignedAsUnsigned | src/libc/stdio/vsprintf.c:80-130 | strtoul of one printed as signed is the number modulo 2^32 |
| HatSpec.OrKeepsPage | src/kernel/i386/hat.c:154-192 | an entry keeps the page of any address or-ed into it |
| HatSpec.OpenedOk | src/kernel/i386/hat.c:181-190 | a table made for a directory slot is that slot's own, zeroed |
| HatSpec.InsertEntry | src/kernel/i386/hat.c:183-192 | the entry has the page, and is present; for an aligned address it is the address plus the bits asked for, and a new directory entry has the same bits |
| HatSpec.InsertTranslates | src/kernel/i386/hat.c:168-193 | the page translates to the frame the address lies in; another page keeps its translation, but reads 0 instead of -1 if its slot got a table |
| HatSpec.InsertsTranslate | src/kernel/i386/hat.c:117-163 | n inserts translate n pages in order across table boundaries, from the frame the address lies in, and keep all others but for that |
| Hat.EnoughPages | src/kernel/i386/hat.c:135-141 | one free page for each directory slot of the range is enough |
| Hat.NextInsert | src/kernel/i386/hat.c:168-193 | an insert into a slot with a table is one write |
| Hat.OpenOnce | src/kernel/i386/hat.c:135-141 | the table is made once for all its pages |
| Hat.HatDesc.Open | src/kernel/i386/hat.c:181-190 | the table of a slot, made if there is none |
| Hat.HatDesc.HatInsert | src/kernel/i386/hat.c:168-193 | one insert |
| Hat.HatDesc.FillTable | src/kernel/i386/hat.c:143-156 | the inner loop is that many inserts |
| Hat.HatDesc.HatMap | src/kernel/i386/hat.c:117-163 | for n >= 1 pages the same directory, tables and page count as n successive hat_inserts; for none, only a table |
| Hat.HatDesc.HatGetPfn | src/kernel/i386/hat.c:240-251 | the translation, -1 without a table |
| SchedSpec.BestIsFirstHighest | src/kernel/kern/sched.c:183-190 | the loop picks the first thread of highest priority, and the idle one only if it is alone |
| SchedRuns.ScheduleKeepsInv | src/kernel/kern/sched.c:170-218 | the thread dispatched is ready and has a quantum from 1 to DEFAULT_QUANTA |
| SchedRuns.ScheduleChoice | src/kernel/kern/sched.c:176-190 | no ready thread has a higher priority than the one chosen, and none of the same priority comes before it |
| SchedRuns.CountedKeepsInv | src/kernel/kern/sched.c:248-280 | a tick keeps usage at most 99 plus the ticks of the second |
| SchedRuns.ClockKeepsInv | src/kernel/kern/sched.c:248-291 | a whole tick keeps usage, priority and quantum in range |
| SchedRuns.BlockKeepsInv | src/kernel/kern/thread.c:133-149 | so does a thread that goes to sleep |
| SchedRuns.WakeKeepsInv | src/kernel/kern/thread.c:154-169 | or wakes |
| SchedRuns.CreateKeepsInv | src/kernel/kern/thread.c:195-271 | or is created |
| SchedRuns.EveryState | src/kernel/kern/sched.c:125-291 | after any run usage is at most 99 + sched_timer and so under 199, priorities are in [0, prio], and the current thread is ready with a quantum from 1 to DEFAULT_QUANTA |
| SchedRuns.QuantumIsCutShort | src/kernel/kern/sched.c:284-287 | the post-decrement of 0 wraps, so the tick after one that did not reschedule does |
| SchedRuns.TickReschedules | src/kernel/kern/sched.c:284-287 | a tick that leaves a quantum reschedules exactly if the counter of requests is not 0, and counts it down, round from 0 |
| SchedRuns.RequestHonoured | src/kernel/kern/sched.c:284-287 | a request is honoured by such a tick exactly if the counter was not at 2^32 - 1 |
| SchedRuns.BooksKept | src/kernel/kern/sched.c:284-287 | what is owed and spare: a request is owed until a tick that leaves a quantum, and such a tick is spare just if none is owed |
| SchedRuns.AlwaysBalanced | src/kernel/kern/sched.c:248-291 | over any run the counter is the requests owed less the ticks that had none to answer, modulo 2^32 |
| SchedRuns.PreemptCounts | src/kernel/kern/sched.c:248-291 | so it is the number of requests owed exactly while those ticks are a multiple of 2^32, and a tick does what was asked exactly if the counter is 0 just when none is owed |
| SchedRuns.RequestLost | src/kernel/kern/sched.c:284-287 | a run of a tick, a request and a tick that does not answer it |
| SchedUsage.ScheduleEffect | src/kernel/kern/sched.c:170-218 | the thread that ran has its priority lowered by half its usage, not below 0; the one dispatched is stamped and, with no quantum left, has a new one of 5 less an eighth of the ready threads, at least 2; nothing else changes |
| SchedUsage.ScheduleBest | src/kernel/kern/sched.c:176-190 | no ready thread is left with a higher priority than the one dispatched, which is idle only if alone |
| SchedUsage.CountEffect | src/kernel/kern/sched.c:225-280 | a tick charges the thread that runs, and at a second halves the usage of every thread but the idle one and sets its priority by it |
| SchedUsage.ClockCharges | src/kernel/kern/sched.c:248-291 | a whole tick adds one to the usage of the thread that ran unless it is idle, and to no other; a second halves it |
| SchedUsage.TickDispatches | src/kernel/kern/sched.c:284-287 | a tick that does not reschedule leaves the thread running, one that does dispatches the best |
| SchedUsage.BlockEffect | src/kernel/kern/thread.c:133-149 | a thread that sleeps is off the ready ring, and one still on it runs; no usage changes |
| SchedUsage.WakeEffect | src/kernel/kern/thread.c:154-169 | one that wakes is the last of the ready ring; nothing else changes |
| SchedUsage.CreateEffect | src/kernel/kern/thread.c:195-271 | a new thread has priority 50, quantum 5 and no usage, and is last on both rings |
| SchedUsage.UsageIsTicks | src/kernel/kern/sched.c:248-280 | over any run between two ageings all usage together grows by just the ticks that found a thread other than the idle one running |
| SchedUsage.TurnsChange | src/kernel/kern/sched.c:170-291 | of two threads of like priority the second has its turn with the second tick |
| Sched.Scheduler.SchedAging | src/kernel/kern/sched.c:125-165 | every thread but the head of the ring is aged, once |
| Sched.Scheduler.Choose | src/kernel/kern/sched.c:183-190 | the loop round the ready ring ends with the first thread of highest priority, or the idle one |
| Sched.Scheduler.Schedule | src/kernel/kern/sched.c:170-218 | the current thread's priority is recomputed, the chosen thread is stamped, given a quantum if it has none left, and current; nothing else changes |
| Sched.Scheduler.Count | src/kernel/kern/sched.c:262-280 | usage and quantum of the current thread count the tick, and once a second all threads are aged |
| Sched.Scheduler.Clock | src/kernel/kern/sched.c:248-291 | a tick counts, and reschedules when the quantum is used up or the counter of requests is not 0; that is counted down, round from 0 |

## Left out

- Messages: more than one port, the copy to the receiver's buffer (m_receive), m_deq, and sends of an interrupt message from a thread; ids and data of interrupt messages are constant.
- KernelQueues.KernelState.ThreadSleep: cur_prio is part of the scheduler's model (SchedSpec.Block).
- Semaphores: thread_die and delete_thread, the saved flags of splhi and splx, and s_wait.
- Kernel state: link fields are maps from a thread to its neighbour, not fields of thread control blocks, and wait queues of all semaphores share one pair of link maps, as s_next and s_prev do.
- Context switches: setjmp and longjmp, cr3, the TSS; a switch is a change of the current thread.
- BufferCache.Cache.Bread: assumes what its callers must see to: a read of a block that is not in use already, with at least two buffers free, and disk reads that succeed.
- Buffer headers: records of a page, modelled as numbers, their links as tables; buf_destroy, and the version with _HASH, which is compiled out.
- Ext2Read.Ext2.Read: takes the inode as given (ext2fs_get_inode is not part of this model) and requires lookups that stay inside their indirect blocks, as past them the source reads beyond a buffer; a copy is one assignment.
- Ext2Blocks.LookupIsFlat: is about paths without a null pointer inside a tree; what happens on the others is in HoleInDouble and HoleInTriple.
- Qsort.Qsort: record pointers are record numbers, and sizes do not wrap at 2^32.
- Random: kinds 0 to 4 over words modulo 2^32; the pointer returned by initstate and setstate, and bookkeeping words that no call has written.
- RandomState.Random.Setstate: the array must have been seeded by initstate before; the result for the current array is in SetstateOnCurrent.
- PoolAlloc.PoolMemory.AllocPool: requires a page to be had when every pool is full; the source dereferences a null pool otherwise.
- Pools: chunk sizes of less than a word or more than a page; the semaphores, which make each call one step; double frees.
- Pages: the page cache, hash map and reclaim_region.
- Vas.VasDesc.RegionCreate: requires a non-empty range that does not wrap; region_commit, region descriptors' owner, and the page that vas_pagefault maps in.
- Hat.HatDesc.HatMap: requires pages for the tables; addresses do not wrap at 2^32; hat_create's copy of the kernel directory, hat_copy, hat_remove and hat_destroy.
- Vsprintf.Number: width and precision are integers without bound; the format string and the other conversions of vsprintf.
- Strtol.Strtol: errno is a result; strings are character sequences without a NUL inside.
- Sched.Scheduler.Clock: one step without nested interrupts (in_clock), and without the timeout queue and the time of day.
- Sched: threads that end; quantum arithmetic does not wrap at 2^32.
- Devices, drivers, boot code, ELF loading, file names, partition scanning, the string routines and the floating-point parsers: hardware effects, plumbing, or members that would be easy.
