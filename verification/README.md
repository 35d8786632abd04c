# RT-Thread kernel and tools, in Dafny

A model of the parts of the RT-Thread 4.0.3 kernel that hold state in intertwined structures, and of
two of its Python tools, with proofs of what they are for.  The configuration is that of the board:
one processor, 32 priorities, RT_ALIGN_SIZE 8, 32-bit machine words.

What is modelled, by file:

- Heaps.  `Tiling`, `HeapUse` and `HeapBytes` are about block lists; `MemHeap*` is memheap.c,
  `SmallMem*` is mem.c; `PageRuns` and `PageAllocator` are the page allocator of slab.c, and `Slab*` and
  `ZoneLists` its zones.
- Lists.  `RtList` and `Rings` are the doubly linked rings of rtservice.h, `Chains` the singly linked
  lists that run through memory blocks.
- IPC (ipc.c, mempool.c, and rt_thread_timeout): `IpcList`, `IpcTurns` and `WaitTurns` for the lists of
  suspended threads, then `Semaphore*`, `MsgQueue*`, `Mailbox*`, `MemPool*`, `Mutex*` and `Event*`.  The files
  named `*Order`, `*History` and `*Turns` say what a run looks like from outside: who gets what, and when.
- Scheduling: `Scheduler*`, `RoundRobin` and `Bits` are scheduler.c, thread.c, clock.c and __rt_ffs.
- Timers: `Ticks`, `Timer*` are timer.c and the tick of clock.c; `TimerHistory`, `TimerLife` and
  `TimerPeriods` are the runs, `TimerSpins` is about when a check ends.
- Tools: `StackPaths` and `StackAnalysis` are WCS.py, `RomImage` is mkromfs.py.
- Output: `PrintText`, `PrintLemmas` and `PrintBuffer` are rt_vsnprintf; `PrintMeaning` and `PrintDirectives`
  say what directives mean, and that they print it.

How it is put together.  Each part has a state, as a datatype, and functions that say what one call or
one section with interrupts disabled does to it; lemmas about these functions are the results, up to
statements about every run, in terms of the calls made and their outcomes.  A class then does what the
source does, on link fields, counters, arrays and bytes in place, and each method is proved to perform
exactly the function of its name.  Sections of IPC calls are interleaved freely, a wait loop being one
action per turn; a timeout can happen at any time.  Callbacks of timers are arbitrary sequences of timer
calls.

Where the code and what is said about it differ, the model follows the code:

- rt_memheap_alloc refuses a request as large as everything that is free (memheap.c, line 198:
  the comparison is strict), so an exact fit in the only free block fails: `MemHeapLemmas.AllocFailsIff`,
  `MemHeapLemmas.ExactFitRefused`.
- rt_malloc of mem.c passes over an exact fit in the very last block: `SmallMemLemmas.MallocFailsIff`,
  `SmallMemLemmas.ExactFitRefused`.
- The head of slab.c says that malloc(0) does not return NULL and that all blocks of a size that is a
  power of two are aligned to it.  It returns NULL (`SlabHistory.MallocFailsIff`), and the alignment
  holds exactly for sizes up to a page (`SlabHistory.PowerAlignedIff`).
- rt_timer_check can leave an active timer outside of the list (`TimerRuns.TurnStray`), and does not
  end while a periodic timer of 0 ticks is due (`TimerSpins.EndsIff`).
- rt_vsnprintf prints no digits of any number when the precision is 0 (`PrintLemmas.ReadBackIff`), and
  prints %o in base 16 (`PrintLemmas.OctalIff`).
- A thread that yields while nobody is ready keeps its yield flag up to the next rt_schedule that finds
  somebody ready (scheduler.c, line 444: the flag is only cleared then): `SchedulerChoice.ScheduleExact`.
- A memory pool resumes the thread that was suspended last, not first (`MemPoolTurns.RunTurns`).
- rt_vsnprintf can write outside of its buffer when the whole text does not end below address 2^32
  (`PrintBuffer.InsideIff`).

## Model

| member | source | states |
|---|---|---|
| MemHeapLemmas.RunInv | rt-thread/src/memheap.c:181-665 | In every state of every run of alloc, realloc and free the blocks tile the pool in address order, no two neighbours are free, the free ring holds exactly the free blocks, once each, and available_size is the sum of their payloads |
| MemHeapLemmas.RunHighWater | rt-thread/src/memheap.c:277-289 | max_used_size is the high-water mark of pool_size - available_size: no step of a run exceeds it, and it is the starting value or was reached at the peak of some step |
| MemHeapLemmas.AllocKeeps | rt-thread/src/memheap.c:181-335 | Allocation, with or without a split, keeps the whole heap invariant |
| MemHeapLemmas.AllocFailsIff | rt-thread/src/memheap.c:190-229 | NULL exactly when the rounded size is not below available_size or no free block has room, and then nothing has changed; an exact fit in the only free block is thus refused |
| MemHeapLemmas.ExactFitRefused | rt-thread/src/memheap.c:190-229 | In a pool of any size as it is set up, a request for exactly the payload of its only block fails |
| MemHeapLemmas.AllocGrants | rt-thread/src/memheap.c:212-324 | The block returned was free, is the first in the free ring with room, is now used and has at least the bytes asked for |
| MemHeapLemmas.AllocKeepsLive | rt-thread/src/memheap.c:181-335 | A block in use stays in use and where it is when another one is allocated |
| MemHeapLemmas.Release1Keeps | rt-thread/src/memheap.c:557-665 | Giving back a block, with the joins to the left and to the right, keeps the whole heap invariant |
| MemHeapLemmas.FreeUndoesAlloc | rt-thread/src/memheap.c:557-665 | Freeing what was just allocated restores the block list and available_size exactly, for every request |
| MemHeapLemmas.ReallocKeeps | rt-thread/src/memheap.c:338-554 | Reallocation in each of its ways (grow in place, move, shrink, free, alloc) keeps the whole heap invariant |
| MemHeapLemmas.ReallocKeepsOthers | rt-thread/src/memheap.c:338-554 | Whatever way reallocation takes, no block but the one passed in is moved or resized |
| MemHeapGrants.AllocEffect | rt-thread/src/memheap.c:181-335 | An allocation fails and changes nothing, or puts exactly one block in use that nobody had, with a payload of at least the bytes asked for |
| MemHeapGrants.FreeEffect | rt-thread/src/memheap.c:557-665 | Giving back a block puts exactly this block out of use |
| MemHeapGrants.ReallocGrants | rt-thread/src/memheap.c:338-554 | Reallocation fails and changes nothing, or replaces the caller's block by one with a payload of at least the bytes asked for and touches no other; the pointer stays the same exactly when the block is large enough or the free block behind it has room |
| MemHeapGrants.ReallocFailsIff | rt-thread/src/memheap.c:382-475 | NULL exactly when the block is too small, there is no room behind it, and no free block has room for the size, rounded a second time, or it is not below available_size |
| MemHeapGrants.ReusedFirst | rt-thread/src/memheap.c:181-665 | A block given back with no free block in front of it is the first to be handed out again |
| MemHeapGrants.RunHeld | rt-thread/src/memheap.c:181-665 | In every run the blocks in use are exactly those of the pointers handed out and not given back, each at least as large as was asked for last |
| MemHeaps.MemHeap.constructor | rt-thread/src/memheap.c:89-164 | Initialisation builds the two rings of header, tailer and free list head for the initial state |
| MemHeaps.MemHeap.Alloc | rt-thread/src/memheap.c:181-335 | The loop over the free ring and the link updates perform exactly the transition of the model, and no byte of a block in use changes |
| MemHeaps.MemHeap.Free | rt-thread/src/memheap.c:557-665 | The link updates of free perform exactly the transition of the model: both rings, the marks and both counters |
| MemHeaps.MemHeap.Realloc | rt-thread/src/memheap.c:338-554 | Performs the transition of the model, whose block sizes and failures MemHeapGrants.ReallocGrants and ReallocFailsIff state; the first min(old, new) bytes of the block are found in the block returned, every other block in use keeps its bytes, and on failure no byte changes |
| MemHeaps.MemHeap.Grow | rt-thread/src/memheap.c:382-461 | Growing into the free block behind: rings, counter and contents |
| MemHeaps.MemHeap.Shrink | rt-thread/src/memheap.c:477-554 | Giving back the end of a block, joined with a free block behind it: rings, counter and contents |
| SmallMemLemmas.RunInv | rt-thread/src/mem.c:156-615 | In every state of every run of malloc, realloc and free the blocks tile the heap, no two neighbours are free, every block is 8-aligned, and used_mem is the summed extent of the used blocks |
| SmallMemLemmas.RunHighWater | rt-thread/src/mem.c:349-370 | max_mem is the high-water mark of used_mem over the whole run |
| SmallMemLemmas.UsedAndFree | rt-thread/src/mem.c:349-370 | used_mem and the extents of the free blocks always add up to the whole heap |
| SmallMemLemmas.MallocKeeps | rt-thread/src/mem.c:272-410 | Allocation, with or without a split, keeps the heap invariant: tiling, no two free neighbours, alignment and used_mem |
| SmallMemLemmas.MallocFailsIff | rt-thread/src/mem.c:276-311 | NULL exactly for size 0, for more than the heap holds, or when every free block is too small or an exact fit at the very end, which the strict loop bound skips; then nothing has changed |
| SmallMemLemmas.ExactFitRefused | rt-thread/src/mem.c:276-311 | In a heap of any size as it is set up, a request for all its bytes fails |
| SmallMemLemmas.MallocGrants | rt-thread/src/mem.c:298-404 | The block returned is the lowest one the search admits, 8-aligned, now used, and has at least the bytes asked for |
| SmallMemLemmas.FreeKeeps | rt-thread/src/mem.c:552-615 | Free with plug_holes keeps the heap invariant |
| SmallMemLemmas.ReleaseLowest | rt-thread/src/mem.c:156-194 | Freeing moves the lowest free block down to the freed one or not at all, with the joins to both sides |
| SmallMemLemmas.FreeUndoesMalloc | rt-thread/src/mem.c:552-615 | Freeing what was just allocated restores the blocks and used_mem exactly |
| SmallMemLemmas.ReallocKeeps | rt-thread/src/mem.c:421-516 | Reallocation keeps the heap invariant, also where a shrink leaves a block smaller than MIN_SIZE_ALIGNED |
| SmallMemLemmas.ReallocFails | rt-thread/src/mem.c:421-516 | A failed reallocation leaves the whole heap as it was |
| SmallMemGrants.MallocEffect | rt-thread/src/mem.c:272-410 | An allocation fails and changes nothing, or puts exactly one block in use that nobody had, with a payload of at least the bytes asked for |
| SmallMemGrants.FreeEffect | rt-thread/src/mem.c:552-615 | Giving back a block puts exactly this block out of use |
| SmallMemGrants.ReallocGrants | rt-thread/src/mem.c:421-516 | Reallocation fails and changes nothing, or replaces the caller's block by one with a payload of at least the bytes asked for and touches no other; the pointer stays the same exactly when the size is not above that of the heap and the block fits exactly or is large enough to be cut |
| SmallMemGrants.ReallocFailsIff | rt-thread/src/mem.c:421-516 | NULL exactly for more than the heap holds, or when the block does not serve and every free block is too small or an exact fit at the very end |
| SmallMemGrants.RunHeld | rt-thread/src/mem.c:272-615 | In every run the blocks in use are exactly those of the pointers handed out and not given back, each at least as large as was asked for last |
| SmallMems.SmallMem.constructor | rt-thread/src/mem.c:204-257 | One free block that fills the heap, with lfree at it, between its header and heap_end |
| SmallMems.SmallMem.PlugHoles | rt-thread/src/mem.c:156-194 | The header updates join a free block with its free neighbours and keep lfree right |
| SmallMems.SmallMem.FindFit | rt-thread/src/mem.c:305-311 | The search loop stops at the first free block with room below its bound, or shows that there is none |
| SmallMems.SmallMem.Malloc | rt-thread/src/mem.c:272-410 | Performs exactly the transition of the model on the in-band headers; lfree is the lowest free block or heap_end again, and no byte of a block in use changes |
| SmallMems.SmallMem.Free | rt-thread/src/mem.c:552-615 | Performs exactly the transition of the model on the in-band headers; lfree is the lowest free block again, and no byte changes |
| SmallMems.SmallMem.Realloc | rt-thread/src/mem.c:421-516 | Performs the transition of the model; the first min(old, new) bytes are preserved, other blocks keep their bytes, and on failure no byte changes |
| Tiling.ReleaseUndoesTake | rt-thread/src/mem.c:156-194 | On the block list, giving back what was handed out joins the remainder of a split again and joins nothing else |
| Tiling.HeadersAvoidPayloads | rt-thread/src/mem.c:329-354 | No header lies in the payload of a block and no two blocks share a byte |
| RtList.ListPool.InsertAfter | rt-thread/include/rtservice.h:58-65 | In a ring, the node is in the ring right behind the list position afterwards, and exactly four link fields change |
| RtList.ListPool.InsertBefore | rt-thread/include/rtservice.h:73-80 | The node is the last of the list afterwards |
| RtList.ListPool.Remove | rt-thread/include/rtservice.h:86-92 | The other nodes stay a ring in their order, and the node is a list of its own |
| RtList.ListPool.Len | rt-thread/include/rtservice.h:107-118 | The walk counts the nodes of the list without its head |
| RtList.ListPool.IsEmpty | rt-thread/include/rtservice.h:98-101 | True exactly when the head is alone |
| Rings.InsertLinked | rt-thread/include/rtservice.h:58-65 | Inserting a loose node into one of several rings leaves all the others as they are |
| Rings.RemoveLinked | rt-thread/include/rtservice.h:86-92 | Removing a node from one of several rings leaves all the others as they are, and the node loose |
| IpcList.EnlistMembers | rt-thread/src/ipc.c:85-131 | Suspending adds the thread to the list, once, and nobody else |
| IpcList.EnlistSorted | rt-thread/src/ipc.c:98-124 | A list kept by priority stays sorted; a thread goes behind those of its own priority and in front of the less urgent ones |
| IpcList.HighestIs | rt-thread/src/ipc.c:203-218 | The value is at least as urgent as every thread in the list, and is the priority of one of them |
| IpcTurns.EnlistTurns | rt-thread/src/ipc.c:85-131 | A list in which every thread stands in its turn (the most urgent first, and among equals or without priorities the one suspended first) stays so when a thread is suspended |
| WaitTurns.RunMoves | rt-thread/src/ipc.c:85-197 | Over any sequence of suspensions, wake-ups, timeouts and resets of a list, every wake-up is for the thread whose turn it is, by the times of suspension, and concerns nobody else |
| IpcList.ThreadList.Suspend | rt-thread/src/ipc.c:85-131 | The walk of rt_ipc_list_suspend puts the thread at that place, for both flags |
| IpcList.ThreadList.HighestPriority | rt-thread/src/ipc.c:203-218 | The walk of rt_ipc_get_highest_priority computes that value |
| SemaphoreModel.RunInv | rt-thread/src/ipc.c:357-558 | Under every interleaving of takes, releases, timeouts and resets no unit is lost or invented (value plus units taken is the initial value plus units given), and threads are suspended only at value 0 |
| SemaphoreModel.ApplyKeeps | rt-thread/src/ipc.c:357-558 | Every single action keeps this, also the hand-over that does not touch the value and the refused overflow |
| SemaphoreModel.TurnComes | rt-thread/src/ipc.c:357-514 | Without priorities a thread that stays suspended has seen at most as many releases as there were threads in front of it, whoever comes or goes |
| SemaphoreHistory.RunSeen | rt-thread/src/ipc.c:357-558 | In every run every call behaves as on a counter: a take gets a unit exactly if there is one, or gives up or waits; a release gives its unit to the waiting thread whose turn it is, or adds one up to 65535; a timeout and a reset concern those they should |
| SemaphoreHistory.UnitsCounted | rt-thread/src/ipc.c:357-514 | Between two resets the value changes by the units given less the units taken |
| Semaphores.Semaphore.constructor | rt-thread/src/ipc.c:232-253 | The value is the one given, and nobody waits |
| Semaphores.Semaphore.Take | rt-thread/src/ipc.c:357-442 | rt_sem_take up to the suspension is one action, with its result |
| Semaphores.Semaphore.Release | rt-thread/src/ipc.c:466-514 | One action: the first thread is resumed, or the value grows, or the release is refused at 65535 |
| Semaphores.Semaphore.Reset | rt-thread/src/ipc.c:526-558 | Everybody is resumed, and the value is cut off to 16 bits |
| MsgQueueLemmas.RunInv | rt-thread/src/ipc.c:1970-2653 | Under every interleaving of senders, urgent senders, receivers, timeouts and resets: every node is in exactly one of free list, queue or the hands of one thread; no wake-up is lost; every delivered message is whole; and the log of the queue replays on a plain list of messages, which MsgQueueOrder.RunFollows ties to the calls |
| MsgQueueLemmas.ApplyNodes | rt-thread/src/ipc.c:2191-2322 | No action loses or duplicates a node, while any number of threads are between their two critical sections |
| MsgQueueLemmas.FillPayloads | rt-thread/src/ipc.c:2276-2277 | A byte copied with interrupts enabled disturbs no other copy and no queued message |
| MsgQueueLemmas.ApplyWaits | rt-thread/src/ipc.c:2164-2592 | Suspended receivers imply that every queued message has a resumed receiver on its way, and suspended senders the same for free nodes, after every action |
| MsgQueueLemmas.ApplyOrder | rt-thread/src/ipc.c:2279-2303 | Every action keeps the log in step with the messages in the queue; that the log is what was called for is MsgQueueOrder.RunFollows |
| MsgQueueLemmas.QuietMeansNeeded | rt-thread/src/ipc.c:2164-2592 | When no resumed thread is on its way, a suspended receiver means an empty queue and a suspended sender means no free node |
| MsgQueueOrder.RunFollows | rt-thread/src/ipc.c:2164-2653 | Under every interleaving, what has happened to the queue, the messages it holds and what each receiver got are those that follow from the calls alone: the second section of a send puts the message of that call at the back, of an urgent one in front, a receiver takes the message in front, and a reset takes all |
| MsgQueueOrder.FirstInFirstOut | rt-thread/src/ipc.c:2279-2590 | In runs without urgent messages and resets, the messages passed to the send calls, in the order in which they were linked, are those taken out so far followed by those in the queue |
| MsgQueueOrder.SendOutcome | rt-thread/src/ipc.c:2191-2386 | A send gets a node that nobody has exactly if there is one; otherwise an urgent send fails, and an ordinary one gives up or waits |
| MsgQueueOrder.RecvOutcome | rt-thread/src/ipc.c:2467-2560 | A receive gets the first message exactly if there is one; otherwise it gives up or waits |
| MsgQueueOrder.OthersStay | rt-thread/src/ipc.c:2164-2653 | No action but a reset concerns a thread that does not act; a reset sends home exactly those that wait |
| MsgQueueTurns.RunTurns | rt-thread/src/ipc.c:2191-2592 | In every run a sender waits exactly if it finds no spare node and does not give up, a receiver if it finds no message; every node freed wakes the sender, and every message linked the receiver, whose turn it is |
| MsgQueueDeliveries.RunArrive | rt-thread/src/ipc.c:2526-2592 | Under every interleaving the messages taken out of the queue are, each as often, those that receivers got and one for every thread that is still copying: none is lost or delivered twice |
| MsgQueueDeliveries.AllArrived | rt-thread/src/ipc.c:2526-2592 | When no thread is copying, exactly the messages taken out have been delivered |
| MsgQueues.MessageQueue.constructor | rt-thread/src/ipc.c:1970-2020 | As many nodes as fit the pool, in 16 bits, all of them free, chained from the last to the first; the queue is empty |
| MsgQueues.MessageQueue.Send | rt-thread/src/ipc.c:2180-2275 | A message longer than msg_size is refused and nothing changes; otherwise one turn of the wait loop |
| MsgQueues.MessageQueue.Take | rt-thread/src/ipc.c:2191-2275 | One turn of the wait loop of rt_mq_send_wait is one action of the model: takes the first free node, gives up, or is suspended |
| MsgQueues.MessageQueue.SendFirst | rt-thread/src/ipc.c:2352-2386 | rt_mq_urgent refuses a message that is too long, fails without a free node, and otherwise takes the first one |
| MsgQueues.MessageQueue.FillOne | rt-thread/src/ipc.c:2276-2277 | One byte of the copy into a node is one action |
| MsgQueues.MessageQueue.LinkIn | rt-thread/src/ipc.c:2279-2322 | The second section of the send calls is one action: links the node at the tail or, if urgent, at the head, and wakes the first receiver; by MsgQueueOrder.RunFollows at the end that the call asked for |
| MsgQueues.MessageQueue.LinkTail | rt-thread/src/ipc.c:2281-2303 | tail is the last node, or NULL iff the queue is empty; entry counts the queue |
| MsgQueues.MessageQueue.LinkHead | rt-thread/src/ipc.c:2394-2411 | The same for an urgent message, which also becomes the tail of an empty queue |
| MsgQueues.MessageQueue.RoomForOne | rt-thread/src/ipc.c:2294-2303 | entry is below RT_MQ_ENTRY_MAX whenever a node is on its way, so the error return of the second section is never taken |
| MsgQueues.MessageQueue.Recv | rt-thread/src/ipc.c:2467-2560 | One turn of the wait loop of rt_mq_recv is one action |
| MsgQueues.MessageQueue.DrainOne | rt-thread/src/ipc.c:2562-2563 | One byte of the copy out of a node is one action and yields the byte of the message |
| MsgQueues.MessageQueue.PutBack | rt-thread/src/ipc.c:2565-2592 | The second section of rt_mq_recv frees the node and wakes the first sender |
| MsgQueues.MessageQueue.TimeOut | rt-thread/src/thread.c:859-881 | A timeout takes a waiting thread off either list and nothing else |
| MsgQueues.MessageQueue.ResetQueue | rt-thread/src/ipc.c:2605-2653 | Reset wakes everybody and frees the queued nodes, newest last, while nodes in the hands of threads stay there |
| MailboxModel.RunInv | rt-thread/src/ipc.c:1406-1947 | Under every interleaving no wake-up is lost on either side, at most size values are stored, and every receive returns the next value of the list that sends, urgent sends and resets describe |
| MailboxModel.ApplyKeeps | rt-thread/src/ipc.c:1554-1903 | Every single action, timeouts and resets included, keeps this |
| MailboxModel.QuietMeansNeeded | rt-thread/src/ipc.c:1554-1903 | When no resumed thread is on its way, a suspended receiver means an empty mailbox and a suspended sender a full one |
| MailboxOrder.RunFollows | rt-thread/src/ipc.c:1554-1947 | Under every interleaving what has happened to the mailbox and the values it holds are those that follow from the calls alone: a send stores the value of that call at the back, an urgent one in front, if there is room, and a receive takes the value in front |
| MailboxOrder.FirstInFirstOut | rt-thread/src/ipc.c:1554-1903 | In runs without urgent values and resets, the values put in are those taken out so far followed by those stored |
| MailboxOrder.TurnOutcome | rt-thread/src/ipc.c:1554-1903 | A sender is done exactly if there is room and a receiver if there is mail; otherwise each gives up or waits |
| MailboxOrder.OthersStay | rt-thread/src/ipc.c:1554-1947 | No action but a reset concerns a thread that does not act; a reset sends home exactly those that wait |
| MailboxTurns.RunTurns | rt-thread/src/ipc.c:1554-1903 | In every run every value taken wakes the sender, and every value stored the receiver, whose turn it is |
| Mailboxes.Mailbox.Send | rt-thread/src/ipc.c:1554-1681 | One turn of the wait loop on the ring buffer, its two offsets and the lists is one action, with its result |
| Mailboxes.Mailbox.SendFirst | rt-thread/src/ipc.c:1710-1762 | The output offset moves back, with wrap-around, and the value is the next one to be received |
| Mailboxes.Mailbox.Recv | rt-thread/src/ipc.c:1775-1903 | One turn of the wait loop of rt_mb_recv is one action, with its result |
| Mailboxes.Mailbox.TimeOut | rt-thread/src/thread.c:859-881 | A timeout takes a waiting thread off its list and nothing else |
| Mailboxes.Mailbox.Reset | rt-thread/src/ipc.c:1915-1947 | Reset empties the ring and wakes everybody |
| MemPoolModel.RunInv | rt-thread/src/mempool.c:303-449 | Under every interleaving no block is lost or handed out twice, the numbers of free and used blocks add up, and suspended threads imply that every free block has a resumed thread on its way |
| MemPoolModel.ApplyKeeps | rt-thread/src/mempool.c:303-449 | Every single action, timeouts included, keeps this |
| MemPoolHistory.AllocOutcome | rt-thread/src/mempool.c:303-391 | A call gets exactly one block, which nobody had, if there is one; otherwise it gives up or waits |
| MemPoolHistory.OtherOutcome | rt-thread/src/mempool.c:399-449 | A release gives back its block and no other, and sends nobody home; a timeout sends its thread home |
| MemPoolHistory.ReusedFirst | rt-thread/src/mempool.c:303-449 | The block given back last is the next to be handed out |
| MemPoolHistory.RunBalance | rt-thread/src/mempool.c:303-449 | In every run as many blocks are handed out as calls got one and did not give it back |
| MemPoolTurns.RunTurns | rt-thread/src/mempool.c:303-449 | In every run every block given back wakes the thread that was suspended last, as the code puts a thread in front of the others |
| MemPools.MemPool.constructor | rt-thread/src/mempool.c:77-124 | As many blocks as fit into the rounded area, all of them free, chained from the first to the last |
| MemPools.MemPool.Alloc | rt-thread/src/mempool.c:303-391 | One turn of the wait loop on the in-band list, the counter and the thread list is one action |
| MemPools.MemPool.Free | rt-thread/src/mempool.c:399-449 | The block goes to the front of the free list and one thread is woken |
| MutexRuns.RunInv | rt-thread/src/ipc.c:697-977 | In every state of every run of takes, releases and timeouts of any threads on any mutexes, of which each thread uses one at a time: value is 1 iff there is no owner iff hold is 0, waiters imply an owner, PRIO lists are sorted, and the inherited priorities are exact; that hold counts the takes is MutexHistory.OwnerBalance |
| MutexRuns.NoInversion | rt-thread/src/ipc.c:782-789 | No priority inversion: the owner is at least as urgent as every waiting thread, under both flags and with timeouts |
| MutexRuns.ExactInheritance | rt-thread/src/ipc.c:782-933 | The owner runs at the most urgent of its base priority, those of its waiters and those of the threads that timed out meanwhile |
| MutexRuns.Restored | rt-thread/src/ipc.c:892-903 | A thread that owns no mutex is back at its base priority |
| MutexHistory.RunSeen | rt-thread/src/ipc.c:697-977 | In every run every call on every mutex behaves, with its outcome, as on a recursive lock: a free mutex is taken, its owner takes it once more, anybody else fails or waits; the owner gives back one hold, and the last one passes the mutex to the waiting thread whose turn it is, or to nobody |
| MutexHistory.OwnerBalance | rt-thread/src/ipc.c:697-977 | A thread keeps the mutex, whatever the others do, as long as its takes exceed its releases, the hand-over counting as a take, and hold is the difference; the release that balances them makes another thread the owner, or nobody |
| MutexLemmas.TakeKeeps | rt-thread/src/ipc.c:697-842 | Taking, also recursively and with an overflow of the hold count, keeps the mutex right |
| MutexLemmas.ReleaseKeeps | rt-thread/src/ipc.c:853-977 | Releasing, with the hand-over to the first waiter, keeps the mutex right |
| MutexLemmas.TimeOutKeeps | rt-thread/src/thread.c:859-881 | A timeout of a waiter keeps the mutex right; the owner keeps what it inherited |
| Mutexes.MutexObject.Take | rt-thread/src/ipc.c:697-842 | The statements of rt_mutex_take up to the suspension compute the transition of the model, of which MutexHistory.RunSeen states what it achieves |
| Mutexes.MutexObject.Release | rt-thread/src/ipc.c:853-977 | The statements of rt_mutex_release compute the transition of the model |
| EventModel.RunInv | rt-thread/src/ipc.c:1125-1389 | In every state of every run of sends, receives, timeouts and resets no suspended thread has its AND/OR condition met, and every receive, immediate or after a wait, got the bits and caused the clearing of an immediate receive at its turn |
| EventModel.WalkLeavesNobody | rt-thread/src/ipc.c:1150-1204 | After the single walk of a send nobody who could be satisfied is left, although earlier threads clear bits on the way |
| EventHistory.RunSeen | rt-thread/src/ipc.c:1125-1389 | In every run every call does what it should to the flags and to those who wait: a receive is served at once exactly if its condition is met, or gives up or waits; a send sets its flags and then serves the waiting threads in turn, each with the flags that those before it left |
| EventHistory.WalkServes | rt-thread/src/ipc.c:1145-1204 | The single walk over the list serves the threads in the order of their turns |
| EventModel.ApplyKeeps | rt-thread/src/ipc.c:1125-1349 | Every single action keeps this |
| EventFlags.SameClearing | rt-thread/src/ipc.c:1193-1195 | Clearing by the received bits, as the walk does, clears the same flags as clearing by the bits asked for, as the immediate path does |
| EventFlags.FewerBits | rt-thread/src/ipc.c:1159-1178 | A condition that is not met is not met by fewer flags |
| EventBits.RaisedHas | rt-thread/src/ipc.c:1146 | A flag is set after a send iff it was set before or is sent |
| EventBits.SeenHas | rt-thread/src/ipc.c:1264-1291 | A receiver gets a flag iff it is set and asked for; with CLEAR exactly the flags asked for go, and else none |
| EventBits.MetIff | rt-thread/src/ipc.c:1159-1178 | AND is met iff all flags asked for are set, OR iff at least one is |
| Events.Event.Recv | rt-thread/src/ipc.c:1230-1349 | Asking for no flag is refused; otherwise rt_event_recv up to the suspension is one action, with its result |
| Events.Event.Send | rt-thread/src/ipc.c:1125-1214 | The walk over the list with removals on the way is one action; bits 0 is refused |
| Events.Event.WalkAll | rt-thread/src/ipc.c:1145-1204 | The loop computes the walk of the model and hands every woken thread its bits in event_set |
| Events.Event.Reset | rt-thread/src/ipc.c:1361-1389 | No flag is set and nobody is suspended afterwards |
| Ticks.LaterIff | rt-thread/src/timer.c:374-381 | Inside a window of half the range the comparison modulo 2^32 is the order of the distances from the start of the window |
| Ticks.ExpiredIff | rt-thread/src/timer.c:548-552 | The same for the test whether a timer has expired |
| Ticks.WindowIff | rt-thread/src/timer.c:374-381 | The comparison orders two ticks by their distances from any third one, both ways round, exactly if these distances differ by less than half of the range |
| TimerLemmas.PositionIsPlace | rt-thread/src/timer.c:357-385 | For any number of levels the search down the rows ends in every row at the place of a plain stable sorted insert |
| TimerLemmas.LinkKeeps | rt-thread/src/timer.c:357-406 | Every row stays sorted and a subsequence of the row below, and the new timer is at its stable sorted place in the rows it is linked in |
| TimerRows.InsertBoth | rt-thread/src/timer.c:394-406 | Stable sorted insertion into a row and the row below keeps the one a subsequence of the other |
| TimerRuns.StartGood | rt-thread/src/timer.c:315-428 | rt_timer_start takes the timer out and puts it into the bottom row exactly where a stable sorted insert by timeout would, and makes it active |
| TimerRuns.TurnGood | rt-thread/src/timer.c:543-588 | One turn of the check fires the first timer that is due and leaves due exactly what its callback did not start or stop |
| TimerRuns.CheckFires | rt-thread/src/timer.c:529-594 | The check ends after at most as many turns as timers were due, whatever the callbacks do, and then no listed timer is due |
| TimerRuns.CheckExact | rt-thread/src/timer.c:529-594 | It fires exactly the expired timers that no earlier callback started or stopped, by timeout, and those of one timeout in list order |
| TimerRuns.TurnStray | rt-thread/src/timer.c:552-586 | A turn keeps "active iff listed" exactly when the fired timer is not left active outside the list by its own callback |
| TimerRuns.CheckStray | rt-thread/src/timer.c:529-594 | After a check with no such callback a timer is active iff it is listed |
| TimerRuns.StrayExample | rt-thread/src/timer.c:552-586 | A concrete timer that is left active and unlisted: its callback makes it one-shot |
| TimerSpins.EndsIff | rt-thread/src/timer.c:529-594 | With callbacks that make no timer calls the check comes to an end exactly if no due periodic timer has a period of 0 ticks; otherwise it still has a timer to fire after any number of turns |
| TimerRuns.ZeroPeriodSpins | rt-thread/src/timer.c:529-594 | A concrete case: with one periodic timer of 0 ticks a turn leads back to the same state |
| TimerLife.RunIdle | rt-thread/src/timer.c:315-594 | In every state of every run of creations, starts, stops, changes and ticks, whose starts last at least 1 tick and less than half of the range: all pending timeouts lie within half of the range ahead of the current tick, the rows are in order, nothing is left due, and the list is ordered by timeout and, within one timeout, by start |
| TimerLife.TickExact | rt-thread/src/timer.c:529-594 | At every tick of every run there fire exactly the listed timers whose timeout is this very tick and that no callback before their turn started or stopped, in the order of their starts |
| TimerLife.FiresOnTime | rt-thread/src/timer.c:315-594 | In every run a timer that a thread starts, and that nobody starts or stops since, fires at the tick init ticks after its start and at no tick before |
| TimerLife.RunListed | rt-thread/src/timer.c:529-594 | In every run none of whose callbacks leaves its own timer active outside the list, a timer is active iff it is listed |
| TimerPeriods.RunSettings | rt-thread/src/timer.c:474-520 | In every run the time and the kind of every timer are those that the calls of threads and callbacks set last |
| TimerPeriods.FiresAsSet | rt-thread/src/timer.c:315-594 | In every run a timer that a thread starts, and nobody starts or stops since, first fires as many ticks later as the last call that set its time says |
| TimerPeriods.FiresEvery | rt-thread/src/timer.c:543-588 | In every run a timer that a thread starts, and that no call names since, fires at every tick whose number since the start is a multiple of its time, if it is periodic; if it is one-shot, at the one whose number is its time, and never again |
| TimerPeriods.StoppedIsSilent | rt-thread/src/timer.c:438-462 | A timer that a thread stops does not fire until somebody starts it again |
| TimerHistory.StrictInsert | rt-thread/src/timer.c:357-385 | A start puts the timer behind all that have its timeout, so that the order by timeout and start is kept |
| TimerHistory.TurnOrder | rt-thread/src/timer.c:543-588 | A turn of the check keeps the order by timeout and start, whatever the callback starts and stops |
| TimerObjects.TimerList.constructor | rt-thread/src/timer.c:724-732 | Every row and the temporary list are empty rings |
| TimerObjects.TimerList.Detach | rt-thread/src/timer.c:136-144 | The timer is in no row and not in the temporary list afterwards; all others keep their places |
| TimerObjects.TimerList.FindPlaces | rt-thread/src/timer.c:357-385 | The nested loops over the rows stop at the node of that place in every row |
| TimerObjects.TimerList.Start | rt-thread/src/timer.c:315-428 | On the links of all rows and the counter of starts: the timer is taken out, gets its timeout modulo 2^32, and is linked at the places found, in as many rows as the counter says |
| TimerObjects.TimerList.Stop | rt-thread/src/timer.c:438-462 | A timer that is not active is refused and nothing changes; an active one is in no row and inactive afterwards |
| TimerObjects.TimerList.Control | rt-thread/src/timer.c:474-520 | The period, or the kind of the timer, changes; no list does |
| TimerObjects.TimerList.Check | rt-thread/src/timer.c:529-594 | rt_timer_check terminates for arbitrary callbacks and is a check of the model, at the end of which nothing is due |
| TimerObjects.TimerList.Tick | rt-thread/src/clock.c:62-89 | The tick advances modulo 2^32 and the check runs to its end: exactly a tick of the runs above, after which nothing is due and all timeouts lie ahead |
| Bits.FfsIs | rt-thread/src/kservice.c:1293-1337 | For every 32-bit value but 0 the result is the position of the lowest set bit, from 1 |
| Bits.LowestOfIs | rt-thread/src/kservice.c:1293-1311 | Every entry of the table of 256 is the lowest bit of its index |
| SchedulerModel.LevelIs | rt-thread/src/scheduler.c:153-175 | The level found is the lowest one with a thread in its queue |
| SchedulerLemmas.ScheduleKeeps | rt-thread/src/scheduler.c:409-529 | rt_schedule keeps bits, queues and thread states in step |
| SchedulerLemmas.ScheduleBest | rt-thread/src/scheduler.c:409-529 | After an unlocked rt_schedule the current thread runs and no ready thread outranks it, if anybody can run; who exactly runs is SchedulerChoice.ScheduleExact |
| SchedulerChoice.ScheduleExact | rt-thread/src/scheduler.c:409-529 | Unlocked and with somebody ready, the current thread, if it runs, stays, with all queues as they are, iff everybody ready is less urgent, or nobody is more urgent and it does not yield; otherwise the first thread of the most urgent queue runs, the old one, if it ran, is the last of the queue of its priority, and no other thread or queue changes |
| SchedulerChoice.BeforeEffect | rt-thread/src/thread.c:316-881 | What each call that reschedules has done to its thread by then: startup, timeout, exit, yield, and the tick that ends a slice |
| SchedulerChoice.ResumeUndoesSuspend | rt-thread/src/thread.c:767-850 | A suspended thread keeps all it has and is in no queue; a resume makes it what it was, at the end of its queue, or running on if it had not lost the processor |
| SchedulerChoice.RefusedCalls | rt-thread/src/thread.c:778-833 | Only ready and running threads can be suspended, and only suspended ones resumed |
| SchedulerChoice.PriorityEffect | rt-thread/src/thread.c:664-707 | A change of priority moves a ready thread to the end of the queue of its new priority and leaves everything else |
| SchedulerChoice.StartExact | rt-thread/src/scheduler.c:237-261 | The system starts with the first of the most urgent threads, and nothing else changes |
| SchedulerChoice.RunNest | rt-thread/src/scheduler.c:936-961 | The lock counts the critical sections entered and not left |
| SchedulerChoice.KeepsProcessor | rt-thread/src/scheduler.c:409-961 | A thread inside a critical section keeps the processor until all are left, whatever is called |
| SchedulerChoice.ClosedStays | rt-thread/src/thread.c:106-142 | A thread that has exited never runs again |
| SchedulerRuns.RunInv | rt-thread/src/scheduler.c:153-961 | In every state of every run of the calls: bit p is set iff queue p is not empty, each ready thread is in exactly the queue of its current priority, the running thread in none |
| SchedulerRuns.ApplyKeeps | rt-thread/src/thread.c:316-881 | Startup, suspend, resume, yield, timeout, exit, change of priority, tick and critical sections keep this |
| SchedulerRuns.NobodyOutranks | rt-thread/src/scheduler.c:237-529 | After the start of the system, and every call that ends in an unlocked rt_schedule (startup, timeout, yield, exit, the tick that ends a slice, the end of the outermost critical section, rt_schedule itself), with the idle thread able to run, no ready thread outranks the current one |
| SchedulerRuns.RunBest | rt-thread/src/scheduler.c:237-529 | The same over every run, from the moment the idle thread was made ready on, unless it exits or is suspended |
| SchedulerRuns.AliveStays | rt-thread/src/thread.c:106-850 | Only its own exit and an explicit suspend keep a thread from being able to run |
| SchedulerRuns.OneQueueEach | rt-thread/src/scheduler.c:699-826 | No two queues share a thread, and the current thread is in none |
| RoundRobin.FirstTurn | rt-thread/src/clock.c:62-89 | With nobody more urgent ready and all slices at least 1, the thread at position i first runs after exactly what is left of the current slice plus the slices of the i threads ahead |
| Schedulers.Scheduler.constructor | rt-thread/src/scheduler.c:182-230 | All 32 queues are empty rings, no bit is set and no thread is current |
| Schedulers.Scheduler.InitThread | rt-thread/src/thread.c:144-190 | A new thread is in no queue, with an empty mask, its initial priority and a whole slice; no other thread, queue or link list changes |
| Schedulers.Scheduler.InsertThread | rt-thread/src/scheduler.c:699-733 | The thread is the last of the queue of its priority, whose bit is set, and ready; the current thread only runs on |
| Schedulers.Scheduler.RemoveThread | rt-thread/src/scheduler.c:796-826 | The thread is in no queue, the others keep their order, and the bit is cleared exactly when the queue is now empty |
| Schedulers.Scheduler.HighestPriorityThread | rt-thread/src/scheduler.c:153-175 | The first thread of the most urgent queue |
| Schedulers.Scheduler.Reschedule | rt-thread/src/scheduler.c:409-529 | rt_schedule on the links performs the choice and the switch of the model, of which SchedulerChoice.ScheduleExact states which thread runs |
| Schedulers.Scheduler.Start | rt-thread/src/scheduler.c:237-261 | The first thread of the most urgent queue leaves it and runs; bits, queues and links stay in step |
| Schedulers.Scheduler.Startup | rt-thread/src/thread.c:316-348 | A new thread gets the mask of its initial priority and goes to the end of its queue; if the system runs, the most urgent thread runs afterwards |
| Schedulers.Scheduler.Suspend | rt-thread/src/thread.c:767-806 | A ready thread leaves its queue, and its bit goes if the queue is now empty; a thread that is neither ready nor running is refused and nothing changes |
| Schedulers.Scheduler.Resume | rt-thread/src/thread.c:816-850 | A suspended thread goes to the end of the queue of its priority, and the bit is set; any other is refused and nothing changes |
| Schedulers.Scheduler.Timeout | rt-thread/src/thread.c:859-881 | The suspended thread becomes ready, at the end of its queue, and the most urgent thread runs afterwards |
| Schedulers.Scheduler.Yield | rt-thread/src/thread.c:496-509 | The current thread gets a new slice and gives way to the first thread of its own priority, if there is one |
| Schedulers.Scheduler.Exit | rt-thread/src/thread.c:106-142 | The current thread is closed and in no queue, and the most urgent ready thread runs |
| Schedulers.Scheduler.ChangePriority | rt-thread/src/thread.c:664-707 | A ready thread moves to the end of the queue of its new priority, with both bits right; any other only changes its priority and mask |
| Schedulers.Scheduler.Tick | rt-thread/src/clock.c:74-85 | The slice gets shorter by one; at 0 it is renewed and the thread gives way to the first one of its own priority |
| Schedulers.Scheduler.ExitCritical | rt-thread/src/scheduler.c:936-961 | The nest count does not go below 0, and leaving the outermost section reschedules |
| PageRuns.RunTidy | rt-thread/src/slab.c:236-334 | In every run the list of free runs stays in order, disjoint and maximally coalesced, and free pages plus pages handed out make up the heap |
| PageRuns.AllocPages | rt-thread/src/slab.c:236-270 | The n pages granted were free and contiguous, and exactly these stop being free |
| PageRuns.AllocFailsIff | rt-thread/src/slab.c:236-270 | NULL exactly when no run has n pages; otherwise the lowest run that is large enough is used |
| PageRuns.AllocTidy | rt-thread/src/slab.c:245-263 | Splitting or removing a run keeps the list in order and coalesced |
| PageRuns.FreeTidy | rt-thread/src/slab.c:287-317 | Freeing joins with the run in front, the run behind or both, so that nothing is left to coalesce |
| PageRuns.FreePages | rt-thread/src/slab.c:272-322 | Exactly the freed pages become free |
| PageRuns.FreeUndoesAlloc | rt-thread/src/slab.c:236-322 | Freeing what was just granted restores the list run by run |
| PageAllocators.PageAllocator.constructor | rt-thread/src/slab.c:327-334 | One run with all the pages |
| PageAllocators.PageAllocator.Alloc | rt-thread/src/slab.c:236-270 | The loop over the in-band list, which writes through the link that leads to the run, does what is stated above |
| PageAllocators.PageAllocator.Free | rt-thread/src/slab.c:272-322 | The same for rt_page_free |
| SlabModel.ZoneIndexIs | rt-thread/src/slab.c:401-459 | The chunk is large enough and less than 8 bytes or an eighth of the request too large, and its size depends on the index alone |
| SlabModel.OneSizeEach | rt-thread/src/slab.c:401-459 | Two requests have the same zone index exactly when they have the same chunk size |
| SlabModel.MaskRounds | rt-thread/src/slab.c:635-638 | Masking with a power of two rounds down to a multiple of it |
| SlabModel.OffsetIs | rt-thread/src/slab.c:628-638 | The first chunk lies behind the header and, for a power of two, at a multiple of the chunk size |
| SlabLemmas.NewZoneOk | rt-thread/src/slab.c:628-646 | Every new zone has room for at least two chunks of the size asked for |
| SlabLemmas.ChunksInside | rt-thread/src/slab.c:642-648 | Every chunk lies between the zone header and the end of the zone |
| SlabLemmas.ChunksApart | rt-thread/src/slab.c:556-560 | Two chunks of a zone do not overlap |
| SlabLemmas.HeaderFound | rt-thread/src/slab.c:825-828 | memusage leads from the address of any chunk back to the header of its zone |
| SlabLemmas.TakeChunkOk | rt-thread/src/slab.c:543-568 | The chunk taken was not in use: never used while there is such space, or the first on the free list; z_nfree stays the number of both kinds |
| SlabLemmas.MallocKeeps | rt-thread/src/slab.c:478-667 | rt_malloc keeps: chunks split into used, freed and never used, z_nfree counts the last two, a zone is on zone_array[i] iff z_nfree > 0, memusage is right, and no areas share a page |
| SlabLemmas.GiveBackKeeps | rt-thread/src/slab.c:830-846 | A freed chunk goes to its free list, and a full zone back to its zone list |
| SlabLemmas.RetireKeeps | rt-thread/src/slab.c:854-874 | Taking an unused zone out of service, or not, keeps the whole invariant; when it happens is SlabPages.RetiresIff |
| SlabLemmas.ReleaseZoneKeeps | rt-thread/src/slab.c:876-900 | More than two zones out of service: the pages of one go back, unmarked |
| SlabRuns.MallocLive | rt-thread/src/slab.c:478-667 | rt_malloc fails without any change, or returns a pointer that nobody has and changes no other |
| SlabRuns.ReleaseLive | rt-thread/src/slab.c:771-904 | rt_free keeps the invariant and takes away exactly the pointer freed |
| SlabRuns.OneOwner | rt-thread/src/slab.c:825-832 | No address is a chunk of two zones, or a chunk and a large block |
| SlabHistory.StartInv | rt-thread/src/slab.c:344-395 | rt_system_heap_init sets up a right heap, and the memusage table always fits |
| SlabHistory.RunInv | rt-thread/src/slab.c:478-904 | In every run every zone, list, mark and page run is right, and the pointers in use are exactly those returned and not freed |
| SlabHistory.BlocksApart | rt-thread/src/slab.c:478-904 | No two blocks in use overlap, and every block lies inside the heap |
| SlabHistory.MallocGrants | rt-thread/src/slab.c:478-667 | The block has at least the bytes asked for |
| SlabHistory.MallocFailsIff | rt-thread/src/slab.c:478-667 | NULL exactly for size 0 or when no run of pages is long enough for a large block, or, for a small one, no zone of its index has a free chunk, no zone is out of service and no run is long enough for a zone |
| SlabPages.RunStock | rt-thread/src/slab.c:478-904 | In every run every page behind those of memusage is free or part of a zone or a large block, so that none is lost, and at most two zones are out of service |
| SlabPages.ZonesFirst | rt-thread/src/slab.c:539-623 | A small request is served by a zone with a free chunk if there is one; else by the zone that left service last; and only then by fresh pages |
| SlabPages.RetiresIff | rt-thread/src/slab.c:854-874 | Freeing a chunk takes its zone out of service exactly when no other of its chunks is in use and another zone of its index has a free chunk |
| SlabHistory.PowerAlignedIff | rt-thread/src/slab.c:152-153 | The comment promises that all blocks of a size that is a power of two are aligned to it; that holds in every state of every run exactly for sizes up to a page |
| SlabHistory.LiveAligned | rt-thread/src/slab.c:631-638 | Every block is 8-aligned |
| SlabHistory.ReallocRight | rt-thread/src/slab.c:678-735 | rt_realloc fails and changes nothing, or stays and is large enough, or moves: then exactly the old pointer is replaced by the new one, and at least min(old, new) bytes inside the old block are copied |
| SlabContents.ReallocContents | rt-thread/src/slab.c:678-735 | Wherever rt_realloc leaves the block, it is large enough and its first min(old, new) bytes are those of the old block, and every other block keeps its extent and all its bytes |
| SlabContents.ReallocStaysIff | rt-thread/src/slab.c:678-735 | The pointer stays the same exactly if the block is a chunk of the size that the request has by itself; without a pointer rt_realloc allocates, and for no bytes it frees |
| SlabHeaps.SlabHeap.constructor | rt-thread/src/slab.c:344-395 | No zones; the zone size as the heap size demands, up to 128K, the limit a quarter of it, at most 16K; the first pages taken for memusage |
| SlabHeaps.ZoneSize | rt-thread/src/slab.c:374-377 | Of 32K, 64K and 128K the smallest that is at least half of a 1024th of the heap, or 128K if none is |
| SlabHeaps.SlabHeap.Malloc | rt-thread/src/slab.c:478-667 | The code on headers, lists, marks and pages performs exactly the transition of the model |
| SlabHeaps.SlabHeap.TakeChunk | rt-thread/src/slab.c:539-577 | A chunk that was not in use, from the first zone of the list, which leaves the list exactly when no chunk is left; all headers and lists stay right |
| SlabHeaps.SlabHeap.InitZone | rt-thread/src/slab.c:625-652 | The header of a zone with all chunks but the first free, in front of the list of its index |
| SlabHeaps.SlabHeap.FreshZone | rt-thread/src/slab.c:590-623 | The zone that left service last, or fresh pages, each marked with its distance from the first; or NULL and nothing changes |
| SlabHeaps.SlabHeap.FromPages | rt-thread/src/slab.c:489-521 | Whole pages, the first of them marked with their number; or NULL and nothing changes |
| SlabHeaps.SlabHeap.Free | rt-thread/src/slab.c:771-904 | rt_free on headers, lists, marks and pages performs exactly the transition of the model |
| SlabHeaps.SlabHeap.FindZone | rt-thread/src/slab.c:862-864 | The walk stops at the link that leads to the zone |
| ZoneLists.Unlink | rt-thread/src/slab.c:862-865 | Overwriting that link takes the zone out of its list and leaves every other list as it is |
| StackAnalysis.CallGraph.Analyse | rt-thread/tools/WCS.py:223-299 | Both passes together: the graph analysed is that of the dictionaries, each call leading to the global function of that name or else to the one of its own unit; and for every such graph, cyclic or not, every function gets the right value, and a bounded one the unresolved calls of all functions below it |
| StackAnalysis.CallGraph.CalcAll | rt-thread/tools/WCS.py:245-299 | A function is unbounded iff it reaches a call through a pointer or a cycle, and otherwise has the largest summed local_stack over all call paths |
| StackAnalysis.CallGraph.Calc | rt-thread/tools/WCS.py:246-289 | The memoised search ends (measure: functions neither valued nor on the parent stack) and every value it writes is right |
| StackAnalysis.CallGraph.VisitAll | rt-thread/tools/WCS.py:268-287 | The loop over the callees stops at the first one without a bound |
| StackAnalysis.CallGraph.ResolveAll | rt-thread/tools/WCS.py:223-242 | Every call is resolved to the global function of that name, or else to that of the own translation unit, or recorded as unresolved |
| StackPaths.OneAnswer | rt-thread/tools/WCS.py:245-299 | There is one right value, so the result does not depend on the order of visits |
| StackPaths.LoopUnbounded | rt-thread/tools/WCS.py:263-266 | A function found on the parent stack is on a cycle |
| StackPaths.CalleesBound | rt-thread/tools/WCS.py:268-289 | With bounded callees and no call through a pointer a function is bounded |
| RomImage.RoundTrip | rt-thread/tools/mkromfs.py:230-241 | For every tree of files and folders with NUL-free names and every 4-aligned base address for which the tool returns an image, following the name, data and size words of the image, all 4-aligned, gives back the tree, its names and its bytes |
| RomImage.ReadNodesIs | rt-thread/tools/mkromfs.py:162-211 | The same for the entries of any folder inside an image, however deep |
| RomImage.FolderData | rt-thread/tools/mkromfs.py:162-211 | The loop over the children writes the entries and then names and padded contents, depth first, or fails when a field does not fit 32 bits |
| RomImage.Image | rt-thread/tools/mkromfs.py:230-241 | The root entry, its name and the tree below |
| RomImage.PayloadMultiple | rt-thread/tools/mkromfs.py:194-199 | Names and contents are multiples of 4 long, so that everything behind them is aligned |
| RomImage.SmallFits | rt-thread/tools/mkromfs.py:201-209 | When the image ends below 2^32 every field fits |
| PrintBuffer.Vsnprintf | rt-thread/src/kservice.c:780-1043 | For every format, arguments, size and place of the buffer in the 2^32 addresses the length of the whole text, whose meaning is PrintDirectives.OutputMeant, is returned whatever the size, and the memory afterwards is that of the model; if the text ends below 2^32 that is the truncation law: the buffer gets the first min(length, size - 1) characters and NUL, and no other address is written (compare section 7.21.6.12 of ISO/IEC 9899:2011) |
| PrintBuffer.InsideIff | rt-thread/src/kservice.c:803-811 | Of the memory that rt_vsnprintf leaves: nothing outside of the buffer ever changes exactly when the whole text ends below 2^32, also where end wraps; or when the buffer starts at address 0, or nothing fits and the text ends right there |
| PrintDirectives.OutputMeant | rt-thread/src/kservice.c:780-1043 | For every format spelled out from plain characters and directives (flags, width, precision, qualifier, conversion), and all arguments, the text is what each piece means, one after the other: number in its base and letter case, of 32 or 16 bits, signed or not, string or character, filled with blanks or zeros on the side asked for |
| PrintDirectives.OutputJoined | rt-thread/src/kservice.c:811-1030 | A text, a directive and a rest print one after the other; the directive takes the first argument that the text left, and the rest those behind |
| PrintDirectives.IntegerReads | rt-thread/src/kservice.c:888-1026 | Unless the precision is 0, what %d, %i, %u, %x or %X prints reads back as the argument, signed for d and i, unsigned for the others, of 16 bits with h, and fills the width |
| PrintDirectives.DirectiveRead | rt-thread/src/kservice.c:823-886 | Reading a directive finds exactly the flags, width, precision, qualifier and conversion it was spelled with, the stars taking their arguments in turn |
| PrintDirectives.NumberPrinted | rt-thread/src/kservice.c:621-778 | print_number prints sign, leading zeros and digits of the number, filled up to the width |
| PrintBuffer.Convert | rt-thread/src/kservice.c:679-686 | The digit loop computes the digits of the number and stays inside the 16 bytes of tmp |
| PrintBuffer.Cursor.PutNumber | rt-thread/src/kservice.c:621-778 | print_number with its counters, signs, fill characters and precision prints exactly its part of the whole text |
| PrintBuffer.Cursor.PutConversion | rt-thread/src/kservice.c:888-1026 | The switch over the conversions prints exactly its part of the whole text, with the base, signs and letter case that PrintDirectives.OutputMeant states, and takes the right number of arguments |
| PrintBuffer.ReadDirective | rt-thread/src/kservice.c:823-886 | Flags, width, precision and qualifier, with skip_atoi and * arguments |
| PrintLemmas.TmpFits | rt-thread/src/kservice.c:637-686 | A 32-bit number has at most 10 digits in the bases that divide knows |
| PrintLemmas.ReadBackIff | rt-thread/src/kservice.c:621-778 | What is printed of a number reads back as the number, in the base that divide uses (10 or 16), for every width and all flags, exactly when the precision is not 0 or the number is 0 |
| PrintLemmas.OctalIff | rt-thread/src/kservice.c:637-777 | What %o prints reads back in base 8 as the number exactly if the number is below 8, or, with precision 0, exactly if it is 0 |
| PrintLemmas.OctalExample | rt-thread/src/kservice.c:637-777 | %o prints 8 as 8, which is no octal number |
| PrintLemmas.NumberShape | rt-thread/src/kservice.c:688-777 | Blanks on one side only, or zeros behind the sign; then the digits, with leading zeros up to the precision |
| PrintLemmas.NumberLength | rt-thread/src/kservice.c:688-777 | The printed number fills the width and is no longer than it has to be |
| PrintLemmas.StringShape | rt-thread/src/kservice.c:916-946 | %s prints as many characters as the precision admits, filled up to the width on the right side |

## Left out

- MemHeaps.MemHeap.Alloc: requests above 0xFFFFFFC0, where RT_ALIGN and the sums of sizes wrap around; also waiting for the heap semaphore.
- MemHeaps.MemHeap.Realloc: the lock is taken and released several times; other calls in between are not modelled.
- MemHeaps.MemHeap.constructor: pools too small for one minimum block, and objects with names and owners.
- SmallMems.SmallMem.Malloc: requests above 0xFFFFFFF8, where RT_ALIGN wraps around.
- SmallMems.SmallMem.constructor: heaps too small for one block; the code then reports an error and returns.
- SlabHeaps.SlabHeap.Malloc: the semaphore is released while pages are fetched; other calls in between are not modelled. Sizes are unbounded, so that the wrap-around of RT_ALIGN near 2^32 does not occur. The z_magic word, used_mem and max_mem are not fields of the model.
- SlabHeaps.SlabHeap.Free: of pointers that were not handed out, for which the code asserts.
- SlabHistory.Realloc: is modelled on values only, not on the headers in place, as a call of malloc, a copy and a call of free.
- When a resumed thread gets the processor: the lists of IPC objects and the queues of the scheduler are modelled separately, although the source uses one link field of the thread for both.
- Mailboxes.Mailbox.constructor: sizes above 65535, which the 16-bit field cuts off.
- MutexRuns.RunInv: threads that hold or await two mutexes, and changes of priority from outside; the code does not promise inheritance for them.
- MutexLemmas.TimeOutKeeps: after a timeout the owner keeps the inherited priority until its release; the code does not take it back.
- TimerRuns.CheckExact: a callback is the sequence of the timer calls that it makes, decided before it runs.
- TimerLife.RunIdle: rt_timer_start of 0 ticks, which a thread may ask for (see TimerSpins.EndsIff for what that leads to); jumps of the tick by rt_tick_set; and timers that are detached or deleted.
- TimerObjects.TimerList.Check: the tick does not advance during a check, as rt_timer_check runs in the tick interrupt.
- TimerObjects.TimerList.Tick: the time slice part of rt_tick_increase is Schedulers.Scheduler.Tick, on a state of its own.
- RoundRobin.FirstTurn: no timer expires and no thread is made ready in the meantime.
- Schedulers.Scheduler.Exit: the clean-up of the thread object and its stack by the idle thread.
- StackAnalysis.CallGraph.ResolveAll: the reading of .o, .su and .dfinish files into the dictionaries, and the printed table; two functions are the same if they are the same dictionary.
- RomImage.Image: walking the directory, sorting, and the output as C source; names and contents are sequences of bytes, and the words are little-endian, as on the boards concerned.
- PrintBuffer.Vsnprintf: the format and the strings among the arguments are not part of the memory that is written; an argument that was not passed reads as 0, where the C is undefined.
- PrintDirectives.OutputMeant: formats with directives that break off or are not spelled in the usual order, of which only PrintBuffer.Vsnprintf speaks; widths and precisions near 2^31, for which the counters overflow.
- SemaphoreHistory.RunSeen: with lists kept by priority, priorities that change during the run.
- EventHistory.RunSeen: the same.
- MsgQueueTurns.RunTurns: the same.
- MailboxTurns.RunTurns: the same.
- PrintLemmas.ReadBackIff: widths and precisions that are about 2^31 apart, for which the counters of print_number overflow.
- Deleting or detaching an object while threads are in a call on it, and resuming a thread from outside that waits for an object.
- Interrupt nesting, context switches, stacks, signals, SMP variants, hooks, debug output, object names and lookup, and FinSH commands.
- The soft-timer thread.
- Drivers, board support and the build scripts.
- In-band data: header words, free-list links and user bytes are separate maps; that they never overlap is what Tiling.HeadersAvoidPayloads, SlabLemmas.ChunksInside and SlabHistory.BlocksApart say.
