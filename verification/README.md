# Kernel model

A Dafny model of the parts of a bare-metal multi-core x86 kernel whose correctness is hardest to see: the
heap allocator, the guard that serialises interrupts and threads on all CPUs, the scheduler with its
semaphores, mutexes and timers, the calendar, and the arithmetic and text codecs they use.
`dafny verify dfyconfig.toml` checks the whole project.

## What is modelled

**The heap** (`HeapLayout`, `HeapOps`, `HeapSpec`, `MemUtil`, `HeapFacts`, `HeapAllocator`, `HeapRuns`).
`HeapAllocator.Heap` is the `Heap` object as an array of bytes: the free-list sentinel, then 1 MiB of blocks
with a header, a footer and, in free blocks, a list node. Every method reads and writes those bytes as the code
does. A ghost `Shape` (sizes by address, the used blocks, the free list in order) is what the bytes mean;
`WellFormed` says that blocks tile the heap, tags agree with it, the circular list holds exactly the free blocks,
and no two neighbours are free. The specification functions on shapes (`MergeShape`, `SplitShape`, `AllocShape`,
`FreeShape`) are proved to keep these invariants, and the methods are proved to do on bytes what they say.

**The guard** (`Guard`). A transition system for up to eight CPUs: interrupt flag, per-CPU `in_epilogue` and gate
queue, one flag per gate, and the 8-bit ticket lock, each shared access its own step, with interrupts arriving
wherever they are enabled. Threads may be switched inside the critical section and continue on another CPU.
`relay` enqueues a gate only if its flag was clear before: `set_queued` returns the old value of the flag, contrary
to its comment.

**Queues, scheduling and synchronisation** (`IntrusiveQueue`, `QueueLists`, `SchedulerSpec`, `SchedulerRuns`,
`SchedulerTheorems`, `SchedulerFairness`, `MutexLoss`, `SchedulerCode`, `BellringerList`). `IntrusiveQueue.Queue`
is the linked list with its tail that designates a link field; it refines a sequence. `QueueLists.Lists` are
several such queues over elements with a single link each. `SchedulerCode.Scheduler` updates ready list and waiting
rooms, linked through the threads, the lists of held mutexes, linked through the mutexes, `life` pointers, kill
flags, counters and owners, and is proved against the functions of `SchedulerSpec` and `SchedulerRuns`, one atomic
step for each call made inside the guard. That one link serves all queues rests on the invariant that a thread is
in one place at a time. `SchedulerTheorems`, `SchedulerFairness` and `MutexLoss` state what holds over whole runs
of such calls. Saved control state matters in one place, and is modelled there: a thread blocked inside
`Mutex::lock` records itself as owner when it runs again. `BellringerList.Bellringer` is the timer list with stored
differences; it refines a list of deadlines, and that a map.

**The calendar** (`Calendar`). `Calendar.Time` has the fields of `Time`, as 16-bit numbers. Its carry and borrow
loops are proved against a count of days defined year by year and month by month.

**Arithmetic and text** (`Arithmetic`, `NumberText`, `GdbCodec`). Division by shift and subtract, powers modulo
2^32 and the timer setting; the integer printer and `strtol`; the packets and encodings of the GDB Remote Serial
Protocol (GDB manual, appendix "GDB Remote Serial Protocol", section "Overview").

## Assumptions

- Heap: `get_previous` on the first block takes the sentinel's `next` pointer for a footer and reads a word near the
  top of the address space. Its result is "no predecessor" as long as that word does not happen to hold the matching
  size (`HeapFacts.Quiet`) and the object lies word-aligned well below the top of memory (`HeapFacts.Placed`). Memory
  outside the object is otherwise a fixed function for that read, and undetermined where a copy runs past the end.
- Heap: an assertion of the code stops the CPU; the methods return `None`, `false` or `Halted` for it. When `realloc`
  finds no memory to relocate to, the code copies to address 4 (`NullCopy`), and nothing is claimed after that.
- Guard: memory is sequentially consistent; `enter` is not called at epilogue level; a CPU performs the load and
  the store of `unlock` as two steps.
- Scheduler: the callers owe what `SchedulerRuns.Enabled` says. Idle threads neither block nor end nor are killed, a
  thread is announced once, and a destroyed thread is not named again. A thread's object, with its link and its list
  of mutexes, comes into being when the thread is announced. Counters of semaphores are unbounded; that a counter is
  at most its initial value plus the number of `v` calls follows from `SemaphoreAccount`.
- Timers: `job` is called with at least one tick, as `Bell::sleep` ensures.
- Calendar: the fields are in range when a call is made; a century of 65535 stands for -1.
- Printer: negating the least 32-bit number wraps around to itself.

## Where the code falls short of the obvious promise

- `realloc` loses payload on some splits: the tags and the list node of the front part are written before the payload
  is moved. `HeapSpec.KeepsContent` is the exact condition; `HeapFacts.MoveIsDone`, `HeapFacts.ReuseIsDone`,
  `HeapRuns.LossIsReal` and `HeapRuns.ShrinkInPlaceLoses` prove both directions, and `HeapRuns.ShrinkWholeHeap` is a
  run that loses a byte.
- `free` and `realloc` take any place in the heap for a used block if an odd byte lies there. Freeing a block twice is
  noticed exactly if no free predecessor absorbed it (`HeapAllocator.Heap.Free`, `HeapRuns.FreeFirstBlock`).
- A mutex is lost for good exactly if a thread is killed between being handed the mutex and running again
  (`SchedulerTheorems.MutexLostIff`). Two threads and eight calls are enough (`MutexLoss.LossHappens`), and whoever
  locks it afterwards never gets it (`MutexLoss.LostForGood`, `MutexLoss.LockNeverReturns`).
- `strtol` notices an overflow only if a digit makes the remainder modulo 2^32 smaller, or the last remainder is too
  large (`NumberText.Reported`); otherwise it returns that remainder without an error: 14316557660 is read as
  1431655772 (`NumberText.WrapUnnoticed`). Base 2 is the only base in which every overflow is reported
  (`NumberText.OnlyBinaryIsSafe`).
- `decrement_seconds` below year 0 leaves a century that wrapped around; the fields are in range exactly if at
  least that many seconds had passed since the start of year 0.
- `apply_timezone` runs into an assertion for time zone 0.
- `send_packet` stops at a byte 0xFF, because `Serial::write` returns the character as a signed number; the binary
  encoding does not escape that byte (`GdbCodec.BinaryTransfer`).
- `dec_hex` returns 0 for success where its comment promises the number of bytes.

## Model

| member | source | states |
|---|---|---|
| `HeapAllocator.Heap.constructor` | utils/heap.cc:45-63 | the static initialisation yields a well-formed heap of one free block |
| `HeapAllocator.Heap.WriteSizeFields` | utils/heap.cc:135-142 | header and footer words are written, and no other word |
| `HeapAllocator.Heap.GetNext` | utils/heap.cc:144-157 | the block behind, or none if the footer disagrees with the header or at the end of the heap |
| `HeapAllocator.Heap.GetPrevious` | utils/heap.cc:159-173 | the predecessor in the tiling, and none for the first block |
| `HeapFacts.PreviousAddress` | utils/heap.cc:159-173 | the address computed from the footer is the predecessor; for the first block it lies outside the object and no header there matches |
| `HeapAllocator.Heap.FreeListInsert` | utils/heap.cc:108-118 | the pointer writes of an insertion behind the sentinel |
| `HeapOps.InsertOk` | utils/heap.cc:108-118 | inserting an unlisted block keeps tiling, tags and ring, puts it first, and touches no payload of an unlisted block |
| `HeapAllocator.Heap.FreeListRemove` | utils/heap.cc:120-128 | unlinking a node removes exactly that node from the list and keeps the representation |
| `HeapLayout.RemoveLinked` | utils/heap.cc:120-128 | bridging the gap of one node leaves the circular list of all the others, in order |
| `HeapLayout.FuseTiled` | utils/heap.cc:177-201 | fusing a run of blocks leaves a tiling of the whole area |
| `HeapLayout.CutTiled` | utils/heap.cc:205-223 | cutting a block with room for two leaves a tiling of the whole area |
| `HeapOps.FuseOk` | utils/heap.cc:196-199 | one header and one footer turn the range into one used block and change no payload |
| `HeapSpec.MergeSound` | utils/heap.cc:177-201 | merging with free neighbours keeps every invariant of the heap; the merged block has used neighbours only |
| `HeapAllocator.Heap.TryMerge` | utils/heap.cc:177-201 | the block is fused with exactly its free neighbours, keeps its flags, and no live payload changes |
| `HeapSpec.SplitSound` | utils/heap.cc:205-223 | a split keeps every invariant; the back part is used, holds the request, and wastes little: in numbers, at most max(n + 3, 8) + 15 bytes for n, at most max(n + 3, 8) if the block had 16 more than that, and no split if it had less than max(n, 8) + 16 |
| `HeapOps.SplitOk` | utils/heap.cc:211-219 | the writes of a split represent the shape with the front part listed and the back part used |
| `HeapAllocator.Heap.MaybeSplitBlock` | utils/heap.cc:205-223 | a block with enough to spare is split and its back part returned, no larger than the numbers of SplitSound allow; any other is returned as it is; no other payload changes |
| `HeapAllocator.Heap.GetHeapStats` | utils/heap.cc:225-247 | the walk ends; used bytes are the sum of the sizes of the used blocks, 0 if there are none and never less than one of them, free bytes the sum of the others; used plus free plus 8 bytes for each block is the heap size, and the block counts are exact |
| `HeapSpec.TotalTakes` | utils/heap.cc:225-247 | that sum is the sum, in whichever order the blocks are added |
| `HeapAllocator.Heap.FindFreeBlock` | utils/heap.cc:249-260 | the first listed block that is large enough, or none exactly if there is none |
| `HeapSpec.AllocSound` | utils/heap.cc:262-279 | after an allocation the heap is sound, the new block was not used, is large enough and, in the same numbers, wastes little; every used block keeps its size |
| `HeapAllocator.Heap.MallocBlock` | utils/heap.cc:262-279 | fails, and changes nothing, exactly if no free block is large enough; no live payload changes |
| `HeapAllocator.Heap.Malloc` | utils/heap.cc:281-290 | stops for size 0 and when memory is exhausted; otherwise a fresh payload of at least n bytes and at most max(n + 3, 8) + 15, or max(n + 3, 8) if the free block had 16 more than that |
| `HeapSpec.PayloadsDisjoint` | utils/heap.cc:281-290 | payloads are 4-aligned, inside the heap, and disjoint from one another |
| `HeapSpec.FreeSound` | utils/heap.cc:303-309 | after a free the heap is sound and exactly that block is no longer used |
| `HeapAllocator.Heap.FreeBlock` | utils/heap.cc:303-309 | merge, mark and insert; no other live payload changes |
| `HeapAllocator.Heap.CheckPointer` | utils/heap.cc:87-96 | what free and realloc ask of a pointer, for any pointer: in range, and an odd byte where the header would be |
| `HeapFacts.PassesIfUsed` | utils/heap.cc:314-317 | that check is exact on the blocks there are, and goes wrong exactly where an odd byte lies elsewhere |
| `HeapAllocator.Heap.Free` | utils/heap.cc:311-319 | stops, and changes nothing, exactly if the pointer fails the check; else frees the used block it names; after that the pointer passes the check again, with no block there, exactly if a free predecessor absorbed the block |
| `HeapFacts.FreedTwice` | utils/heap.cc:303-317 | why: an absorbed block leaves its header behind with the used bit set |
| `HeapRuns.FreeFirstBlock` | utils/heap.cc:303-317 | such a run from the start: the first block allocated and freed still passes for a used one |
| `HeapSpec.AllFreeIsWhole` | utils/heap.cc:175-201 | once nothing is in use the heap is one free block again |
| `HeapAllocator.Heap.Relocate` | utils/heap.cc:330-340 | a relocation keeps the old payload bytes at the new place and every other live payload; it fails exactly if memory is exhausted after the merge |
| `HeapAllocator.Heap.Reuse` | utils/heap.cc:342-349 | the merged block is reused: the payload moves along, except where a split wrote first, and that byte is named |
| `HeapFacts.MoveIsDone` | utils/heap.cc:321-340 | a relocating realloc keeps the first min(old, new) bytes and every other block |
| `HeapFacts.ReuseIsDone` | utils/heap.cc:321-350 | a reusing realloc does so exactly under KeepsContent |
| `HeapAllocator.Heap.ReallocBlock` | utils/heap.cc:321-350 | realloc of a used block in all its cases: result, invariants, payloads |
| `HeapAllocator.Heap.Realloc` | utils/heap.cc:352-375 | stops exactly for size 0 and for pointers that fail the check of free; else as ReallocBlock |
| `HeapRuns.LossIsReal` | utils/heap.cc:211-219 | where KeepsContent fails, a payload that differs from the word written there does lose a byte |
| `HeapRuns.ShrinkInPlaceLoses` | utils/heap.cc:342-349 | shrinking a block between used neighbours far enough to split it violates KeepsContent |
| `HeapRuns.ShrinkWholeHeap` | utils/heap.cc:342-349 | a run from the start that loses a byte: whatever was stored, shrinking replaces it by a byte of the heap's address |
| `HeapRuns.Step` | utils/heap.cc:281-375 | one client call stops exactly in the cases named, else keeps the heap well formed, changes the blocks in use as asked, with at most max(n + 3, 8) + 15 bytes for n, leaves every other payload alone, and leaves in memory what the client may know of its blocks: what it wrote, and what a realloc carries over under KeepsContent |
| `HeapRuns.Run` | utils/heap.cc:281-375 | any run of malloc, free, realloc and writes, up to the call that stops it: well formed throughout, memory always has what the books of the client say of its blocks, blocks no call names keep all their content, one free block once all is freed |
| `MemUtil.MemCpy` | utils/memutil.cc:4-13 | bytes copied upwards, with what an overlap does to them |
| `MemUtil.MemMove` | utils/memutil.cc:15-31 | the destination gets the old source bytes, overlapping or not; nothing else changes |
| `Guard.InitInv` | guard/guard.cc:8-11 | the invariant holds at boot |
| `Guard.ControlStep` | guard/guard.cc:13-50 | interrupt flag, in_epilogue and queue of every CPU agree with where it is, at every step |
| `Guard.TicketsStep` | machine/ticketlock.h:45-56 | the 8-bit tickets stand for the unbounded order of draws; only the oldest draw owns the lock |
| `Guard.GatesStep` | guard/gate.h:68-78 | a gate is flagged exactly while it is in one queue, about to be enqueued, or just dequeued |
| `Guard.LostStep` | guard/guard.cc:36-50 | no step loses a requested epilogue |
| `Guard.ThreadsStep` | thread/dispatcher.cc:20-31 | every switch keeps the number of pending unlocks of each thread right |
| `Guard.InvStep` | guard/guard.cc:13-50 | every step of every CPU keeps the invariant |
| `Guard.MutualExclusion` | guard/guard.cc:13-50 | in every run at most one CPU is between lock and unlock |
| `Guard.TicketOrder` | machine/ticketlock.h:45-56 | CPUs enter in ticket order; t - l modulo 256 is the number of CPUs that hold or wait |
| `Guard.NoRequestLost` | guard/guard.cc:20-50 | a relayed gate is in a queue of a CPU at epilogue level or on its way to run, in every run |
| `Guard.FifoStep` | guard/guard.cc:20-46 | at every step, what waits for a CPU and what is enqueued is what is started and what waits then, in this order |
| `Guard.FirstInFirstOut` | guard/guard.cc:20-46 | over every run, the epilogues queued on a CPU start in the order in which they were enqueued there, each once, and the others are still in its queue or in the hands of leave |
| `Guard.EpiloguesInOrder` | guard/guard.cc:20-46 | the same from boot: all that was enqueued on a CPU is what has started there, followed by what waits |
| `Guard.InterruptsOn` | guard/guard.cc:15-51 | in every run interrupts are on exactly while no handler runs and the CPU is outside enter and leave, taking the lock, inside, or about to run an epilogue; nothing is enqueued once leave found the queue empty |
| `Guard.QueuesSound` | guard/gate.h:68-78 | a gate is in at most one queue, once; in_epilogue is clear only with an empty queue; FirstInFirstOut says in which order it empties |
| `Guard.OwnershipMigrates` | thread/dispatcher.cc:20-31 | a thread on no CPU owes exactly one unlock, one on a CPU owes one exactly while that CPU owns the lock |
| `IntrusiveQueue.Queue.Enqueue` | object/queue.h:94-99 | appends, and touches no other element but the last |
| `IntrusiveQueue.Queue.Dequeue` | object/queue.h:105-117 | takes the head, or reports an empty queue |
| `IntrusiveQueue.Queue.Remove` | object/queue.h:171-182 | deletes by identity, reports absence, and leaves the removed element's link as it was |
| `IntrusiveQueue.Queue.InsertFirst` | object/queue.h:187-192 | prepends |
| `IntrusiveQueue.Queue.InsertAfter` | object/queue.h:199-205 | inserts behind a given element; the tail follows if that was the last |
| `IntrusiveQueue.Queue.First` | object/queue.h:210-214 | the head without removing it |
| `IntrusiveQueue.Queue.RemoveWhileIterating` | object/queue.h:128-145 | a walk that removes each element it stands on visits every element once, in order, and empties the queue |
| `IntrusiveQueue.Transfer` | thread/thread.h:43-44 | one link serves two disjoint queues: moving an element keeps both sound |
| `IntrusiveQueue.EnqueueTwice` | thread/thread.h:43-44 | an element enqueued elsewhere while it is in a queue leaves that queue sound exactly if it was the last |
| `QueueLists.Lists.Enqueue` | object/queue.h:94-99 | with one link for each element, appending to one of several queues leaves all the others as they were, if no element is in two |
| `QueueLists.Lists.Dequeue` | object/queue.h:105-117 | so does taking the head |
| `QueueLists.Lists.Remove` | object/queue.h:171-182 | so does deleting an element, whose link goes on leading to what was behind it |
| `SchedulerCode.QueuesApart` | thread/thread.h:43-44 | exclusive placement puts no thread in two of the queues that share its link |
| `SchedulerCode.Scheduler.constructor` | thread/scheduler.h:40-40 | the initial state satisfies the invariants, for any semaphores, mutexes and bells |
| `SchedulerCode.Scheduler.DispatchNext` | thread/scheduler.cc:14-16 | the head of the ready list, or the idle thread, runs next; inside Mutex::lock it first becomes the owner |
| `SchedulerCode.Scheduler.Schedule` | thread/scheduler.cc:18-20 | the same for the first thread of a CPU |
| `SchedulerCode.Scheduler.Announce` | thread/scheduler.cc:22-25 | a new thread goes to the end of the ready list |
| `SchedulerCode.Scheduler.Exit` | thread/scheduler.cc:27-30 | the running thread is destroyed, its mutexes unlocked, the next one dispatched |
| `SchedulerCode.Scheduler.Kill` | thread/scheduler.cc:32-72 | the four outcomes of kill: from the ready list, from a waiting room, on this CPU, flagged on another; KillFinds and KillTakesEffect say what that leads to |
| `SchedulerCode.Scheduler.FindCpu` | thread/scheduler.cc:52-63 | the search finds the one CPU that runs the thread, or reports that none does |
| `SchedulerCode.Scheduler.Resume` | thread/scheduler.cc:74-89 | the running thread is destroyed, requeued or, if idle, dropped, and the next one dispatched |
| `SchedulerCode.Scheduler.Block` | thread/scheduler.cc:91-96 | the running thread joins the room and the next one is dispatched |
| `SchedulerCode.Scheduler.Wakeup` | thread/scheduler.cc:106-110 | the customer leaves its room, if still there, and joins the ready list |
| `SchedulerCode.Scheduler.Assassinate` | thread/assassin.cc:18-23 | a flagged running thread is destroyed, any other left alone |
| `SchedulerCode.Scheduler.MutexReleaseAll` | thread/thread.cc:68-74 | the walk along the linked list, from which every unlock removes the mutex at hand, unlocks every held mutex once, oldest first, and leaves the list empty |
| `SchedulerCode.Scheduler.Destroy` | thread/thread.cc:20-25 | the destructor, with the bookkeeping of a mutex that was on its way to the thread |
| `SchedulerTheorems.ReleasedOnce` | thread/thread.cc:68-74 | a dying thread posts each mutex it held exactly once, and no other semaphore |
| `SchedulerFairness.ReleaseOrder` | thread/thread.cc:68-74 | the unlocks of a dying thread make the longest waiting threads of its mutexes ready, in the order in which it holds them |
| `SchedulerFairness.HeldInOrder` | user/mutex/mutex.cc:4-15 | every call leaves the list of held mutexes of a thread that lives on as it is, but for one more at its end or one less |
| `SchedulerCode.Scheduler.P` | meeting/semaphore.cc:4-10 | takes a unit or blocks |
| `SchedulerCode.Scheduler.V` | meeting/semaphore.cc:12-19 | wakes the longest waiting thread or counts up |
| `SchedulerCode.Scheduler.Lock` | user/mutex/mutex.cc:4-8 | takes the mutex and records the owner, or blocks inside lock |
| `SchedulerCode.Scheduler.Unlock` | user/mutex/mutex.cc:10-15 | takes the mutex from its owner's linked list, reports whether it was there, and posts it |
| `SchedulerCode.Scheduler.Ring` | meeting/bell.cc:8-15 | wakes everybody in the room, in order |
| `SchedulerCode.Scheduler.Sleep` | meeting/bell.cc:17-25 | blocks on the bell, except for 0 ticks |
| `SchedulerSpec.SwitchPlaces` | thread/dispatcher.cc:20-24 | a dispatch leaves every thread in its one place |
| `SchedulerSpec.DispatchLocks` | user/mutex/mutex.cc:4-8 | a dispatch keeps semaphores and mutexes consistent, also when it completes a lock |
| `SchedulerSpec.ReleaseKeeps` | user/mutex/mutex.cc:10-15 | unlocking keeps placement and mutex units, also in the middle of a destructor |
| `SchedulerSpec.DieKeeps` | thread/thread.cc:20-25 | destroying a thread keeps all invariants and leaves it holding nothing |
| `SchedulerRuns.CallKeeps` | thread/scheduler.cc:14-110 | every call keeps placement, counters and mutex units |
| `SchedulerRuns.KillKeeps` | thread/scheduler.cc:32-72 | so does kill in each of its outcomes |
| `SchedulerRuns.LockKeeps` | user/mutex/mutex.cc:4-8 | so does lock, granted or blocking |
| `SchedulerTheorems.RunInv` | thread/scheduler.cc:14-110 | so does every run of calls |
| `SchedulerTheorems.ExclusivePlacement` | thread/scheduler.cc:14-110 | in every run a live thread is in exactly one place, a thread not live in none, an idle thread only on its CPU |
| `SchedulerTheorems.InOnePlace` | thread/scheduler.cc:14-110 | two places of a thread are the same place, down to the position in the queue |
| `SchedulerTheorems.KillFinds` | thread/scheduler.cc:32-72 | kill destroys every live thread at once, unless it runs on another CPU, and then sets its flag and changes nothing else |
| `SchedulerTheorems.FlaggedForGood` | thread/scheduler.cc:49-50 | a kill flag stays set for the rest of the run |
| `SchedulerTheorems.KillTakesEffect` | thread/scheduler.cc:32-89 | no kill is lost: in every later state of every run the thread is destroyed or flagged, and the first resume or the first assassin interrupt on a CPU it runs on destroys it |
| `SchedulerTheorems.ResumeQueuesOrBuries` | thread/scheduler.cc:74-89 | a flagged thread is destroyed, not queued; any other goes to the end of the ready list |
| `SchedulerTheorems.ExitDestroys` | thread/scheduler.cc:27-30 | exit destroys the running thread, which then holds nothing, and changes no kill flag |
| `SchedulerTheorems.WakeAllRest` | meeting/bell.cc:8-15 | ringing a bell moves all who wait for it to the end of the ready list, in their order, and nobody else |
| `SchedulerTheorems.TakesOrWaits` | meeting/semaphore.cc:5-10 | p takes a unit and goes on if there is one; otherwise, and in sleep, the caller waits as the last in the room, and the head of the ready list, or the idle thread, runs in its place |
| `SchedulerTheorems.LocksOrWaits` | user/mutex/mutex.cc:4-8 | lock returns at once with the mutex, which is then the caller's and the last in its list, exactly if it is free; otherwise the caller waits for it as the last |
| `SchedulerTheorems.DeadForGood` | thread/scheduler.cc:27-89 | a destroyed thread is nowhere and holds nothing for the rest of the run |
| `SchedulerTheorems.SemaphoreAccount` | meeting/semaphore.cc:4-19 | over every run: never below zero unless it started there, positive only while nobody waits, initial plus v calls is counter plus grants, and every p was granted, waits, or was withdrawn by a kill |
| `SchedulerTheorems.SemaphoreFromBoot` | meeting/semaphore.h:36-36 | the same from the constructor's value, which may be negative |
| `SchedulerTheorems.FirstComeFirstServed` | meeting/semaphore.cc:12-19 | while a thread waits, nobody behind it in the same room is served |
| `SchedulerFairness.CallMovesUp` | thread/scheduler.cc:14-98 | a thread in the ready list is moved back by no call, and forward by every dispatch |
| `SchedulerFairness.ReadyWaitBounded` | thread/scheduler.cc:14-98 | over every run, a thread with k others before it in the ready list is still there after n dispatches only if n is at most k, and then at most k - n are before it |
| `SchedulerFairness.RoomWaitBounded` | meeting/semaphore.cc:5-19 | over every run, a thread with k others before it at a semaphore or mutex still waits after n calls of v or unlock only if n is at most k, and then at most k - n are before it |
| `SchedulerTheorems.MutexExclusion` | user/mutex/mutex.cc:4-15 | a mutex has at most one holder, who is live |
| `SchedulerTheorems.MutexLostIff` | user/mutex/mutex.cc:4-15 | a mutex is free, owned, on its way, or lost; and lost exactly if its receiver was killed before it ran |
| `SchedulerTheorems.PromiseKept` | user/mutex/mutex.cc:4-8 | a mutex handed to a thread stays so until that thread runs and owns it, or is killed |
| `MutexLoss.UnlockServes` | user/mutex/mutex.cc:10-15 | after an unlock the mutex is the longest waiting thread's: in every run that follows it is reserved for it until it owns it, unless it is killed |
| `MutexLoss.LossHappens` | thread/scheduler.cc:32-38 | a run from the start that loses a mutex: two threads lock it, the owner unlocks it, the other is killed before it runs |
| `MutexLoss.TwoThreadsLoseIt` | thread/scheduler.cc:32-38 | the same from any state in which two threads run and the mutex is free |
| `MutexLoss.LostForGood` | user/mutex/mutex.cc:4-15 | what lost means: for the rest of every run the counter is 0, no list of held mutexes has the mutex, and nobody past its queue is about to own it |
| `MutexLoss.WaitsForEver` | user/mutex/mutex.cc:4-8 | a thread waiting for a lost mutex waits to the end of every run, or is killed |
| `MutexLoss.LockNeverReturns` | user/mutex/mutex.cc:4-8 | so does every thread that calls lock afterwards |
| `BellringerList.Bellringer.Job` | meeting/bellringer.cc:23-41 | the new bell takes its place by deadline; the stored differences follow |
| `BellringerList.Bellringer.Cancel` | meeting/bellringer.cc:43-49 | the bell is removed and its difference passed on |
| `BellringerList.Bellringer.Check` | meeting/bellringer.cc:8-21 | one tick: exactly the due bells ring, in list order |
| `BellringerList.Bellringer.StoredInRange` | meeting/bellringer.cc:8-49 | the first difference is positive and none overflows 32 bits |
| `BellringerList.JobRefines` | meeting/bellringer.cc:23-41 | job adds one deadline and changes no other |
| `BellringerList.CancelRefines` | meeting/bellringer.cc:43-49 | cancel removes one deadline and changes no other |
| `BellringerList.CheckRings` | meeting/bellringer.cc:13-20 | a check rings exactly the bells with one tick left |
| `BellringerList.CheckRefines` | meeting/bellringer.cc:8-21 | a check brings every other bell one tick nearer |
| `BellringerList.RingInOrder` | meeting/bellringer.cc:13-20 | bells keep their order until they ring, and ring in it |
| `BellringerList.SilentBefore` | meeting/bellringer.cc:8-21 | a bell not cancelled has, after any operations, its ticks less the checks made |
| `BellringerList.RingsOnTime` | meeting/bell.cc:17-25 | a bell set to ms ticks rings on exactly the ms-th check, whatever happens to other bells |
| `BellringerList.TiesRingInOrder` | meeting/bellringer.cc:25-33 | bells due in the same check ring in the order in which they were set, over any run that cancels neither |
| `Calendar.Time.IncrementSeconds` | user/time/time.cc:20-43 | adds exactly, modulo 10000 years, or changes nothing if the sum does not fit into 32 bits; fields in range, weekday right; InstantInNumbers, MonthsClosed and YearsClosed say which instant the fields are |
| `Calendar.InstantInNumbers` | user/time/time.cc:20-43 | an instant is 86400 seconds for each day, 3600 for each hour, 60 for each minute, and below 315569520000 |
| `Calendar.Time.CarryMinutes` | user/time/time.cc:27-40 | the loop ends and is exact although its counter wraps below 0 |
| `Calendar.Time.NextDay` | user/time/time.cc:31-39 | the carry over days, months, years and centuries is the next day of the calendar that MonthsClosed and YearsClosed describe |
| `Calendar.Time.DecrementSeconds` | user/time/time.cc:45-76 | subtracts exactly, if the amount is positive; in range exactly if the result is not before year 0 |
| `Calendar.Time.PrevDay` | user/time/time.cc:56-72 | the borrow over days, months, years and centuries is the day before |
| `Calendar.Time.ApplyTimezone` | user/time/time.cc:11-17 | moves the clock by whole hours; zone 0 runs into the assertion |
| `Calendar.LeapCentury` | user/time/time.cc:127-134 | the test on year and century is the usual leap year rule |
| `Calendar.YearsClosed` | user/time/time.cc:127-134 | counting years one by one agrees with the closed form of the leap year rule |
| `Calendar.MonthsClosed` | user/time/time.h:18-20 | the days before the first of each month in closed form, with the 31, 30, 31, 30, 31 pattern from March on |
| `Calendar.DaysInjective` | user/time/time.cc:28-36 | different dates have different day numbers |
| `Calendar.DayAfter` | user/time/time.cc:31-39 | the successor of a date has the next day number, and the last day of 9999 is followed by day 0 |
| `Calendar.DayBefore` | user/time/time.cc:56-72 | the predecessor of a date has the previous day number |
| `Calendar.WeekdayAfter` | user/time/time.cc:31-31 | the weekday advances with the day number, also across the end of the cycle |
| `Calendar.WeekdayClosed` | user/time/time.cc:31-31 | the weekday is the day number modulo 7, Sunday being 1 |
| `Calendar.YearsRepeat` | user/time/time.cc:38-39 | 10000 years are a whole number of weeks, so the wrap keeps the weekday right |
| `Calendar.Epoch` | user/time/time.h:28-35 | the day numbers and weekdays are those in common use |
| `Calendar.ForthAndBack` | user/time/time.cc:20-76 | decrementing undoes incrementing exactly unless the calendar started over |
| `Calendar.BackAndForth` | user/time/time.cc:20-76 | incrementing undoes decrementing, even from before year 0 |
| `Arithmetic.Div64` | utils/math.h:13-34 | exact quotient and remainder for every 64-bit numerator and non-zero denominator |
| `Arithmetic.Align` | utils/math.h:14-19 | the denominator is shifted up to its highest bit, together with the quotient bit |
| `Arithmetic.Pow` | utils/math.h:48-61 | the power modulo 2^32 |
| `Arithmetic.PowerLaws` | utils/math.h:48-61 | that power is 1 for exponent 0, the base for 1, and the product for a sum of exponents |
| `Arithmetic.Watch.Windup` | device/watch.cc:14-32 | succeeds exactly if us * ticks / 1000 is below 2^39, and then with the smallest power of two up to 128 that fits the count into 32 bits |
| `Arithmetic.Scale` | device/watch.cc:16-22 | the loop over the shift stops at the first that fits, or after 128 |
| `NumberText.Output.WriteUnsigned` | object/o_stream.cc:52-78 | writes the prefix and the one numeral of the number without leading zeros |
| `NumberText.Output.WriteSigned` | object/o_stream.cc:44-50 | writes a sign in base 10 only, and then the magnitude; in other bases n + 2^32 if n is negative |
| `NumberText.Output.LeadingWeight` | object/o_stream.cc:67-68 | the largest power of the base not above the number |
| `NumberText.Compare` | user/string/string.cc:268-279 | does the second string stand at that position of the first? |
| `NumberText.Header` | user/string/string.cc:382-410 | blanks, sign, and base by prefix |
| `NumberText.Strtol` | user/string/string.cc:376-452 | for every string and base: the largest number and an error exactly if the number is one that is reported, else the number modulo 2^32 with its sign, and an error exactly if it is malformed |
| `NumberText.ReadDigits` | user/string/string.cc:412-440 | the loop gives up exactly if the number does not rise, and else returns the number modulo 2^32 |
| `NumberText.FoldIsResidue` | user/string/string.cc:424-439 | the recursion behind it: no digit makes the result smaller exactly if the number rises |
| `NumberText.RisesByPrefix` | user/string/string.cc:437-439 | a number rises exactly if no prefix of its digits leaves a larger remainder modulo 2^32 than the next |
| `NumberText.ReadFitting` | user/string/string.cc:424-444 | below 2^32 exactly the numbers from 2^31 on are reported, so all others are read as they are |
| `NumberText.FirstExcess` | user/string/string.cc:437-444 | a number that outgrows 32 bits with its last digit is reported exactly if its remainder is below the number before that digit, or from 2^31 on |
| `NumberText.OnlyBinaryIsSafe` | user/string/string.cc:424-444 | every overflow is reported in base 2 and in no other base from 3 to 36 |
| `NumberText.WrapUnnoticed` | user/string/string.cc:376-452 | the text 14316557660 is read as 1431655772, without an error |
| `NumberText.DigitTable` | user/string/string.cc:420-435 | the digits are ten figures and the letters, small or capital, each with its place as its value, and no other character; what is written uses the small ones |
| `NumberText.ValueConcat` | user/string/string.cc:414-440 | a numeral counts positionally, the first digit most |
| `NumberText.SomeTexts` | user/string/string.cc:382-410 | blanks, a sign and each prefix: four texts and the numbers they are read as |
| `NumberText.RoundTrip` | user/string/string.cc:376-452 | reading what was written gives the number back exactly if it is not the least in base 10 and not negative in another base |
| `NumberText.WriteAndRead` | object/o_stream.cc:44-78 | the same for the methods |
| `GdbCodec.EncHex` | debug/gdb/protocol.cc:143-154 | writes the hexadecimal text, or refuses a buffer that is too small |
| `GdbCodec.DecHex` | debug/gdb/protocol.cc:164-191 | decodes exactly the texts of the right length that are hexadecimal |
| `GdbCodec.HexRoundTrip` | debug/gdb/protocol.cc:143-191 | decoding undoes encoding |
| `GdbCodec.HexDigits` | debug/gdb/protocol.cc:35-43 | a byte is the two digits of the table 0 to 9, a to f, high one first |
| `GdbCodec.HexCapitals` | debug/gdb/protocol.cc:45-58 | capital letters are read as digits with the same values |
| `GdbCodec.HexConcat` | debug/gdb/protocol.cc:143-155 | the bytes follow each other |
| `GdbCodec.EncBin` | debug/gdb/protocol.cc:201-221 | writes the escaped bytes, or refuses a buffer that is too small |
| `GdbCodec.DecBin` | debug/gdb/protocol.cc:231-254 | decodes exactly the escaped texts that fit and do not end in an escape |
| `GdbCodec.EscapeRoundTrip` | debug/gdb/protocol.cc:201-254 | decoding undoes escaping |
| `GdbCodec.EscapeClean` | debug/gdb/protocol.cc:201-221 | escaped bytes hold no dollar, hash or star |
| `GdbCodec.EscapedText` | debug/gdb/protocol.cc:201-221 | escaping in numbers: what becomes of dollar, hash, brace and star, and that all other bytes stay |
| `GdbCodec.FlipBits` | debug/gdb/protocol.cc:210-210 | the exclusive or changes the bit of value 32 and no other |
| `GdbCodec.Stub.ChecksumOf` | debug/gdb/protocol.cc:273-278 | the sum of the bytes modulo 256, as ChecksumAdds describes it |
| `GdbCodec.ChecksumAdds` | debug/gdb/protocol.cc:273-278 | the checksum of no bytes is 0, of one byte that byte, and of two pieces the sum of theirs modulo 256 |
| `GdbCodec.Stub.SendPacket` | debug/gdb/protocol.cc:280-311 | sends the whole packet, or up to the first 0xFF, and returns what the answer means; PacketOfOk and ChecksumAdds say what is on the line |
| `GdbCodec.Stub.WriteString` | debug/gdb/protocol.cc:432-437 | sends up to and including the first 0xFF |
| `GdbCodec.Stub.RecvPacket` | debug/gdb/protocol.cc:313-364 | accepts, refuses or waits, with the answer sent and the input left, for every input |
| `GdbCodec.PacketRoundTrip` | debug/gdb/protocol.cc:280-364 | a sent packet is accepted with its payload exactly if that fits and has neither hash nor 0xFF |
| `GdbCodec.PacketOfOk` | debug/gdb/protocol.cc:280-364 | OK is sent as the six bytes of $OK#9a, and those are accepted as OK |
| `GdbCodec.HexTransfer` | debug/gdb/protocol.cc:143-364 | any bytes survive hexadecimal and a packet |
| `GdbCodec.BinaryTransfer` | debug/gdb/protocol.cc:201-364 | escaped bytes survive a packet exactly if 0xFF is not among them |
| `GdbCodec.DamageRefused` | debug/gdb/protocol.cc:348-358 | a packet with one payload byte damaged is refused with - |

## Left out

- Device and port access, boot code, descriptor tables, register save and restore, ACPI tables: their behaviour is in hardware or firmware.
- Shell, status line, clock and demo applications, screen windows: user interface.
- calloc, the rest of the string class, BCD helpers, `Random`, key tables: easy members next to those modelled.
- Guard: liveness, and fairness beyond ticket order and the order of queued epilogues; memory orders weaker than sequential consistency; the methods are modelled as steps of a transition system, because their interleaving is the point.
- Scheduler: the interrupts sent to other CPUs (an assassin interrupt may arrive at any time), status counters and debug output; the stack memory of a destroyed thread.
- SchedulerCode.Scheduler.Sleep: does not model the registration with the timer list, nor a bell left in it when a sleeping thread is killed.
- Bell lists and scheduler are not combined into one state; a rung bell is returned by `Check` and woken by `Ring`.
- HeapAllocator.Heap.Free: a pointer that passes the check and names no used block is not freed in the model, as what the code then does depends on whatever bytes lie there; `Free` says when a freed pointer is one.
- HeapAllocator.Heap.Realloc: nothing is claimed after the copy through a null block when memory is exhausted, nor for the pointers that `Free` leaves out.
- GdbCodec.DecHex: nothing is claimed about the destination after a failure; the assertion on invalid characters is the result -1.
- The command loop of the GDB stub, its own number parser, and memory access on behalf of the debugger.
