# Verified models of the queue, the semaphore, the buffer builder and the section trackers

The repository's own `src/` is thin wiring; the logic it depends on is in the libraries it ships. This
project models four of them in Dafny and proves what their users rely on.

* **The lock-free queue** (`concurrentqueue.h`). `FreeList` and `DequeueCounters` are step machines: every
  atomic instruction is one step of one of any number of threads, under sequential consistency, and the
  theorems hold in every state that any interleaving reaches. So is `BlockReuse`: consumers that look up
  and empty blocks while the producer of an explicit sub-queue uses them again and replaces its index.
  `ExplicitQueue`, `ImplicitQueue` (with `Blocks`, `Stretches` and `BlockIndex`) and `ThreadHash` (with
  `HashTables`) are classes that update blocks, index entries and tables in place; they take one call at
  a time and are proved to behave as a sequence of elements, or as a map from thread ids to producers.
  `Runs` says once what it means for an invariant to hold in every reachable state.
* **The semaphore and the blocking queue** (`lightweightsemaphore.h`, `blockingconcurrentqueue.h`):
  `Semaphore` and `BlockingQueue`, step machines again, with timeouts, spinning, bulk waits and spurious
  failures.
* **The FlatBuffers builder and reader** (`builder.go`, `table.go`, `encode.go`, `lib.go`). `FlatBuilder` is
  a class over the byte slice that is filled from the back; `Layout` says what its bytes mean by their
  distance from the end, `Table` is the reader, and the theorems close the round trip.
* **Catch2's section trackers** (`catch_amalgamated.cpp`). `Sections` is the static tree of a test body and
  how far a run has come in it; `Trackers` is the mutable state and the loop that runs the body again
  until every leaf section has been entered.

How to read it: a failed allocation, or the panic of a buffer that cannot grow, is `ok == false`. What
`requisition_block` returns, whether an index, table or producer can be allocated, and the hash of a
thread id are parameters, so each theorem holds for every answer. Masks by a power of two minus one are
written as the remainders they compute. `dafny verify dfyconfig.toml` checks the whole project.

What the code does that its comments or names do not say:

* The comments on `Prepend*Slot` (builder.go:450-541) say that a default value sets the slot to zero; the
  code leaves the slot as it was, so a value written before stays.
* `vtableEqual` alone would take an absent slot for a present one whose entry equals the object's offset
  (lemma `MixedCase`); what rules that out is that an entry is smaller than its own vtable's offset, an
  invariant of the whole buffer.
* Vtable entries are cut to 16 bits without a check: a field 64 KiB or more behind the start of its
  object reads back wrong (`FarFieldLost`). `ReadsRightIffNear` and `WriteVtable` give the exact condition.
* Finishing with a size prefix can run out of the room made for it, and a file identifier can end up
  behind padding where no reader looks, both only in a buffer whose largest alignment so far is below 4
  (`OneByteWritten`). `Finish` and `FinishWithFileIdentifier` give the exact conditions.
* `waitMany(max)` of the semaphore asserts a positive result (lightweightsemaphore.h:402-407), but returns 0 when
  `max` is 0, or when its kernel wait fails and no permit is on its way (`BacksOut`).
* A section whose last section throws is run once more, only to find that nothing is left, so with failures
  there can be more cycles than leaves (`CostExact`).

The transitions themselves are `FreeList.Exec` (concurrentqueue.h:1459-1538), `DequeueCounters.Exec`
(1957-2047, 2250-2335), `BlockReuse.Step` (1849-1952, 2003-2041), `Semaphore.Exec` (lightweightsemaphore.h:278-418) and `BlockingQueue.Step`
(blockingconcurrentqueue.h:123-130, 181-183, 294-303, 327-335, 359-367, 447-455); the reader is
`Table.VtableOffset`, `Table.GetSlot`, `Table.Indirect`, `Table.ByteVector`, `Table.VectorLen`,
`Table.Vector` and the functions after them. They compute and promise nothing by themselves; the table
names what is proved about them.

## Model

| member | source | states |
|---|---|---|
| FreeList.EachNodeInOnePlace | lib/concurrentqueue-1_0_4/concurrentqueue.h:1459-1538 | In every state that any interleaving reaches, each node is in exactly one place: linked once in an acyclic list, owned by one caller, in the hands of exactly one thread, or flagged while some thread still holds a reference it must give back |
| FreeList.NoAba | lib/concurrentqueue-1_0_4/concurrentqueue.h:1478-1498 | When the head CAS of `try_get` succeeds, the `next` it read earlier is still the node's `next` and the list's second node, the flag is clear, and the count is the list's reference plus the holders' |
| FreeList.HandedOutOnce | lib/concurrentqueue-1_0_4/concurrentqueue.h:1490-1498 | A node returned by `try_get` is not linked, not owned by any caller and in no other thread's hands; afterwards the caller owns it |
| FreeList.LastHolderReinserts | lib/concurrentqueue-1_0_4/concurrentqueue.h:1503-1506 | A flagged node is not lost: the holder that drops the last reference takes over its re-insertion, and no other does |
| FreeList.Quiescent | lib/concurrentqueue-1_0_4/concurrentqueue.h:1459-1538 | When no call is running every node is linked or owned by a caller, with count 1 or 0 and a clear flag |
| FreeList.NeverOverflows | lib/concurrentqueue-1_0_4/concurrentqueue.h:1459-1545 | In every reachable state the reference count is at most one more than the number of threads, below the flag bit; every addition to and subtraction from a word is exact, wraps around nowhere and carries nothing from the count into the flag |
| FreeList.UndisturbedGet | lib/concurrentqueue-1_0_4/concurrentqueue.h:1473-1510 | Whatever the other threads were interrupted in, a `try_get` that runs undisturbed returns the head of a non-empty list, and nothing from an empty one |
| FreeList.UndisturbedAdd | lib/concurrentqueue-1_0_4/concurrentqueue.h:1459-1471 | An `add` of a node that nobody else refers to, run undisturbed, puts it at the head of the list |
| FreeList.NothingOnlyIfEmpty | lib/concurrentqueue-1_0_4/concurrentqueue.h:1473-1510 | In every run: a `try_get` that returns nothing did so after a moment, during its own call, at which the list was empty; losing a race is no reason |
| FreeList.ResumedGet | lib/concurrentqueue-1_0_4/concurrentqueue.h:1478-1510 | From whatever instruction it was interrupted at, a `try_get` that runs on alone with the list not empty returns a node, which is then the caller's, unless it had already seen the list empty |
| FreeList.ResumedAdd | lib/concurrentqueue-1_0_4/concurrentqueue.h:1459-1538 | From whatever instruction it was interrupted at, an `add` that runs on alone returns, with the node on the list, or flagged and left to the threads still holding a reference |
| FreeList.ReachableInv | lib/concurrentqueue-1_0_4/concurrentqueue.h:1459-1538 | Every atomic instruction of every thread keeps the invariant, hence so does every run of any number of threads and nodes |
| FreeList.LinkInv | lib/concurrentqueue-1_0_4/concurrentqueue.h:1526-1530 | The successful CAS of an insertion links the node without breaking the chain or any other thread's knowledge |
| FreeList.InsFetchInv | lib/concurrentqueue-1_0_4/concurrentqueue.h:1530-1536 | A failed insertion either hands the node to the last reference holder or keeps it to itself, never both |
| FreeList.AcquireInv | lib/concurrentqueue-1_0_4/concurrentqueue.h:1481-1489 | Once a `try_get` has counted itself in, nobody rewrites that node's `next` |
| FreeList.UnlinkInv | lib/concurrentqueue-1_0_4/concurrentqueue.h:1490-1497 | Taking the head off the list makes the taker the only thread responsible for it |
| FreeList.Sub1Inv | lib/concurrentqueue-1_0_4/concurrentqueue.h:1503-1506 | Dropping a reference after a lost race re-inserts a flagged node exactly when it was the last one |
| DequeueCounters.HeadNeverPassesTail | lib/concurrentqueue-1_0_4/concurrentqueue.h:1957-2003 | In every interleaving the head index, even with the claims still to be made, never passes the tail: no unwritten slot is read |
| DequeueCounters.GoodTicketsBounded | lib/concurrentqueue-1_0_4/concurrentqueue.h:1979-1992 | If every successful ticket is smaller than the tail plus the smaller tickets that failed, there are no more successes than elements |
| DequeueCounters.ClaimedOnce | lib/concurrentqueue-1_0_4/concurrentqueue.h:1992-2003 | Every index below the head was claimed by exactly one dequeue, and every claimed index is below the tail: no element is delivered twice |
| DequeueCounters.TicketsConserved | lib/concurrentqueue-1_0_4/concurrentqueue.h:1979-2047 | In every reachable state the optimistic count is head + overcommit + the tickets of operations in flight |
| DequeueCounters.UndisturbedDequeue | lib/concurrentqueue-1_0_4/concurrentqueue.h:2248-2335 | A dequeue of up to max that runs undisturbed delivers exactly the smaller of max and the elements no interrupted operation holds a ticket for |
| DequeueCounters.QuiescentShare | lib/concurrentqueue-1_0_4/concurrentqueue.h:2250-2269 | When no other operation is running that share is min(max, tail - head): a dequeue fails only if the sub-queue is empty |
| DequeueCounters.GivenUpOnlyBeyondTail | lib/concurrentqueue-1_0_4/concurrentqueue.h:2259-2269 | In every run, a ticket is given up only when it lies at or beyond the tail plus the tickets known to have been given up before: a consumer that can have part of what it asked for takes that part |
| DequeueCounters.ResumedDequeue | lib/concurrentqueue-1_0_4/concurrentqueue.h:2248-2335 | From whatever instruction it was interrupted at, a dequeue that runs on alone delivers exactly the number due at that point - after taking tickets, min(d, max(0, tail - (my - overcommit))) - moves the head by it and keeps no ticket |
| DequeueCounters.ReachableInv | lib/concurrentqueue-1_0_4/concurrentqueue.h:1955-2050 | Every atomic instruction of every consumer and of the producer keeps the ticket invariant, hence so does every run |
| DequeueCounters.DecideInv | lib/concurrentqueue-1_0_4/concurrentqueue.h:2259-2265 | The reload of the tail decides a thread's tickets so that every successful one stays justified; that no other ones are given up than those beyond the tail is `GivenUpOnlyBeyondTail` |
| DequeueCounters.CircularLessExact | lib/concurrentqueue-1_0_4/concurrentqueue.h:477-483 | `circular_less_than` on wrapped 64-bit counters orders them rightly exactly up to half the index range, and is wrong in one direction at exactly half |
| DequeueCounters.WrappedGuard | lib/concurrentqueue-1_0_4/concurrentqueue.h:2252-2261 | The tests on wrapped counters agree with those on unbounded ones while the counters are less than half the index range apart |
| Semaphore.PermitsConserved | lib/concurrentqueue-1_0_4/lightweightsemaphore.h:278-418 | In every interleaving, with timeouts and bulk waits: permits acquired + kernel permits + pending posts + max(0, m_count) = initial + signalled |
| Semaphore.WaitersServed | lib/concurrentqueue-1_0_4/lightweightsemaphore.h:289-311 | Waiters = kernel permits + pending posts + max(0, -m_count); so with a non-negative count a waiting thread has a permit or a pending post to find |
| Semaphore.ReturnsWhatItAcquired | lib/concurrentqueue-1_0_4/lightweightsemaphore.h:314-348 | A wait returns exactly the permits it has taken, and never more than it was asked for; when it may return none is `ZeroOnlyIfExcused` |
| Semaphore.FalseReturnUndoes | lib/concurrentqueue-1_0_4/lightweightsemaphore.h:304-311 | A thread returns empty-handed after waiting only by a step that raises the count by exactly the one it had taken, and changes nothing else |
| Semaphore.UndisturbedTry | lib/concurrentqueue-1_0_4/lightweightsemaphore.h:379-390 | Run undisturbed, `tryWaitMany` takes min(max, permits) permits |
| Semaphore.WaitCourse | lib/concurrentqueue-1_0_4/lightweightsemaphore.h:278-418 | No step of any thread makes a wait of at least one give up before it has decremented the count and failed in, or polled instead of, the kernel wait: trying, spinning and a lost CAS lead on, with the same maximum and timeout |
| Semaphore.ZeroOnlyIfExcused | lib/concurrentqueue-1_0_4/lightweightsemaphore.h:278-377 | In every run: a wait returns nothing only if its own kernel wait failed (with a timeout: timed out), or it was a poll that found none; and it never returns more than it was asked for |
| Semaphore.ResumedTry | lib/concurrentqueue-1_0_4/lightweightsemaphore.h:379-390 | A try, or the greedy rest of a bulk wait, resumed anywhere and run alone adds min(max, permits) to what it has |
| Semaphore.ResumedWait | lib/concurrentqueue-1_0_4/lightweightsemaphore.h:314-332 | A wait resumed anywhere before it sleeps, with permits in the count, returns with min(max, permits) |
| Semaphore.EmptyWaitSleeps | lib/concurrentqueue-1_0_4/lightweightsemaphore.h:319-336 | With none in the count it spins out, lowers the count by one and sleeps in the kernel |
| Semaphore.Woken | lib/concurrentqueue-1_0_4/lightweightsemaphore.h:336-348 | Woken by a permit it returns 1 + min(max - 1, permits in the count) |
| Semaphore.BacksOut | lib/concurrentqueue-1_0_4/lightweightsemaphore.h:304-311 | With no permit to come, a wait that gives up restores the count and returns nothing |
| Semaphore.ResumedSignal | lib/concurrentqueue-1_0_4/lightweightsemaphore.h:409-418 | A signal adds its permits to the count and posts min(waiters it saw, permits) to the kernel |
| Semaphore.ReachableInv | lib/concurrentqueue-1_0_4/lightweightsemaphore.h:278-418 | Every atomic instruction keeps the two conservation laws, hence so does every run of any number of threads |
| Semaphore.RecoveryInv | lib/concurrentqueue-1_0_4/lightweightsemaphore.h:304-311 | The recovery loop takes a kernel permit or gives the decrement back, and loses neither |
| BlockingQueue.ElementsMatchPermits | lib/concurrentqueue-1_0_4/blockingconcurrentqueue.h:123-130 | In every reachable state every element of the inner queue is backed by a permit - in the semaphore, or with a consumer that has not dequeued yet - or not signalled yet |
| BlockingQueue.RetryFinds | lib/concurrentqueue-1_0_4/blockingconcurrentqueue.h:294-303 | A consumer that passed the semaphore, single or bulk, always has an element left to find; the loop can only repeat on spurious failures |
| BlockingQueue.SleepOnlyWhenEmpty | lib/concurrentqueue-1_0_4/blockingconcurrentqueue.h:359-367 | If a consumer waits and no permit is on its way to it, the inner queue holds nothing but elements promised to others or not signalled |
| BlockingQueue.WaitDelivers | lib/concurrentqueue-1_0_4/blockingconcurrentqueue.h:359-367 | In every run: when a waiting dequeue leaves the semaphore it is owed at least one element and at most `max`, unless its kernel wait failed (`wait_dequeue` then waits again) or it only polled; `RetryFinds` says the elements are there |
| BlockingQueue.TryNeverSleeps | lib/concurrentqueue-1_0_4/blockingconcurrentqueue.h:327-335 | In every run: a `try_dequeue` is never in the decrement, the sleep or the recovery of the semaphore |
| BlockingQueue.ReachableInv | lib/concurrentqueue-1_0_4/blockingconcurrentqueue.h:447-455 | Enqueue-then-signal and wait-then-dequeue, single and bulk, keep the balance of elements and permits in every run |
| Blocks.Block.IsEmpty | lib/concurrentqueue-1_0_4/concurrentqueue.h:1569-1593 | With flags or with the counter, a block reports empty exactly when all its elements have been dequeued for good, in whatever order |
| Blocks.Block.SetEmpty | lib/concurrentqueue-1_0_4/concurrentqueue.h:1597-1611 | Recording an element adds it to those dequeued for good, of which it was not one; with the counter, exactly the last one reports the block empty |
| Blocks.Block.SetManyEmpty | lib/concurrentqueue-1_0_4/concurrentqueue.h:1616-1634 | The same for a stretch of elements: exactly those are added |
| Blocks.Block.ResetEmpty | lib/concurrentqueue-1_0_4/concurrentqueue.h:1651-1664 | After a reset no element of the block counts as dequeued |
| Stretches.ConstructAt | lib/concurrentqueue-1_0_4/concurrentqueue.h:1948-1950 | Constructing at the tail adds that element to the contents, whichever block's stretch holds the index, and disturbs no other slot |
| Stretches.DestroyAt | lib/concurrentqueue-1_0_4/concurrentqueue.h:2020-2041 | Destroying at the head yields the oldest element and leaves exactly the others; it reports the block's last element |
| Stretches.Find | lib/concurrentqueue-1_0_4/concurrentqueue.h:2014-2017 | The block of an index is found by dividing its distance from the newest block's base |
| ExplicitQueue.WindowRotates | lib/concurrentqueue-1_0_4/concurrentqueue.h:1935-1939 | Overwriting the entry at the front drops the oldest block of a full window and keeps every other block findable |
| ExplicitQueue.WindowGrows | lib/concurrentqueue-1_0_4/concurrentqueue.h:1935-1939 | Writing an entry with room left keeps every block findable and adds the new one |
| ExplicitQueue.PlacesGrow | lib/concurrentqueue-1_0_4/concurrentqueue.h:1874-1880 | The size test lets another block in exactly if the ring then does not reach beyond the (block-rounded) size limit |
| ExplicitQueue.ExplicitProducer.NewBlockIndex | lib/concurrentqueue-1_0_4/concurrentqueue.h:2356-2393 | The doubled index leads to the same blocks; a failed allocation changes nothing |
| ExplicitQueue.ExplicitProducer.CopyEntries | lib/concurrentqueue-1_0_4/concurrentqueue.h:2371-2378 | The do-while copy yields the used entries oldest first, also when the index is full and the loop starts where it ends |
| ExplicitQueue.ExplicitProducer.Reuse | lib/concurrentqueue-1_0_4/concurrentqueue.h:1857-1867 | The block ahead is used again only when all its elements are gone, and the ring turns by one |
| ExplicitQueue.ExplicitProducer.Insert | lib/concurrentqueue-1_0_4/concurrentqueue.h:1896-1913 | A new block joins the circular list behind the last one, and nothing else moves |
| ExplicitQueue.ExplicitProducer.NextBlock | lib/concurrentqueue-1_0_4/concurrentqueue.h:1853-1939 | A block can be started exactly if the one ahead is empty, or the elements and one more block are fewer than 2^63 and within the limit, and a block and, where needed, an index can be had; which block it is; nothing observable changes otherwise |
| ExplicitQueue.ExplicitProducer.AheadIsEmpty | lib/concurrentqueue-1_0_4/concurrentqueue.h:1857 | The test of the block ahead is the test whether the oldest block's stretch is behind the head |
| ExplicitQueue.ExplicitProducer.Enqueue | lib/concurrentqueue-1_0_4/concurrentqueue.h:1849-1952 | Enqueue appends exactly the element; it fails only at a block boundary with the block ahead in use, when the elements and one more block would reach 2^63 or exceed the limit, or no block or index can be had, and then nothing has changed |
| ExplicitQueue.ExplicitProducer.FindBlock | lib/concurrentqueue-1_0_4/concurrentqueue.h:2008-2017 | The signed block count back from the front entry leads to the block whose stretch holds the index |
| ExplicitQueue.ExplicitProducer.Dequeue | lib/concurrentqueue-1_0_4/concurrentqueue.h:1955-2050 | Dequeue returns the oldest element and leaves the rest in order; it fails only if there is none |
| ExplicitQueue.ExplicitProducer.SizeLimit | lib/concurrentqueue-1_0_4/concurrentqueue.h:787 | The sub-queue never holds more elements than the limit |
| ExplicitQueue.ExplicitProducer.constructor | lib/concurrentqueue-1_0_4/concurrentqueue.h:1771-1786 | A producer starts empty and usable, whether or not its first index could be allocated, with the initial index size or half of it |
| BlockReuse.FindsItsBlock | lib/concurrentqueue-1_0_4/concurrentqueue.h:2006-2017 | In every interleaving of the producer with any number of consumers, whatever index a consumer has loaded and however far the producer has got since, the entry it ends up reading is that of the block of the index it claimed, and that block is still in use |
| BlockReuse.MovesItsElement | lib/concurrentqueue-1_0_4/concurrentqueue.h:2019-2041 | A consumer moves out exactly the element enqueued at the index it claimed, and set_empty records a position not recorded before |
| BlockReuse.ClaimedByOne | lib/concurrentqueue-1_0_4/concurrentqueue.h:2003 | No two consumers are ever at work with one index |
| BlockReuse.NotInUse | lib/concurrentqueue-1_0_4/concurrentqueue.h:1857-1939 | While the producer resets a block or writes its index entry, no consumer is at work in that block, and none is about to read that entry |
| BlockReuse.ReusedWhenDone | lib/concurrentqueue-1_0_4/concurrentqueue.h:1857-1860 | A block is used again only when every one of its indices has been claimed and its element moved out and recorded |
| BlockReuse.UsesItAgain | lib/concurrentqueue-1_0_4/concurrentqueue.h:1853-1867 | If the block ahead is done with when an enqueue reaches a boundary, then in every interleaving that enqueue never asks for another block, and ends with its element joined |
| BlockReuse.ResumedEnqueue | lib/concurrentqueue-1_0_4/concurrentqueue.h:1849-1952 | From whatever step it was interrupted at, an enqueue that runs on alone ends with exactly its element joined - if no other block is needed, whatever can be had, and otherwise if it gets the block and, where the old one is full, the index it asks for |
| BlockReuse.ResumedConsumer | lib/concurrentqueue-1_0_4/concurrentqueue.h:2003-2041 | From whatever step it was interrupted at, a consumer that runs on alone is done within six steps: the slot of its index is empty, its position recorded, and nobody else's claim touched |
| BlockReuse.NeverOverwrites | lib/concurrentqueue-1_0_4/concurrentqueue.h:1948-1950 | An element is constructed only where none is |
| BlockReuse.ReachableInv | lib/concurrentqueue-1_0_4/concurrentqueue.h:1849-1952 | Every step of enqueue (the flag loop of is_empty, reset_empty flag by flag, the index entry, its publication, the construction, the tail) and of every consumer (claim, four reads, move, set_empty) keeps the invariant |
| BlockReuse.GrowInv | lib/concurrentqueue-1_0_4/concurrentqueue.h:2356-2393 | A larger index, twice the size, leads to the same blocks, while consumers go on with the older ones they have loaded |
| BlockReuse.BackToBlock | lib/concurrentqueue-1_0_4/concurrentqueue.h:2014-2017 | From the slot of any newer block the signed distance of the bases leads to the slot of the block looked for |
| BlockIndex.RoomIffFree | lib/concurrentqueue-1_0_4/concurrentqueue.h:2907-2910 | The next entry is free (invalid key or no block) exactly when fewer blocks are in use than there are entries |
| BlockIndex.Claim | lib/concurrentqueue-1_0_4/concurrentqueue.h:2907-2914 | Claiming an entry leaves every block in use findable, one step further back |
| BlockIndex.Fill | lib/concurrentqueue-1_0_4/concurrentqueue.h:2533-2535 | A claimed entry that is given its block makes that block findable as the newest |
| BlockIndex.Cancel | lib/concurrentqueue-1_0_4/concurrentqueue.h:2509-2513 | Rewinding the tail and clearing the claimed entry restores the index |
| BlockIndex.Release | lib/concurrentqueue-1_0_4/concurrentqueue.h:2599-2606 | Clearing the oldest block's entry frees exactly that entry |
| BlockIndex.FindEntry | lib/concurrentqueue-1_0_4/concurrentqueue.h:2941-2964 | The entry found from the tail's key by signed division is that of the block holding the index |
| BlockIndex.CopyEntries | lib/concurrentqueue-1_0_4/concurrentqueue.h:2982-2991 | The old entries are copied oldest first, starting behind the tail |
| BlockIndex.Grow | lib/concurrentqueue-1_0_4/concurrentqueue.h:2966-3008 | After growth, or first allocation, every block in use is found at the same distance from the tail, and all new entries are free |
| BlockIndex.Undo | lib/concurrentqueue-1_0_4/concurrentqueue.h:2669-2674 | One rollback round finds the right entry although the tail has already been put back, and puts it back once more |
| BlockIndex.UndoEnds | lib/concurrentqueue-1_0_4/concurrentqueue.h:2668-2676 | When all rounds are done the index leads to exactly the blocks it led to before the call |
| ImplicitQueue.ImplicitProducer.constructor | lib/concurrentqueue-1_0_4/concurrentqueue.h:2423-2429 | A producer starts empty and usable, whether or not its first index could be allocated |
| ImplicitQueue.ImplicitProducer.NewBlockIndex | lib/concurrentqueue-1_0_4/concurrentqueue.h:2966-3008 | Index growth keeps the blocks in use, doubles the room, and on failure changes nothing |
| ImplicitQueue.ImplicitProducer.InsertEntry | lib/concurrentqueue-1_0_4/concurrentqueue.h:2901-2933 | An entry is claimed exactly when the index exists and has room or can grow |
| ImplicitQueue.ImplicitProducer.AddBlock | lib/concurrentqueue-1_0_4/concurrentqueue.h:2491-2535 | A block comes into use exactly when from the head to its end there are fewer than 2^63 places and no more than the limit, and the index and the pool allow it; otherwise blocks, entries and tail position are as before |
| ImplicitQueue.ImplicitProducer.Enqueue | lib/concurrentqueue-1_0_4/concurrentqueue.h:2487-2548 | Enqueue appends exactly the element, taking a block into use exactly at a block boundary; there it succeeds exactly if the elements and one more block are fewer than 2^63 and within the limit, and a block and room in the index can be had; on failure nothing has changed |
| ImplicitQueue.ImplicitProducer.Dequeue | lib/concurrentqueue-1_0_4/concurrentqueue.h:2551-2616 | Dequeue returns the oldest element; the block whose last element it was, and no other, goes back to the pool, holding nothing |
| ImplicitQueue.ImplicitProducer.RollBack | lib/concurrentqueue-1_0_4/concurrentqueue.h:2668-2676 | Undoing the allocations of a bulk call leaves the blocks, their entries and the tail position from before it |
| ImplicitQueue.ImplicitProducer.Allocate | lib/concurrentqueue-1_0_4/concurrentqueue.h:2637-2700 | A bulk call gets a block for every block boundary in its range, or none: it succeeds exactly if the last boundary is not refused, there are blocks enough, and the index - doubled as often as allocations allow - has entries enough; otherwise blocks, index tail and tail block are put back |
| ImplicitQueue.ImplicitProducer.FillBlocks | lib/concurrentqueue-1_0_4/concurrentqueue.h:2703-2772 | The elements are constructed in order across the blocks, following their links, and stop exactly at the new tail |
| ImplicitQueue.ImplicitProducer.EnqueueBulk | lib/concurrentqueue-1_0_4/concurrentqueue.h:2626-2774 | All or nothing: on success exactly the given elements are appended, with one new block per block boundary in the range; it succeeds exactly if no block is needed, or the places from the head to the end of the last block are fewer than 2^63 and within the limit, and blocks and index entries for all of them can be had; otherwise contents, blocks in use, their places, the last block and the spare blocks are as before, and so are the index and its tail unless a larger index was allocated on the way |
| ImplicitQueue.ImplicitProducer.PossibleExact | lib/concurrentqueue-1_0_4/concurrentqueue.h:2637-2700 | The condition under which `Allocate` succeeds, in terms of the places from the head to the end of the last block, the limit, the blocks and the index entries |
| ImplicitQueue.ImplicitProducer.SizeLimit | lib/concurrentqueue-1_0_4/concurrentqueue.h:2495 | The sub-queue never holds more elements than the limit |
| HashTables.UsedBound | lib/concurrentqueue-1_0_4/concurrentqueue.h:3412 | A table with fewer non-empty slots than slots has an empty one, and only then |
| HashTables.Find | lib/concurrentqueue-1_0_4/concurrentqueue.h:3409-3449 | The lookup loop stops, and finds an id exactly when it is in the table |
| HashTables.FreeSlot | lib/concurrentqueue-1_0_4/concurrentqueue.h:3507-3524 | The insertion loop stops at the first slot on the way that no id occupies |
| HashTables.Inserted | lib/concurrentqueue-1_0_4/concurrentqueue.h:3507-3524 | An id put there is findable, and so are all the others; a tombstone reused is no new used slot |
| HashTables.Buried | lib/concurrentqueue-1_0_4/concurrentqueue.h:3550-3560 | Replacing an id by a tombstone keeps the others findable and the used slots as many |
| ThreadHash.LiveBound | lib/concurrentqueue-1_0_4/concurrentqueue.h:3452-3465 | The count is never below the number of live ids |
| ThreadHash.MovedIn | lib/concurrentqueue-1_0_4/concurrentqueue.h:3423-3440 | Moving an id into the newest table keeps non-empty slots plus ids not yet moved within the count |
| ThreadHash.AddedNew | lib/concurrentqueue-1_0_4/concurrentqueue.h:3507-3524 | Adding an id keeps that bound, the count being taken back where a tombstone was reused |
| ThreadHash.ThreadMap.constructor | lib/concurrentqueue-1_0_4/concurrentqueue.h:3332-3348 | The empty hash, of the capacity given, agrees with the empty map |
| ThreadHash.ThreadMap.RecycleOrCreate | lib/concurrentqueue-1_0_4/concurrentqueue.h:3227-3243 | The latest inactive producer is handed out, and a new one made only if there is none; either belongs to no live id. There is none exactly if all are active and none can be created |
| ThreadHash.ThreadMap.LookUp | lib/concurrentqueue-1_0_4/concurrentqueue.h:3404-3449 | Searching the chain finds an id exactly if it is live, and with its producer |
| ThreadHash.ThreadMap.MakeRoom | lib/concurrentqueue-1_0_4/concurrentqueue.h:3452-3489 | Afterwards the newest table is less than half full by the count, or the allocation has failed and nothing changed; a new table is twice the size, or no larger than the count calls for, and moving to it keeps the bound |
| ThreadHash.ThreadMap.GetOrAdd | lib/concurrentqueue-1_0_4/concurrentqueue.h:3388-3533 | The hash agrees with a map: a live id gets the producer it has, a new one a producer no live id has, the latest inactive one if there is any; afterwards the id is in the newest table, and the count has grown by exactly the slots newly used for new ids. It fails exactly if the id is new and a larger table, or another producer, is needed and cannot be had |
| ThreadHash.ThreadMap.ThreadExited | lib/concurrentqueue-1_0_4/concurrentqueue.h:3536-3564 | Exactly that id leaves the map, from every table; its producer can be recycled and every other id keeps its own |
| Bytes.GetPut | lib/flatbuffers-25_2_10/go/encode.go:32-67 | Reading what was written gives the value modulo its width's range |
| Bytes.PutGet | lib/flatbuffers-25_2_10/go/encode.go:32-67 | Writing what was read gives the bytes |
| Bytes.PutLittleEndian | lib/flatbuffers-25_2_10/go/encode.go:147-180 | Byte i of what is written is the digit of weight 256^i: the least significant byte first |
| Bytes.GetLittleEndian | lib/flatbuffers-25_2_10/go/encode.go:32-67 | The digit of weight 256^i of what is read is byte i |
| Bytes.SignedLittleEndian | lib/flatbuffers-25_2_10/go/encode.go:193-200 | A signed 32-bit offset is written in two's complement, least significant byte first |
| Bytes.SignedIsCongruent | lib/flatbuffers-25_2_10/go/encode.go:84-91 | A signed 32-bit offset is read as the number of its range that agrees with the bytes modulo 2^32 |
| Bytes.SignedRoundTrip | lib/flatbuffers-25_2_10/go/encode.go:84-91 | A signed 32-bit offset reads back as written, negative ones included |
| Alignment.GapAligns | lib/flatbuffers-25_2_10/go/builder.go:257-266 | The padding makes the offset after the additional bytes a multiple of the size |
| Alignment.GapLeast | lib/flatbuffers-25_2_10/go/builder.go:257-266 | No smaller padding does |
| FlatBuilder.GrowthLimits | lib/flatbuffers-25_2_10/go/builder.go:214-232 | Growth by doubling always succeeds up to one gibibyte and never from two on |
| FlatBuilder.Builder.Grow | lib/flatbuffers-25_2_10/go/builder.go:214-232 | The buffer doubles, and what was written denotes the same from the end; it panics exactly on the two high size bits |
| FlatBuilder.Builder.Place | lib/flatbuffers-25_2_10/go/builder.go:769-828 | Placing puts exactly the bytes in front of what was written |
| FlatBuilder.Builder.Prep | lib/flatbuffers-25_2_10/go/builder.go:257-274 | Prep terminates; it adds just the padding and makes room for all that follows exactly if the buffer can be grown that far, and otherwise has changed no byte written |
| FlatBuilder.Builder.Prepend | lib/flatbuffers-25_2_10/go/builder.go:679-766 | A prepended scalar lies in front, at an offset that is a multiple of its width; everything earlier denotes the same; where the offset is aligned and there is room, nothing is padded and nothing grows |
| FlatBuilder.Builder.StartObject | lib/flatbuffers-25_2_10/go/builder.go:80-95 | The new object has no slot set |
| FlatBuilder.Builder.Slot | lib/flatbuffers-25_2_10/go/builder.go:584-586 | The slot's value is the one just written |
| FlatBuilder.Builder.PrependSlot | lib/flatbuffers-25_2_10/go/builder.go:453-541 | A value unequal to the default becomes the slot's value, and its bytes, the least significant first, lie in front; an equal one changes nothing |
| FlatBuilder.Builder.PrependUOffsetT | lib/flatbuffers-25_2_10/go/builder.go:287-294 | The stored distance leads back to the target |
| FlatBuilder.Builder.PrependRefSlot | lib/flatbuffers-25_2_10/go/builder.go:563-568 | A reference slot records its target; the default records nothing |
| FlatBuilder.VtableEqual | lib/flatbuffers-25_2_10/go/builder.go:656-675 | The comparison accepts a written vtable exactly if every entry matches its slot |
| FlatBuilder.SharingExact | lib/flatbuffers-25_2_10/go/builder.go:121-151 | Given that entries are below their vtable's offset, and fields before their object, the comparison accepts exactly the vtables that give every slot the right offset or absence |
| FlatBuilder.MixedCase | lib/flatbuffers-25_2_10/go/builder.go:656-675 | Without that bound the comparison would accept an entry for an absent slot |
| FlatBuilder.Builder.FindVtable | lib/flatbuffers-25_2_10/go/builder.go:135-151 | An earlier vtable is found exactly if one fits, and it does fit |
| FlatBuilder.Builder.TrimVtable | lib/flatbuffers-25_2_10/go/builder.go:124-128 | Just the trailing unset slots go |
| FlatBuilder.Builder.WriteLayout | lib/flatbuffers-25_2_10/go/builder.go:153-177 | The bytes of a new vtable are its size, the object's size and the entries in slot order |
| FlatBuilder.Builder.WriteVtable | lib/flatbuffers-25_2_10/go/builder.go:116-202 | A vtable is shared exactly if an earlier one fits. The reader is led to every field, and to none where none was written, exactly if the fields lie less than 64 KiB behind the object's offset, which follows from the offset before the call. A new vtable, the distance to it and the object are written to the byte as `NewObject` says |
| FlatBuilder.Builder.EndObject | lib/flatbuffers-25_2_10/go/builder.go:205-210 | The object lies at the offset before the call, padded to 4, plus 4; it is recorded with the last values of its slots exactly if its fields are near, and all earlier objects, vtables and strings stay what they were; with a vtable of its own, all bytes are those of `NewObject` |
| FlatBuilder.OneTrueBool | lib/flatbuffers-25_2_10/tests/go_test.go:897-911 | An object with one slot that was given a one-byte 1 has exactly the bytes that the library's own byte-layout test lists |
| FlatBuilder.EntryLimit | lib/flatbuffers-25_2_10/go/builder.go:159-168 | A stored 16-bit entry leads back to its field exactly if the distance is below 64 KiB |
| FlatBuilder.FitsIffNear | lib/flatbuffers-25_2_10/go/builder.go:116-202 | A sealed object's vtable, shared or new, is right exactly if every field is near its start |
| FlatBuilder.ReadsRightIffNear | lib/flatbuffers-25_2_10/go/builder.go:116-202 | Reading any slot of a sealed object through its vtable, shared or new, gives its field's distance, or 0 where it has none, exactly if every field is near |
| FlatBuilder.FarFieldLost | lib/flatbuffers-25_2_10/go/builder.go:159-168 | A buffer in which an object is sealed 64 KiB in front of a slot that was given 7: the reader gets the default |
| FlatBuilder.VtableSizeLimit | lib/flatbuffers-25_2_10/go/builder.go:184-185 | The size of a vtable fits its 16 bits exactly up to 32765 slots |
| FlatBuilder.KnownExtends | lib/flatbuffers-25_2_10/go/builder.go:214-274 | Every vtable, object and shared string keeps its meaning whatever is built in front of it |
| FlatBuilder.Builder.StartVector | lib/flatbuffers-25_2_10/go/builder.go:301-307 | The elements and the count come out aligned, and there is room for all of them, for any power-of-two alignment |
| FlatBuilder.Builder.EndVector | lib/flatbuffers-25_2_10/go/builder.go:310-318 | The count lies in front of the elements |
| FlatBuilder.Builder.BuildVector | lib/flatbuffers-25_2_10/go/builder.go:301-318 | StartVector, one Prepend per number from the last to the first, and EndVector leave a vector of exactly these numbers, its count at a multiple of 4 and its elements at the alignment asked for |
| FlatBuilder.Builder.CreateVectorOfTables | lib/flatbuffers-25_2_10/go/builder.go:321-328 | Element i of the vector leads to the i-th table given |
| FlatBuilder.Builder.CreateString | lib/flatbuffers-25_2_10/go/builder.go:354-383 | The offset returned denotes the count, the bytes and a terminating zero |
| FlatBuilder.Builder.CreateByteVector | lib/flatbuffers-25_2_10/go/builder.go:386-397 | The offset returned denotes the count and the bytes |
| FlatBuilder.Builder.CreateSharedString | lib/flatbuffers-25_2_10/go/builder.go:341-351 | A string asked for again gets the same offset, nothing is written, and the offset still denotes it |
| FlatBuilder.Builder.Finish | lib/flatbuffers-25_2_10/go/builder.go:608-653 | The finished length is a multiple of the largest alignment used, and of 4; root offset and size prefix read back exactly. It runs out of room exactly in a buffer aligned to no more than a byte that is one byte short for the size prefix |
| FlatBuilder.Builder.FinishWithFileIdentifier | lib/flatbuffers-25_2_10/go/builder.go:590-628 | The same; the identifier reads back exactly if no padding comes between it and the root offset (always, in a buffer aligned to 4), or if it is all zeros; an identifier of another length is refused |
| FlatBuilder.RoomLeft | lib/flatbuffers-25_2_10/go/builder.go:631-653 | The room left for the size prefix, once the root offset is in place, is too little in just that case |
| FlatBuilder.IdentifierRead | lib/flatbuffers-25_2_10/go/builder.go:590-606 | Behind padding an identifier is read right only if it is all zeros |
| FlatBuilder.OneByteWritten | lib/flatbuffers-25_2_10/go/builder.go:590-653 | With 11 bytes and one byte written both happen: the prefix does not fit, and the identifier is not where the reader looks |
| FlatBuilder.Builder.FinishedBytes | lib/flatbuffers-25_2_10/go/builder.go:74-77 | The finished bytes are what was written |
| FlatBuilder.Builder.ScalarReadsBack | lib/flatbuffers-25_2_10/go/table.go:157-263 | Slot i of any finished object, however its vtable came to be, reads as the last value written to it; in a finished buffer it starts at a multiple of its width |
| FlatBuilder.Builder.DefaultReadsBack | lib/flatbuffers-25_2_10/go/table.go:157-263 | A slot that was never given a value, or lies beyond the object's slots, reads as the default |
| FlatBuilder.Builder.ReferenceReadsBack | lib/flatbuffers-25_2_10/go/table.go:23-25 | A reference slot leads to the offset it was given |
| Layout.SlotOffset | lib/flatbuffers-25_2_10/go/table.go:14-20 | The reader's vtable lookup gives the entry of the slot, and 0 beyond the vtable's end |
| Layout.ByteVectorReadsBack | lib/flatbuffers-25_2_10/go/table.go:28-40 | A string or byte vector reached through a reference reads back as its bytes, without the terminating zero |
| Layout.RefsReadBack | lib/flatbuffers-25_2_10/go/table.go:43-56 | Length, start and elements of a vector of tables read back through the field that refers to it |
| Layout.VectorReadsBack | lib/flatbuffers-25_2_10/go/table.go:43-56 | Length and start of any vector read back through the field that refers to it |
| Layout.NumbersReadBack | lib/flatbuffers-25_2_10/go/table.go:52-56 | Each element of a vector of numbers reads back, cut to its width |
| Layout.ElementAligned | lib/flatbuffers-25_2_10/go/builder.go:301-318 | In a finished buffer each element of a vector starts at a multiple of its width |
| Layout.VectorExtends | lib/flatbuffers-25_2_10/go/builder.go:301-397 | A vector's offset keeps denoting the same count and data through all later operations |
| Layout.RefsExtend | lib/flatbuffers-25_2_10/go/builder.go:321-328 | The offset of a vector of tables keeps denoting references to the same tables through all later operations |
| Layout.RootReadsBack | lib/flatbuffers-25_2_10/go/lib.go:10-13 | `GetRootAs` finds the root table |
| Layout.PrefixedRootReadsBack | lib/flatbuffers-25_2_10/go/lib.go:17-25 | `GetSizePrefixedRootAs` finds the root table and `GetSizePrefix` the size without the prefix |
| Layout.IdentifierReadsBack | lib/flatbuffers-25_2_10/go/lib.go:33-35 | `GetBufferIdentifier` reads the identifier back |
| Layout.PrefixedIdentifierReadsBack | lib/flatbuffers-25_2_10/go/lib.go:38-40 | `GetSizePrefixedBufferIdentifier` reads the identifier back |
| Trackers.TrackerContext.constructor | lib/catch2-3_8_1/catch_amalgamated.cpp:6899-6908 | A run starts with the root tracker alone, not started |
| Trackers.TrackerContext.Open | lib/catch2-3_8_1/catch_amalgamated.cpp:6931-6936 | The opened tracker is executing and current, and its ancestors are marked as executing children |
| Trackers.TrackerContext.OpenChild | lib/catch2-3_8_1/catch_amalgamated.cpp:6890-6897 | Exactly the trackers from the one given up to, but not including, the first one already marked become marked, and nothing else changes |
| Trackers.TrackerContext.Acquire | lib/catch2-3_8_1/catch_amalgamated.cpp:7010-7039 | A section is always heard of, but opened only while the cycle is not done and it is not complete |
| Trackers.TrackerContext.Close | lib/catch2-3_8_1/catch_amalgamated.cpp:6938-6966 | The trackers still open inside are closed first, from the inside out; each one closed becomes complete exactly if it was executing, or all its children heard of are complete by then; no other changes |
| Trackers.TrackerContext.Fail | lib/catch2-3_8_1/catch_amalgamated.cpp:6967-6973 | The failed tracker is complete and its parent is marked as needing another run |
| Trackers.TrackerContext.Enter | lib/catch2-3_8_1/catch_amalgamated.cpp:5896-5919 | In one run at most one section of a body is entered, the first that still has cycles left |
| Trackers.TrackerContext.RunSection | lib/catch2-3_8_1/catch_amalgamated.cpp:5965-5996 | Ending a section, early or not, advances it by exactly one cycle |
| Trackers.TrackerContext.Body | lib/catch2-3_8_1/catch_amalgamated.cpp:5896-5919 | One cycle of a body enters exactly the leaf whose turn it is |
| Trackers.TrackerContext.RunCycle | lib/catch2-3_8_1/catch_amalgamated.cpp:6106-6145 | One round of the loop advances the test case by one cycle, and it asks for more exactly if cycles are left |
| Trackers.TrackerContext.RunTest | lib/catch2-3_8_1/catch_amalgamated.cpp:5810-5829 | The loop terminates after exactly the cycles the tree costs, having entered every leaf section once, in order, throwing leaves included |
| Trackers.CloseAfter | lib/catch2-3_8_1/catch_amalgamated.cpp:6938-6966 | When the body has run, the tracker of its section is complete exactly if all its cycles are done |
| Sections.VisitedAll | lib/catch2-3_8_1/catch_amalgamated.cpp:5810-5829 | After all cycles the leaves entered are the leaves of the tree in order |
| Sections.LeavesDistinct | lib/catch2-3_8_1/catch_amalgamated.cpp:6866-6879 | With distinct sibling sections no leaf is entered twice |
| Sections.CostExact | lib/catch2-3_8_1/catch_amalgamated.cpp:5810-5829 | The cycles are as many as the leaves and the sections whose last section throws |
| Sections.QuietCost | lib/catch2-3_8_1/catch_amalgamated.cpp:5810-5829 | Without failures the cycles are as many as the leaves |

## Left out

- FreeList.UndisturbedGet: is not lock-freedom; that some thread always makes progress is not stated, only what a call does that runs undisturbed.
- DequeueCounters.ClaimedOnce: the counters are unbounded; `WrappedGuard` and `CircularLessExact` say when the wrapped ones agree.
- DequeueCounters.UndisturbedDequeue: single dequeue is the bulk one with max 1, whose instructions are the same.
- Semaphore.PermitsConserved: `m_count` is unbounded, and the cast of the release count to `int` is not modelled.
- BlockingQueue.ElementsMatchPermits: the inner queue is a bag whose dequeue may fail spuriously; its order is the subject of the sub-queue models.
- ExplicitQueue.ExplicitProducer.Enqueue: calls are taken one at a time; consumers at work while the producer goes on are the subject of `BlockReuse`.
- ExplicitQueue.ExplicitProducer.Dequeue: calls are taken one at a time, as above; the counters of concurrent calls are the subject of `DequeueCounters`.
- BlockReuse.ReachableInv: that an index claimed is below the tail is taken from `DequeueCounters`; what only the producer sees (the circle of blocks, its slot count, the copying of an index) is a single step, whose loops are in `ExplicitQueue`; indices are unbounded.
- ImplicitQueue.ImplicitProducer.Dequeue: calls are taken one at a time; the release of a block while other consumers read the index is not modelled concurrently; the pool is the parameter `spare` and the result `released`, with `FreeList` as its concurrent model.
- ThreadHash.ThreadMap.GetOrAdd: calls are taken one at a time, so the wait for another thread's resize does not occur; the test against three quarters of the capacity is then always met.
- FlatBuilder.Builder.EndObject: requires that the last slot set is among the first 32765; beyond that the vtable's own size wraps at 16 bits (`VtableSizeLimit`), and what later searches then make of it is not modelled.
- FlatBuilder.Builder.Finish: the asserts on nesting, and that the root is an offset already written, are preconditions.
- FlatBuilder.Builder.CreateString: strings are bytes; `CreateByteString` has the same body.
- Trackers.TrackerContext.RunTest: the tree of sections is the same in every run, siblings are distinct, and only leaf sections throw; the trackers are kept in a map from their paths to their states, so the pointers between them and the order of `m_children` (which only `all_of` and a search by name look at) are not modelled.
- The buffers inside heap objects (a block's elements and flags, a table's slots, the builder's slice) are sequence fields that the methods reassign.
- Bulk enqueue and dequeue of the explicit producer and bulk dequeue of the implicit one over blocks; their counters are in DequeueCounters.
- Throwing constructors and assignments of elements, move, swap and destructors of the queue, consumer tokens, memory statistics.
- Memory orders and fences, kernel semaphores, clocks, `malloc`: sequential consistency, a counter, a choice, a parameter.
- The list of producers beyond finding an inactive one, and the notification of thread exit up to the call it makes.
- FlatBuffers floats (words of the same width), structs in place, sorted vectors, `Mutate*`, `Union`, `Reset`, and the reader's string views.
- Catch2's generators, section filters, aborting, reporters and everything else outside the trackers.
- `src/`, `benchmarks/` and the other libraries.
