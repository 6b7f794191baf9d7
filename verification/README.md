# Verified model of muQuinet

muQuinet is a TCP/IP stack in user space. This project models, in Dafny, the two parts of it that carry hard
properties, and proves those properties.

**The lock-free queue under every receive path.** The concurrent parts are state machines: a shared state and, for
each of any number of threads, a program counter with its locals; every atomic access is one step, and steps of
different threads interleave in any order. Atomics are sequentially consistent. Each module has a total function
`Step`, a function `Run` over a schedule, and theorems about every run: what is never broken, what a call returns when
nobody disturbs it, what its answer means when others do, and which calls cannot be held up.

- `FreeList`: the CAS stack with reference counts and the should-be-on-list bit.
- `Tickets`: optimistic and overcommit counters of single and bulk dequeue, with stale loads.
- `Circular`: comparison of positions that wrap, and the slot formula of the block index.
- `BlockIndex`, `BlockMemory`, `Supplies`, `ImplicitProducer`: blocks, the circular index that doubles, the pool,
  enqueue, bulk enqueue with its undo, and dequeue, as a class with arrays and loops, one operation at a time.
  Claiming an index and moving its element out are separate operations that may be done in any order.
- `ThreadHash`: the chained hash tables from threads to producers.
- `Semaphore`, `BlockingQueue`: the lightweight semaphore, and the blocking queue built on it and on any number of
  producers' queues, each of them as in `Tickets`.
- `Counting`: sums over threads.

**The protocol code of the stack.**

- `Checksum`, `Transmit`: the Internet checksum and the way of a segment through the TCP and IP transmit code, on
  the bytes of one buffer.
- `Reassembly`, `Defrager`: IP reassembly, as a function of what arrived and on linked buffers in place.
- `TcpClient`: the client's control block in place, and what runs of it guarantee.
- `MuxProtocol`, `MuxCalls`: blocking calls, wake-ups and WAIT_NEXT between the client, the event loop and the IP
  thread, as a state machine and as the methods of each thread.

`dafny verify dfyconfig.toml` checks everything.

## Assumptions and findings

The model follows the code. Where the code and its intent part:

- Reassembly compares a new fragment's offset without swapping its bytes (Defrager.cpp:137). `Reassembles` shows
  that a datagram is put together if and only if this was harmless for each of its arrivals, a condition on the
  offsets alone; `InOrderCanCrash` and `LateMiddleIsLost` are inputs for which it is not. A datagram that was
  harmed is not returned later either: `HarmedIsLost`.
- The windows of later fragments begin after ihl bytes instead of ihl words (Defrager.cpp:194-196), so the bytes
  handed on are the datagram exactly if it was one piece: `DeliveredExactly`.
- The comment at concurrentqueue.h:2866-2867 says that the division of the slot formula preserves a sign. It does
  not, because the divisor is unsigned; the formula is right all the same up to a capacity of 2^59, and for none
  above: `SlotFormulaExact`.
- The assertion overcommit <= myDequeueCount (concurrentqueue.h:1913, 2177, 2480, 2703) compares 64-bit counters and
  can fail, with positions close all the time, once a ticket has been given back and 2^64 have been taken:
  `Tickets.AssertionFails`; exactly when it holds: `Tickets.AssertionHoldsExactly`. The order of the true counts,
  which it is meant to check, always holds: `Tickets.OvercommitAtMostMyCount`.
- After an undone bulk enqueue the key in the tail's slot can be that of a later block. `BlockIndex.UndoneIsOk`
  shows that this happens only when no older block is in use, so that no look-up depends on it.
- A byte left in the notify pipe by a packet that was received without waiting makes the event loop block in the
  next callback: `StallHappens`, and exactly when: `StallsExactly`.
- A TCP receiver acknowledges data that a full socket queue drops: `AckedIsDelivered` says exactly when nothing is
  lost. Send order holds below 2^32 - 2 bytes and breaks there: `AckedWithinSent`, `OrderBreaksAtWrap`.
- The result of a checksum with an odd last byte is right because words are loaded little-endian; the model fixes
  that byte order. By `SwapCommutes` the sum itself does not depend on it.

Assumed of the surroundings: fewer than 2^31 - 2 threads use one free list; the two sides of a ticket test are less
than 2^63 positions apart (`Tickets.CloseRun`, `BlockingQueue.CloseRun`); a producer's queue that would get 2^63
elements long refuses new ones, as its room test sees to (`ImplicitProducer.RoomTest`); an index of more than 2^59
entries cannot be allocated, because it does not fit the address space; a bulk enqueue has at most 2^64 - 32 items;
the pieces of one datagram have distinct offsets and lengths that are not negative, and no other datagram's fragment
crashes the program meanwhile; a client has one call at a time and connects once.

## Model

| member | source | states |
|---|---|---|
| `FreeList.EveryNodeInOnePlace` | third-party/concurrentqueue/concurrentqueue.h:1372-1451 | In every reachable state of any interleaving of add and try_get, where nodes pass between threads and any thread may add them, the list is acyclic, and each node is held by one thread, being pushed by one, on the list once, or waiting with the flag set for a thread that has it pinned |
| `FreeList.TakenNodeHasNoFlag` | third-party/concurrentqueue/concurrentqueue.h:1403-1409 | The assertion after a successful pop: the flag is clear whatever the count, and the count covers both the thread and the list |
| `FreeList.PopRemovesExactlyTheHead` | third-party/concurrentqueue/concurrentqueue.h:1391-1418 | ABA safety: when the CAS on the head succeeds, the next pointer read earlier is still the head's successor, and the list loses exactly its head |
| `FreeList.NeverTwoOwners` | third-party/concurrentqueue/concurrentqueue.h:1386-1423 | A node held by one thread is claimed by no other, so try_get never gives one node to two callers |
| `FreeList.QuietMeansNoLeak` | third-party/concurrentqueue/concurrentqueue.h:1429-1451 | When no call is in progress a node that nobody owns is on the list with count one |
| `FreeList.TryGetTakesTheHead` | third-party/concurrentqueue/concurrentqueue.h:1386-1423 | In every reachable state with nobody else inside, try_get takes exactly the first node of the list, in six accesses, and changes nothing exactly when the list is empty |
| `FreeList.AddPutsAtTheFront` | third-party/concurrentqueue/concurrentqueue.h:1372-1384 | With nobody else inside, add puts the node at the front of the list, in five accesses |
| `FreeList.NullMeansEmpty` | third-party/concurrentqueue/concurrentqueue.h:1391-1422 | Whoever else is inside, a try_get that ends has gained exactly the node of its successful CAS, or it returns null and has in this call loaded the head and found it null |
| `FreeList.NobodyIsHeldUp` | third-party/concurrentqueue/concurrentqueue.h:1372-1451 | In every reachable state, wherever the others have stopped, a call that is left alone ends within 18 accesses |
| `FreeList.StepKeepsInv` | third-party/concurrentqueue/concurrentqueue.h:1372-1451 | Each atomic access of each thread keeps the invariant tying head, next pointers, counts and flags to the place of every node |
| `Circular.CircularLessIsOrder` | third-party/concurrentqueue/concurrentqueue.h:405-417 | For positions less than 2^64 apart the wrapped comparison is their order exactly when they are at most 2^63 apart |
| `Circular.SlotFormulaExact` | third-party/concurrentqueue/concurrentqueue.h:2862-2870 | The slot formula, an unsigned division and a mask, is right for every power-of-two capacity up to 2^59 and for no larger one |
| `Circular.SlotOfEarlierBlock` | third-party/concurrentqueue/concurrentqueue.h:1941-1944 | A block k behind the last one is looked up in slot (tail - k) mod capacity, across the wrap of positions |
| `Circular.SlotOfLaterBlock` | third-party/concurrentqueue/concurrentqueue.h:2862-2870 | A block k ahead of the tail's block is looked up in slot (tail + k) mod capacity |
| `Tickets.ClaimsNeverPassTail` | third-party/concurrentqueue/concurrentqueue.h:2471-2484 | A consumer past the second test can claim all the indices it was granted without passing the tail, whatever other consumers do meanwhile |
| `Tickets.ReadsAreSafe` | third-party/concurrentqueue/concurrentqueue.h:2693-2727 | Claimed ranges of different consumers, single and bulk, are disjoint and lie before the tail |
| `Tickets.OvercommitAtMostMyCount` | third-party/concurrentqueue/concurrentqueue.h:2474-2480 | Of the true counts: overcommit, loaded before, is at most the count of the tickets taken |
| `Tickets.AssertionHoldsExactly` | third-party/concurrentqueue/concurrentqueue.h:2474-2480 | The assertion on the 64-bit counters holds for the first 2^64 tickets, and beyond exactly if the difference of the counts does not carry into another round of 2^64 |
| `Tickets.AssertionFails` | third-party/concurrentqueue/concurrentqueue.h:2474-2480 | A run with close positions throughout in which it fails |
| `Tickets.TicketsConserved` | third-party/concurrentqueue/concurrentqueue.h:2471-2539 | optimistic = head + overcommit + tickets in flight, in every reachable state |
| `Tickets.AtRestDequeueIsExact` | third-party/concurrentqueue/concurrentqueue.h:1882-1977 | With nobody else inside, a dequeue gets as many elements as it asks for or as there are, and fails exactly when there is none |
| `Tickets.LooksUpToTail` | third-party/concurrentqueue/concurrentqueue.h:2693-2697 | The first test gives up exactly if the tail loaded is not past the place of the tickets, and else asks for what is wanted or lies between them |
| `Tickets.GrantsUpToTail` | third-party/concurrentqueue/concurrentqueue.h:2701-2712 | Whoever else is inside, the second test lets through exactly what lies before the tail and gives back the rest |
| `Tickets.DequeueIsWaitFree` | third-party/concurrentqueue/concurrentqueue.h:2471-2539 | Each own step of a dequeue brings it nearer to its end, whatever others have done |
| `BlockIndex.LookUpFinds` | third-party/concurrentqueue/concurrentqueue.h:2857-2873 | The assertions of the look-up: for any index of a live block the key is that block's base and the address is not null |
| `BlockIndex.LookUpWhileRewinding` | third-party/concurrentqueue/concurrentqueue.h:2585-2590 | During an undo a new block is still found although the tail has been rewound behind it and earlier entries are cleared |
| `BlockIndex.InsertedBlockIsOk` | third-party/concurrentqueue/concurrentqueue.h:2815-2842 | A new block takes a reusable slot, and all live blocks stay where the look-up finds them |
| `BlockIndex.TakenBackIsOk` | third-party/concurrentqueue/concurrentqueue.h:2844-2848 | Rewinding and clearing an insertion leaves the index as good as before |
| `BlockIndex.ClearedBlockIsOk` | third-party/concurrentqueue/concurrentqueue.h:2518-2529 | Blocks may be cleared in any order |
| `BlockIndex.DoubledIsOk` | third-party/concurrentqueue/concurrentqueue.h:2875-2917 | Copying into an index twice as large keeps every entry at its distance from the tail, and the slot after it is unused |
| `BlockIndex.UndoneIsOk` | third-party/concurrentqueue/concurrentqueue.h:2579-2594 | Undoing n insertions leaves an index that is right for the older blocks, even when keys were overwritten on the way |
| `BlockIndex.OldestSlotIsDead` | third-party/concurrentqueue/concurrentqueue.h:2822-2829 | A slot that is reused belonged to no live block |
| `BlockMemory.VacateIsOk` | third-party/concurrentqueue/concurrentqueue.h:2486-2524 | The element found at an index is the one placed there, and moving it out leaves its block and all others right |
| `BlockMemory.PlaceIsOk` | third-party/concurrentqueue/concurrentqueue.h:2463-2467 | The cell of a new element is vacant: no element is overwritten before it was moved out |
| `BlockMemory.ReturnIsOk` | third-party/concurrentqueue/concurrentqueue.h:2976-2982 | An emptied block goes back to the pool and is there once |
| `ImplicitProducer.Producer.constructor` | third-party/concurrentqueue/concurrentqueue.h:2343-2349 | An empty queue, with or without a block index |
| `ImplicitProducer.Producer.Enqueue` | third-party/concurrentqueue/concurrentqueue.h:2407-2468 | Appends one element, exactly when the tail block has room or a block, an index slot and positions are to be had; otherwise the queue is as before |
| `ImplicitProducer.Producer.EnqueueBulk` | third-party/concurrentqueue/concurrentqueue.h:2543-2688 | All or nothing: all items are appended, with the blocks whose bases lie in their range, exactly if each of these blocks can be started in turn; otherwise no element, block or entry is left behind |
| `ImplicitProducer.Producer.RoomForManyExactly` | third-party/concurrentqueue/concurrentqueue.h:2564-2578 | In terms of what there is at the outset: positions below 2^63, and allocations for the doublings of the index and the blocks that the pool lacks |
| `Supplies.CanStartManyExactly` | third-party/concurrentqueue/concurrentqueue.h:2564-2578 | Starting block after block, with the index doubled when its reusable slots run out, succeeds exactly if there is enough for all |
| `BlockIndex.InsertTakesSlot` | third-party/concurrentqueue/concurrentqueue.h:2821-2829 | A new block uses up one of the reusable slots after the tail, oldest first |
| `BlockIndex.DoublingMakesSlots` | third-party/concurrentqueue/concurrentqueue.h:2893-2908 | Doubling an index without a reusable slot gives as many as it had slots |
| `ImplicitProducer.Producer.AllocateBlocks` | third-party/concurrentqueue/concurrentqueue.h:2556-2618 | Allocates and chains exactly the blocks needed, or undoes everything, across the wrap of positions and of the index |
| `ImplicitProducer.Producer.Undo` | third-party/concurrentqueue/concurrentqueue.h:2579-2594 | Clears exactly the new entries, restores the tail and returns every new block to the pool |
| `ImplicitProducer.Producer.Fill` | third-party/concurrentqueue/concurrentqueue.h:2620-2687 | Constructs the items, if any, in order, block by block along the chain |
| `ImplicitProducer.Producer.StartBlock` | third-party/concurrentqueue/concurrentqueue.h:2411-2441 | A new block, exactly when there is room below 2^63 positions, a slot and a block; otherwise nothing but the size of the index changes |
| `ImplicitProducer.Producer.InsertIndexEntry` | third-party/concurrentqueue/concurrentqueue.h:2815-2842 | Takes the next slot if it is reusable, else doubles the index if that is allowed and possible |
| `ImplicitProducer.Producer.NewBlockIndex` | third-party/concurrentqueue/concurrentqueue.h:2875-2917 | The doubled index has the old entries in order and unused ones after the tail |
| `ImplicitProducer.Producer.RequisitionBlock` | third-party/concurrentqueue/concurrentqueue.h:2998-3016 | A block with no element in it from the initial pool, else the free list, else a new one; none exactly when all fail |
| `ImplicitProducer.Producer.FindBlock` | third-party/concurrentqueue/concurrentqueue.h:2850-2873 | Every claimed index whose element is still there is found in its block |
| `ImplicitProducer.Producer.Claim` | third-party/concurrentqueue/concurrentqueue.h:2471-2483 | Takes a ticket and claims the next index, exactly when there is an element; the counters stay settled |
| `ImplicitProducer.Producer.ClaimMany` | third-party/concurrentqueue/concurrentqueue.h:2693-2716 | Claims as many indices as there are elements, up to the number asked for |
| `ImplicitProducer.Producer.MoveOut` | third-party/concurrentqueue/concurrentqueue.h:2485-2531 | Returns the element enqueued at a claimed index, in any order of indices, and frees the block after its last element |
| `ImplicitProducer.Producer.MoveOutMany` | third-party/concurrentqueue/concurrentqueue.h:2717-2786 | Returns the elements of a claimed range, stepping through the index block by block |
| `ImplicitProducer.Producer.Dequeue` | third-party/concurrentqueue/concurrentqueue.h:2471-2539 | Removes and returns the head of the queue, or nothing exactly when it is empty |
| `ImplicitProducer.Producer.DequeueBulk` | third-party/concurrentqueue/concurrentqueue.h:2691-2792 | Removes and returns the first elements, as many as there are up to the number asked for |
| `ImplicitProducer.Drive` | third-party/concurrentqueue/concurrentqueue.h:2407-2792 | Any sequence of enqueues, bulk enqueues, claims, moves of claimed elements at any later time, and dequeues on a producer: each claim gets its element, and claimed and remaining elements together are the old ones and then those of the enqueues that succeeded |
| `ImplicitProducer.FirstInFirstOut` | third-party/concurrentqueue/concurrentqueue.h:2407-2792 | The view of the queue that Drive follows is first-in first-out over every run, and a call that failed adds nothing |
| `ImplicitProducer.BulkBases` | third-party/concurrentqueue/concurrentqueue.h:2561-2562 | The number of bytes to allocate is 32 per block boundary crossed, also when the start wraps |
| `ImplicitProducer.RoomTest` | third-party/concurrentqueue/concurrentqueue.h:2412-2415 | The room test is the order of true positions, and the assertion before it holds |
| `ThreadHash.FindsItsOwnProducer` | third-party/concurrentqueue/concurrentqueue.h:3293-3441 | In every interleaving a finished call returns the producer the thread registered, also after lazy copies and resizes; it returns null only to a thread without one, when an allocation of its own has failed in this call |
| `ThreadHash.CallGetsProducer` | third-party/concurrentqueue/concurrentqueue.h:3293-3441 | When nobody resizes, a call that is left alone and has memory returns a producer, the thread's own, which is then in the newest table; the number of its steps is bounded by tables and keys |
| `ThreadHash.FailureReturnsNull` | third-party/concurrentqueue/concurrentqueue.h:3371-3403 | When an allocation fails the call returns null within three steps, with the count put back, the lock released and no table changed |
| `ThreadHash.OnlyResizingHoldsUp` | third-party/concurrentqueue/concurrentqueue.h:3312-3441 | In every reachable state, wherever the others have stopped, a call that is left alone ends unless another thread is resizing |
| `ThreadHash.RegistersOnce` | third-party/concurrentqueue/concurrentqueue.h:3312-3357 | A thread that starts to register has no entry in any table |
| `ThreadHash.ProducersAreNotShared` | third-party/concurrentqueue/concurrentqueue.h:3136-3188 | No two threads have the same producer |
| `ThreadHash.ProducerIsKept` | third-party/concurrentqueue/concurrentqueue.h:3428 | A registered thread's producer never changes |
| `ThreadHash.TablesStayBelowThreeQuarters` | third-party/concurrentqueue/concurrentqueue.h:3357-3398 | Every table always stays under three quarters full |
| `ThreadHash.ProbeLoopsEnd` | third-party/concurrentqueue/concurrentqueue.h:3316-3353 | A probe has never passed more slots than the table has keys, so each probe loop ends |
| `ThreadHash.CapacitiesArePow2` | third-party/concurrentqueue/concurrentqueue.h:3366-3369 | Capacities stay powers of two, so the mask is the remainder |
| `ThreadHash.StepKeepsInv` | third-party/concurrentqueue/concurrentqueue.h:3293-3441 | Each atomic access keeps the invariant of tables, count, lock and threads |
| `Semaphore.PermitsConserved` | third-party/concurrentqueue/blockingconcurrentqueue.h:260-404 | initial + signalled = acquired + max(count, 0) + kernel tokens + posts pending, and waiters = max(-count, 0) + kernel tokens + posts pending, over all interleavings |
| `Semaphore.FreePermitMeansNoForgottenWaiter` | third-party/concurrentqueue/blockingconcurrentqueue.h:396-405 | While the count is not negative every waiter has a token or a post on its way |
| `Semaphore.TimedOutWaiterCanFinish` | third-party/concurrentqueue/blockingconcurrentqueue.h:284-296 | A thread that timed out can always take its decrement back or get a token |
| `Semaphore.QuietCountIsExact` | third-party/concurrentqueue/blockingconcurrentqueue.h:396-411 | With no call in progress the count is what was given minus what was taken and the kernel semaphore is empty |
| `Semaphore.WaitTakesWhatIsThere` | third-party/concurrentqueue/blockingconcurrentqueue.h:343-377 | A wait of any patience that finds permits takes the smaller of what it wants and what is there, in two accesses; tryWait without permits changes nothing |
| `Semaphore.WaitSleeps` | third-party/concurrentqueue/blockingconcurrentqueue.h:260-297 | A wait that finds none spins 10000 times, announces itself and sleeps; a token gives it a permit; a timeout takes everything back |
| `Semaphore.RestIsTaken` | third-party/concurrentqueue/blockingconcurrentqueue.h:338-340 | After its first permit a wait for many takes, without waiting, as many more as it wants or as there are |
| `Semaphore.SignalGives` | third-party/concurrentqueue/blockingconcurrentqueue.h:396-405 | signal adds its permits and posts one token for each waiter they are enough for |
| `Semaphore.EmptyHandedMeansNone` | third-party/concurrentqueue/blockingconcurrentqueue.h:284-297 | Whoever else is inside, a wait that still wants permits ends without one only at a moment when none is free, and never if it waits forever |
| `Semaphore.AloneEnds` | third-party/concurrentqueue/blockingconcurrentqueue.h:260-405 | A call that is left alone ends, or sleeps with no token there, or has timed out and its token is on its way; the number of its steps is bounded |
| `Semaphore.LateWaitIsShort` | third-party/concurrentqueue/blockingconcurrentqueue.h:290-296 | In that last case a signaller is about to post |
| `BlockingQueue.ElementsMatchPermits` | third-party/concurrentqueue/blockingconcurrentqueue.h:519-526 | In every reachable state, elements enqueued less elements claimed, over all producers' queues, are the permits + those between enqueue and signal + those between permit and claim |
| `BlockingQueue.HolderHasElements` | third-party/concurrentqueue/blockingconcurrentqueue.h:754-761 | A consumer that lacks elements for its permits has at least as many unclaimed ones in the producers' queues, at every step of its attempts and whoever else is inside |
| `BlockingQueue.QueueRuns` | third-party/concurrentqueue/concurrentqueue.h:1041-1072 | Each producer's queue of the whole runs as module Tickets says, so its theorems hold of it |
| `BlockingQueue.NobodyInsideMeansRest` | third-party/concurrentqueue/concurrentqueue.h:1663-1668 | When no consumer is in the inner queue, every producer's counters are settled and its head is at most its tail |
| `BlockingQueue.PermitMeansSuccess` | third-party/concurrentqueue/blockingconcurrentqueue.h:754-761 | In every reachable state with no other consumer in the inner queue, the first inner call of a consumer with permits, run step by step, gives it the head of the fullest queue scanned, or all the elements it has permits for in a bulk call |
| `BlockingQueue.QuietCountIsElements` | third-party/concurrentqueue/blockingconcurrentqueue.h:930-933 | With no call in progress the semaphore's count is the number of elements |
| `BlockingQueue.DequeueGetsWhatIsThere` | third-party/concurrentqueue/blockingconcurrentqueue.h:690-734 | In every reachable state with no call in progress a whole dequeue, run step by step, gets one element, or in bulk as many as it asks for or as there are; it gets none exactly when there is none, and one that does not wait then changes nothing |
| `BlockingQueue.EnqueueGives` | third-party/concurrentqueue/blockingconcurrentqueue.h:519-526 | In every reachable state an enqueue with memory and room adds its elements to the producer's queue and then as many permits; otherwise nothing changes |
| `BlockingQueue.NothingMeansAllAsked` | third-party/concurrentqueue/concurrentqueue.h:1041-1072 | Whoever else is inside, an inner call that comes back without an element has in this call seen every size as 0 or had every producer's dequeue return nothing; a bulk call has asked every producer |
| `BlockingQueue.InnerCallIsWaitFree` | third-party/concurrentqueue/concurrentqueue.h:1041-1072 | Each own step of an inner call brings it nearer to its end and no step of another thread sets it back: at most 11 for each producer and 11 more |
| `BlockingQueue.TryDequeue` | third-party/concurrentqueue/concurrentqueue.h:1041-1072 | Whatever sizes are read and whatever the producers return, it succeeds exactly when some size was positive and some producer's dequeue succeeds, and takes from the best scanned or else from the first that does |
| `BlockingQueue.ScannedIsBest` | third-party/concurrentqueue/concurrentqueue.h:1048-1057 | The scan ends with the first of the largest among the first three positive sizes |
| `Checksum.Compute` | src/muquinetd/base/InternetChecksum.cpp:26-52 | For every block and start value the result is the complement of the folded 32-bit sum, with all its wrapping |
| `Checksum.Fold` | src/muquinetd/base/InternetChecksum.cpp:47-49 | Folding ends, keeps the value modulo 65535, and gives 0 only for 0 |
| `Checksum.NoOverflowExactly` | src/muquinetd/base/InternetChecksum.cpp:34-45 | The accumulator cannot overflow for any block of up to 131074 bytes, and can for any larger one |
| `Checksum.StoredVerifies` | src/muquinetd/base/InternetChecksum.cpp:51 | Storing the result in a zero field makes the block, with any other parts, verify |
| `Checksum.OnlyStoredVerifies` | src/muquinetd/base/InternetChecksum.cpp:51 | No other value does, up to the two forms of zero |
| `Checksum.SwapCommutes` | src/muquinetd/base/InternetChecksum.cpp:36-41 | Swapping the bytes of every word swaps the bytes of the sum |
| `Checksum.OddByteIsPadded` | src/muquinetd/base/InternetChecksum.cpp:43-45 | A left-over byte counts as if a zero byte followed it |
| `Checksum.SumOfParts` | src/muquinetd/tcp/TcpPcb.cpp:272-289 | Summing parts separately, the first of even length, is summing the whole |
| `Transmit.SendSegment` | src/muquinetd/tcp/TcpPcb.cpp:109-147 | Read from the bytes as a receiver does: ports, big-endian sequence and acknowledgement numbers modulo 2^32, header length, flags, window 4096; version, length, identification, protocol 6, addresses. The IP header verifies for every payload and has the right length exactly up to 65495 bytes; up to there the TCP checksum verifies against the pseudo-header rebuilt from it |
| `Transmit.SegmentVerifies` | src/muquinetd/tcp/TcpPcb.cpp:245-298 | For payloads of up to 65495 bytes the zeroed overlay stands for the pseudo-header, payload first and headers second, and later header writes do not disturb the checksum |
| `Transmit.HeaderVerifies` | src/muquinetd/ip/Ip.cpp:198-202 | The IP header verifies for every payload length |
| `Transmit.TotalLengthExactly` | src/muquinetd/tcp/TcpPcb.cpp:296 | The total length field is right exactly for payloads of up to 65495 bytes |
| `Transmit.PrepareBeforeIpTx` | src/muquinetd/tcp/TcpPcb.cpp:245-312 | The headers the transport layer leaves, byte for byte |
| `Transmit.StoreTcpChecksum` | src/muquinetd/tcp/TcpPcb.cpp:272-289 | The stored checksum is that of payload, overlay and TCP header |
| `Transmit.Template` | src/muquinetd/tcp/TcpPcb.cpp:210-243 | The headers of the template, byte for byte |
| `Transmit.IpTx` | src/muquinetd/ip/Ip.cpp:187-202 | The completed IP header, byte for byte, with its checksum |
| `Transmit.IpIdGenerator.Next` | src/muquinetd/ip/IpHeader.cpp:67-75 | Identifications run from 1 to 65535 and round again |
| `Transmit.PseudoHeaderSum` | src/muquinetd/IpHeaderOverlay.h:25-41 | The overlay has the same sum as the pseudo-header a receiver builds |
| `Reassembly.Reassembles` | src/muquinetd/ip/frag/Defrager.cpp:95-213 | Whatever the order of arrival and whatever else arrives, the last piece brings the whole datagram in order and its context goes, if and only if the comparison without the byte swap did no harm to any arrival |
| `Reassembly.RunTracks` | src/muquinetd/ip/frag/Defrager.cpp:150-176 | While a piece is missing nothing is returned, and the context holds what has been inserted |
| `Reassembly.ChainIsDatagram` | src/muquinetd/ip/frag/Defrager.cpp:124-147 | The list becomes the datagram if and only if every arrival was harmless |
| `Reassembly.ReadyMeansAll` | src/muquinetd/ip/frag/Defrager.cpp:159-176 | A list of pieces that passes the test has all pieces in order |
| `Reassembly.InsertedIsSorted` | src/muquinetd/ip/frag/Defrager.cpp:132-147 | The list is sorted if and only if every arrival was harmless |
| `Reassembly.InOrderCanCrash` | src/muquinetd/ip/frag/Defrager.cpp:134-146 | Two pieces in order, the first of 256 bytes, dereference null |
| `Reassembly.HarmedIsLost` | src/muquinetd/ip/frag/Defrager.cpp:132-176 | When all pieces have come and an arrival was harmed, nothing is returned for the datagram then or later, whatever is sent again, until its timer drops it |
| `Reassembly.LateMiddleIsLost` | src/muquinetd/ip/frag/Defrager.cpp:137-140 | Three full pieces of which the middle one comes last: nothing is returned, then or later |
| `Reassembly.ForgottenAtExpiry` | src/muquinetd/ip/frag/Defrager.cpp:41-64 | When the timer goes off nothing of the datagram is left |
| `Reassembly.SentAgainReassembles` | src/muquinetd/ip/frag/Defrager.cpp:41-64 | Pieces sent again after that are put together exactly if their arrivals are harmless, whatever was lost before |
| `Reassembly.OnlyItsContext` | src/muquinetd/ip/frag/Defrager.cpp:205-213 | A fragment changes only its own datagram's context, and a complete datagram loses only its own |
| `Reassembly.NewTotLenExactly` | src/muquinetd/ip/frag/Defrager.cpp:177-189 | The new total length is right exactly if the packet is shorter than 65536 bytes |
| `Reassembly.DeliveredExactly` | src/muquinetd/ip/frag/Defrager.cpp:191-197 | The bytes handed on are the datagram exactly if it was one piece: the header length is used without the factor 4 |
| `Reassembly.SplitReassembles` | src/muquinetd/ip/frag/Defrager.cpp:95-213 | For any data, cut at any multiples of 8 with any headers: reassembly returns packets whose data, the headers cut off, are the original data, exactly if every arrival was harmless |
| `Reassembly.CutIsRight` | src/muquinetd/ip/frag/Defrager.cpp:156-176 | What data are cut into has contiguous ascending offsets, the more-fragments bit on all but the last, and the data in order |
| `Defrager.Defrager.Defrag` | src/muquinetd/ip/frag/Defrager.cpp:82-221 | On the linked lists: crash, keep or return exactly as the functions of Reassembly, with the packet relinked in place |
| `Defrager.InsertInto` | src/muquinetd/ip/frag/Defrager.cpp:124-147 | The search and the relinking do what Insert says and fail exactly where it does |
| `Defrager.IsReady` | src/muquinetd/ip/frag/Defrager.cpp:159-176 | The walk over the list decides Ready |
| `Defrager.Reassemble` | src/muquinetd/ip/frag/Defrager.cpp:186-197 | The first header gets the new length, the later fragments their windows |
| `Defrager.Defrager.Expire` | src/muquinetd/ip/frag/Defrager.cpp:41-64 | The timer removes exactly its context, if it is still there |
| `TcpClient.StatesMoveForward` | src/muquinetd/tcp/TcpPcb.cpp:120-207 | CLOSED, SYN-SENT, ESTABLISHED, never back; the callback runs once |
| `TcpClient.HandshakeIsFirst` | src/muquinetd/tcp/TcpPcb.cpp:152-176 | In every run the first segment that arrives fixes irs for good, and the first thing sent after the SYN acknowledges its number plus 1 |
| `TcpClient.UnackIsLargest` | src/muquinetd/tcp/TcpPcb.cpp:162-181 | From then on send_unack is the largest of ISS + 1 and the acknowledgement numbers that have arrived with the ack bit |
| `TcpClient.SendsExactly` | src/muquinetd/tcp/TcpPcb.cpp:149-208 | One segment goes out for the connect, for each write, for the handshake and for each later segment with data, and none for any other |
| `TcpClient.StreamIsTiled` | src/muquinetd/tcp/TcpPcb.cpp:120-133 | A SYN, then segments that tile exactly the bytes of the writes of the run from ISS + 1 on, without gap or overlap, modulo 2^32; acknowledgements carry the next number |
| `TcpClient.AckedWithinSent` | src/muquinetd/tcp/TcpPcb.cpp:176-182 | For fewer than 2^32 - 2 bytes and an honest peer, ISS <= send_unack <= send_next = ISS + 1 + bytes written |
| `TcpClient.OrderBreaksAtWrap` | src/muquinetd/tcp/TcpPcb.cpp:128-130 | In any run, with less than 2^32 bytes unacknowledged, a write keeps send_unack <= send_next exactly if fewer than 2^32 - 2 bytes have then been written in all |
| `TcpClient.AcksAreCumulative` | src/muquinetd/tcp/TcpPcb.cpp:190-196 | With in-order arrival everything sent acknowledges the number of the first segment that arrived, plus 1, plus the bytes that have arrived since |
| `TcpClient.AckRightExactly` | src/muquinetd/tcp/TcpPcb.cpp:191-196 | In any run the number is right after a segment, counted from the first one that arrived, exactly if the segment had the expected number |
| `TcpClient.AckedIsDelivered` | src/muquinetd/mux/Socket.cpp:139-150 | The bytes that have arrived are available exactly if no data met a queue of more than 128 |
| `TcpClient.TakesGetAvailable` | src/muquinetd/mux/Socket.cpp:152-159 | A reader that empties the queue has what was available, in order |
| `TcpClient.TcpPcb.Send` | src/muquinetd/tcp/TcpPcb.cpp:109-147 | In place: the new control block, the segment and the returned length |
| `TcpClient.TcpPcb.Recv` | src/muquinetd/tcp/TcpPcb.cpp:149-208 | In place: the new control block, what is queued and what is acknowledged |
| `MuxProtocol.CallsGetTheirAnswers` | src/interceptor/req-resp-channel.c:106-139 | The k-th call returns the k-th final response, of the kind it asked for, in every interleaving |
| `MuxProtocol.BlockedIsOwed` | src/muquinetd/mux/RequestHandler.cpp:323-431 | A blocked client is owed exactly one answer by exactly one party, or it is in the channel |
| `MuxProtocol.PacketsComeInOrder` | src/muquinetd/mux/RequestHandler.cpp:337-381 | Accepted packets are returned in order, each by one recvfrom |
| `MuxProtocol.NoLostWakeUp` | src/muquinetd/mux/Socket.cpp:196-224 | If a reader waits and the queue is not empty, the pipe holds a byte, a producer is about to write one, or the callback is running |
| `MuxProtocol.WaitingReaderIsServed` | src/muquinetd/mux/RequestHandler.cpp:559-630 | Then the event loop on its own drains the pipe and answers the waiting call with the head of the queue |
| `MuxProtocol.StallsExactly` | src/muquinetd/mux/Socket.cpp:152-159 | In every run, an event loop that takes for a waiting reader blocks exactly if the packets answered with are as many as those announced through the pipe; with the pipe empty since the wake-up, exactly if all that it read there were announcements of packets answered before |
| `MuxProtocol.StallsAloneExactly` | src/muquinetd/mux/Socket.cpp:202-221 | Run alone, the wake-up of a waiting reader blocks exactly if the queue is empty |
| `MuxProtocol.StallHappens` | src/muquinetd/mux/Socket.cpp:202-221 | A run in which a byte of an earlier packet makes it block |
| `MuxProtocol.StallEnds` | src/muquinetd/mux/Socket.cpp:139-150 | The next accepted packet ends that, and the waiting call gets it |
| `MuxProtocol.WaitNextCanBeLate` | src/muquinetd/tcp/TcpPcb.cpp:171-173 | A run in which the final response of a connect is read before its WAIT_NEXT is written |
| `MuxProtocol.AcceptsUpTo128` | src/muquinetd/mux/Socket.cpp:139-150 | A packet is accepted exactly if at most 128 are queued; it is then the last in the queue and a byte goes into the pipe unless that is full |
| `MuxProtocol.ReadsFindResult` | src/interceptor/req-resp-channel.c:106-139 | Reading on, the client gets the first final response there is and leaves those behind it; without one it stays blocked |
| `MuxCalls.Endpoint.OnReadReady` | src/muquinetd/mux/req-resp-channel/ReqRespChannel.cpp:153-210 | One request handled to its end is the steps of the event loop for it |
| `MuxCalls.Endpoint.RecvfromCall` | src/muquinetd/mux/RequestHandler.cpp:323-431 | The head of the queue, or WAIT_NEXT and a waiting reader |
| `MuxCalls.Endpoint.SChannelReadCb` | src/muquinetd/mux/Socket.cpp:202-224 | Drains the pipe and serves a waiting reader, or does not come back, as the steps of the event loop do |
| `MuxCalls.Endpoint.PutToRecvQ` | src/muquinetd/mux/Socket.cpp:139-150 | Enqueues below the limit and marks the pipe, as the steps of the IP thread do |
| `MuxCalls.Endpoint.ChannelRecv` | src/interceptor/req-resp-channel.c:106-139 | In place, what the reads of the client do one after the other: the first response that is not WAIT_NEXT; without one it goes on reading |
| `MuxCalls.Endpoint.ChannelSend` | src/interceptor/req-resp-channel.c:81-104 | Issues one call |

## Left out

- Weak memory orderings and fences: every atomic access is sequentially consistent, and nothing is claimed about the C++11 memory model.
- Blocks and their index under concurrency: the class runs one operation at a time; what remains of concurrency is that claimed indices are moved out in any order.
- Superseded block indices: the entries shared by an old and a new index are copied by value, so a consumer that still holds an old index is not modelled.
- The atomicity of a look-up and the move that follows it: they are one operation.
- Other producers' use of the block pool: the pool belongs to the one producer of the class.
- Producers that register while a consumer is inside the inner queue: the list of producers is fixed, and one that registers later has an empty queue until then.
- Consumer tokens and their rotation; a consumer tries the producers without one.
- ExplicitProducer: only its tickets, which are those of the implicit one; no block list and no recycling of blocks in a ring.
- Exceptions thrown by element constructors and assignments, tokens, moving and swapping queues, MemStats, debug macros.
- Recycled producers and thread-exit callbacks, which the configuration at concurrentqueue.h:201 switches off.
- MAX_SUBQUEUE_SIZE, which the default traits leave unlimited.
- The cut to int of the number of kernel posts at blockingconcurrentqueue.h:403.
- The kernel semaphore beyond a count, the pipe beyond a number of bytes, UNIX sockets beyond a FIFO of messages; epoll, signals and partial writes.
- libev timers: a timer may drop its context at any time.
- Other sockets and channels of the same event loop: they matter only in that a blocked loop does not serve them.
- Non-blocking sockets and the calls poll, select, fcntl and the socket options, which are unfinished; a second connect on a connected socket.
- The requests that are answered at once are one kind, Other.
- The two threads of a connection: TcpPcb::send runs on the event loop, recv and ack2peer on the IP thread, and send_next and recv_next are shared between them without synchronisation; TcpClient makes each call one atomic step, and interleavings within calls are not modelled.
- Logging, including the comparison of a sequence number at TcpPcb.cpp:191 that only decides on a message.
- Fragmentation on the way out, ICMP, UDP headers, closing handshakes, and the check of received headers, which is a stub at IpHeader.cpp:60-65.
- Ip.cpp:132 uses the header length of the last fragment that arrived for the whole packet; the model ends with the packet.
- Pcbs::find, file descriptors, registration with the event loop, configuration, protobuf encoding: only easy claims hold there.
