# Verified models of the yutil concurrent queues

This project models the concurrent FIFO queues of the `yutil` repository and proves what they promise,
for any number of threads, any schedule, any capacity and any client calls unless a row says otherwise.
Three families are covered.

* **Bounded atomic MPMC queue** (versions 1 to 3). Producers and consumers race on two counters, and
  each cell's `sequence` says which ticket may use it next. `AtomicQueue` is the step machine: one step
  per shared access (load of `closed`, of a counter, of a `sequence`; weak compare-and-swap, which may
  fail spuriously; construction; move; destruction; `sequence` store). Overwriting a live slot, or
  reading or destroying an empty one, leads to the state `Fault`. `AtomicInvariant` holds the inductive
  invariant, `AtomicLinearizable` the refinement of the bounded FIFO of `FifoObject`,
  `AtomicProperties` ownership and retries, `AtomicProgress` calls that run without interference and
  pushes after `close`, `AtomicTermination` lock-freedom of the whole system, `AtomicRuns` runs built
  call by call and the capacity floor, `AtomicFailures` when a failing call can be believed,
  `AtomicWords` how many tickets 64-bit words tell apart, `AtomicClient` the producers and consumers of
  the versions test and `AtomicClientProgress` how they come to an end, `AtomicBackoff` version 3, and
  `AtomicObject` the class itself: cells in an array, counters as wrapping 64-bit words with masks and
  signed differences.
* **Mutex and condition-variable queues**: the unbounded deque queues (`WaitQueue` and the other
  `Wait*` files, class `DequeObject.MutexDequeQueue`), the bounded ring with two condition variables
  (versions 2 and 3: `RingQueue`, `RingGuarantees`, `RingSoleWaiter`, `RingExact`, `RingDeadlock`,
  `RingReturns`, `RingClient`, `RingDrain`, class `RingObject.RingMutexMpmcQueue`) and the bounded ring
  with one (version 1: `RingOneCv`, `RingOneCvReturns`, `RingOneCvClient`, class
  `RingOneCvObject.RingMutexMpmcQueueV1`). The circular buffer they share is `RingBuffer`.
  `BlockingFifo` specifies what the calls of all of them return, and the three `Returns` files prove
  that they return that. A critical section is one step; a notification sent after unlocking is a step
  of its own, so everything between the two can happen. A thread is idle, asleep, woken but not yet
  holding the lock, or still owes a notification.
* **SPSC bounded queue with cached indices**: `Spsc` (unbounded counters), `SpscWaitFree` (each call
  from start to end) and `SpscObject` (64-bit words, masks, class `SpscBoundedQueue`).

`Tickets`, `Words`, `Counting` and `Wrappers` hold what several of them use. Each class method for one
shared access or critical section is proved equal to one step of its machine, so what is proved of the
machine's runs holds of the class. Two kinds of methods differ: the sequence loads of the atomic queue are
that step where their two words lie on the same side of 2^63 and say what they do otherwise, and whole
operations (`TryPush`, `TryPop`, `Close`, `DrainRemaining`, the SPSC `Drain`) are sequences of steps with a
contract of their own.

## Assumptions

Memory is sequentially consistent. Condition variables behave as section 33.5.3 of ISO/IEC 14882:2017
says: `notify_one` wakes some waiter if there is one, `notify_all` wakes all, and a waiter may wake
spuriously at any time. No fairness is assumed. The fields `hist`, `pushed`, `popped`, `produced` and
the like record the past for the theorems and influence no step. No proof needs Dafny's automatic
induction.

## What the proofs found

* A failing atomic `try_pop` does not mean that every completed push was consumed, nor a failing
  `emplace` `capacity` unconsumed values; the comments "queue empty" and "queue full" in the source hold
  only up to an operation that has won its ticket and not finished. Whether a failure can be believed
  depends on who calls: a pop never fails beside a completed push if and only if at most one thread
  pushes (`NeverMissesIff`), a push never fails beside a released cell if and only if at most one thread
  pops (`NeverOverlooksIff`), and a failure always means empty, or full, if and only if no thread pushes
  while another pops (`FailedPopsSeeEmptyIff`, `FailedPushesSeeFullIff`).
* A push that passed the closed check can succeed after `close` (`PushCanSucceedAfterClose`). The
  number that can is exactly the number past the check without a ticket at that moment, so none can if
  and only if there are none (`LatePushesExact`); a push called later fails (`PushAfterCloseFails`).
* The floor of two cells in `normalize_capacity` is exactly what the atomic protocol needs: with one
  cell "published" and "free for the next lap" are the same number (`TwoCellsAreExactlyEnough`).
* `normalize_capacity` does not stop for requests above 2^63 (`RoundingStopsIff`). The signed differences
  of the atomic queue are all exact up to 2^63 - capacity tickets and no further once two threads use it,
  or up to 2^63 - 2 for a single thread (`ExactUpToIff`); beyond, nearby words straddle 2^63 and the
  subtraction overflows (`DifStraddlingOverflows`), first for a single thread on an empty queue after
  2^63 - 1 values have passed through (`QuietQueueMisjudged`).
* Notifying only on the empty-to-non-empty transition can leave a value queued beside a sleeping
  consumer exactly when more than one thread calls `wait_pop` (`NeverStrandsIff`). Consumers that loop
  until `wait_pop` fails are safe under every policy (`LoopingConsumersNeverDeadlock`).
* Ring version 3 can deadlock at every capacity of two or more if clients finish: one producer is done,
  the other sleeps on `not_full`, and the consumer has emptied the queue and sleeps on `not_empty`
  (`FinishingProducersDeadlock`), or the mirror image (`FinishingConsumersDeadlock`). With `push`,
  `wait_pop` and `close` there is no deadlock if and only if it is version 2, there is one place, or one
  thread pushes and one pops (`BlockingCallsNeverDeadlockIff`); clients that loop until `close` are safe
  (`LoopingClientsNeverDeadlock`). `NeverDeadlocksIff`, `ConsumersNeverStrandIff` and
  `ProducersNeverStrandIff` decide it for versions 2 and 3, every capacity, number of threads on each
  side and use of `try_push` and `try_pop`. `try_pop`, which never notifies, strands producers in every version.
* SPSC `size()` loads the tail and then the head, and is always true exactly when not both of the owning
  threads run between the loads (`SizeExactIff`); a third thread can see an underflow
  (`SizeCanUnderflow`).

## Model

| member | source | states |
|---|---|---|
| AtomicInvariant.NextInv | ds/queue/bounded_atomic_mpmc_queue_v1.hpp:38-82 | every access of every thread keeps the inductive invariant over all cells and all program counters, including the gap between winning the CAS and storing `sequence` |
| AtomicInvariant.RunsKeepInv | ds/queue/bounded_atomic_mpmc_queue_v1.hpp:38-82 | the invariant holds after any schedule of any threads |
| AtomicProperties.SlotOwnership | ds/queue/bounded_atomic_mpmc_queue_v1.hpp:38-82 | in every reachable state each `sequence` names exactly one ticket of its cell, at most one thread works on a cell, storage is live exactly while a published value waits or its owner has constructed and not destroyed it, the counters differ by at most the capacity, and no thread ever overwrites a live slot or reads or destroys an empty one |
| AtomicProperties.OneTicket | ds/queue/bounded_atomic_mpmc_queue_v1.hpp:43-45 | a cell's `sequence` is `t` or `t+1` for exactly one ticket `t` congruent to the cell's index |
| AtomicProperties.OneOwner | ds/queue/bounded_atomic_mpmc_queue_v1.hpp:48-51 | two threads between their winning CAS and their `sequence` store never work on the same cell |
| AtomicProperties.StorageLive | ds/queue/bounded_atomic_mpmc_queue_v1.hpp:68-74 | a cell holds a value if and only if a published ticket waits in it or its owner has constructed and not destroyed it |
| AtomicLinearizable.NextRefines | ds/queue/bounded_atomic_mpmc_queue_v1.hpp:30-82 | each access of a thread is one step, or no step, of a bounded FIFO object with a closed flag, and leaves every other thread's status alone |
| AtomicLinearizable.Linearizable | ds/queue/bounded_atomic_mpmc_queue_v1.hpp:30-82 | every run from a new queue is a run of a bounded FIFO that starts empty and open, where a successful push or pop takes effect at its compare-and-swap, `close` at its exchange, and each call returns what the FIFO decided; a pop may fail only on an empty FIFO or while the push of the very value it would take is unfinished, a push only on a full one or while the pop of the value one lap before its own is unfinished |
| AtomicLinearizable.ValuesLeaveInOrder | ds/queue/bounded_atomic_mpmc_queue_v1.hpp:48-75 | over any run the values of the winning pushes, in order, are the values of the winning pops, in order, followed by what is still inside, which is at most the capacity: nothing is lost, duplicated or reordered |
| FifoObject.FirstInFirstOut | ds/queue/bounded_atomic_mpmc_queue_v1.hpp:38-82 | the specification is a bounded FIFO: over any of its runs values leave in the order they entered and at most `cap` are inside |
| FifoObject.StepOrder | ds/queue/bounded_atomic_mpmc_queue_v1.hpp:48-75 | the value that leaves is the one the popping call is given, and the value that enters is the one the pushing call brought |
| AtomicLinearizable.PushFailsExactlyWhenUnreleased | ds/queue/bounded_atomic_mpmc_queue_v1.hpp:43-55 | `emplace` reports full at a load if and only if `enqueue_pos` still equals its `pos` and ticket `pos - capacity` is unpopped or its popper has not released the cell |
| AtomicLinearizable.PopFailsExactlyWhenUnpublished | ds/queue/bounded_atomic_mpmc_queue_v1.hpp:64-77 | `try_pop` reports empty at a load if and only if `dequeue_pos` still equals its `pos` and that ticket is unclaimed or its pusher has not published it |
| AtomicProperties.PushRetryMeansOvertaken | ds/queue/bounded_atomic_mpmc_queue_v1.hpp:48-57 | `dif > 0` or a CAS that fails on a changed counter means `enqueue_pos` has already moved past the thread's `pos` |
| AtomicProperties.PopRetryMeansOvertaken | ds/queue/bounded_atomic_mpmc_queue_v1.hpp:68-79 | the same of `dequeue_pos` in `try_pop` |
| AtomicProperties.RetriesPaidByRivals | ds/queue/bounded_atomic_mpmc_queue_v1.hpp:42-82 | lock-freedom: from a call on, over any stretch of a run inside that call, its retries (other than spurious ones) are at most the compare-and-swaps that other threads won on the same counter |
| AtomicProgress.AloneReturns | ds/queue/bounded_atomic_mpmc_queue_v1.hpp:42-82 | obstruction freedom: in every reachable state a thread left to run alone returns from its call within seven accesses |
| AtomicTermination.AccessesPaid | ds/queue/bounded_atomic_mpmc_queue_v1.hpp:38-82 | from any state of the invariant each access of a run is paid for: by what the threads still needed, seven per call, two per spurious failure, and two per other thread for each won compare-and-swap |
| AtomicTermination.FiniteCallsFiniteRun | ds/queue/bounded_atomic_mpmc_queue_v1.hpp:38-82 | system-wide lock-freedom: from a new queue with n threads, c calls and f spurious failures make at most (2n + 5)c + 2f steps under any schedule |
| AtomicProgress.LatePushesExact | ds/queue/bounded_atomic_mpmc_queue_v1.hpp:30-53 | in every reachable closed state at most the pushes past the closed check and without a ticket still succeed, some schedule lets all of them succeed, and so none can if and only if there are none |
| AtomicProgress.PushAfterCloseFails | ds/queue/bounded_atomic_mpmc_queue_v1.hpp:38-41 | a push called once the queue is closed returns false, whatever the other threads do |
| AtomicProperties.LatePushesBounded | ds/queue/bounded_atomic_mpmc_queue_v1.hpp:30-41 | the upper half, from any closed state: `closed` stays set and each late success uses up one push past the check |
| AtomicRuns.PushCanSucceedAfterClose | ds/queue/bounded_atomic_mpmc_queue_v1.hpp:38-53 | a run in which `close` returns true and a push then succeeds |
| AtomicFailures.NeverMissesIff | ds/queue/bounded_atomic_mpmc_queue_v1.hpp:62-77 | for every capacity of at least two: no pop ever fails beside a completely pushed and unclaimed value if and only if at most one thread pushes, or none pops |
| AtomicFailures.NeverOverlooksIff | ds/queue/bounded_atomic_mpmc_queue_v1.hpp:38-55 | no push ever fails beside a cell released for an unclaimed ticket if and only if at most one thread pops, or none pushes |
| AtomicFailures.FailedPopsSeeEmptyIff | ds/queue/bounded_atomic_mpmc_queue_v1.hpp:62-77 | a failing pop always means that both counters are equal if and only if no thread pushes while a different one pops |
| AtomicFailures.FailedPushesSeeFullIff | ds/queue/bounded_atomic_mpmc_queue_v1.hpp:38-55 | a failing push always means `capacity` unclaimed values if and only if no thread pops while a different one pushes |
| AtomicFailures.PopCanMissCompletedPush | ds/queue/bounded_atomic_mpmc_queue_v1.hpp:62-77 | for every capacity a run in which a push completes, nothing is popped, and a pop returns false |
| AtomicFailures.PushCanFailOnEmptyFifo | ds/queue/bounded_atomic_mpmc_queue_v1.hpp:43-55 | a run in which a push returns false although every value has been claimed: two pops have won their tickets and not released the cells |
| AtomicRuns.TwoCellsAreExactlyEnough | ds/queue/bounded_atomic_mpmc_queue_v1.hpp:92-98 | no run ever faults if and only if the capacity is at least two, the floor that `normalize_capacity` enforces |
| AtomicRuns.OneCellOverwrites | ds/queue/bounded_atomic_mpmc_queue_v1.hpp:43-52 | with a single cell one thread's second push constructs over a live value |
| AtomicClient.ClientsConserve | tests/bounded_atomic_mpmc_queue_versions_test.cpp:43-88 | for any producers' items, any positive number of consumers and any schedule in which every client finishes, of which there is one from every reachable state (ClientsCanFinish), the multiset of items consumed is the multiset produced |
| AtomicClient.TestFigures | tests/bounded_atomic_mpmc_queue_versions_test.cpp:92-95 | the test's assertions for any sizes, at the end of any such schedule: N items consumed, adding up to N(N+1)/2 |
| AtomicClient.SecondPopDrained | tests/bounded_atomic_mpmc_queue_versions_test.cpp:69-72 | a pop that fails after all producers were seen done proves both counters equal |
| AtomicClient.MoveKeeps | tests/bounded_atomic_mpmc_queue_versions_test.cpp:43-82 | every move of a client, or of the queue call it is in, keeps clients and queue coupled and, for any weighing of items, the claimed and the handed-over weight balanced |
| AtomicClient.TestWorkIsUpTo | tests/bounded_atomic_mpmc_queue_versions_test.cpp:45-47 | the producers' ranges together are exactly 1 to N in order |
| AtomicClientProgress.ClientsCanFinish | tests/bounded_atomic_mpmc_queue_versions_test.cpp:43-88 | for any capacity of at least two, any items and any positive number of consumers: from every state that any schedule can reach, some schedule lets every client finish |
| AtomicClientProgress.ConsumerStopsAlone | tests/bounded_atomic_mpmc_queue_versions_test.cpp:64-77 | in every reachable state in which all producers are done and every value is claimed, a consumer left to run alone leaves its loop: it makes at most 57 moves and can make one until it has stopped |
| AtomicClientProgress.AccessCloser | tests/bounded_atomic_mpmc_queue_versions_test.cpp:49-51 | while the other clients are outside the queue, each access of a push that finds room, or of a pop that finds a value or may fail, lowers the lexicographic measure of pushes owed, values queued and what is left of each client's loop |
| AtomicBackoff.BackoffRefinesProtocol | ds/queue/bounded_atomic_mpmc_queue_v3.hpp:39-87 | version 3 with its backoff steps erased is a run of version 1 with the same states and results, every run of version 1 arises so, and between steps the spin counter is at most 64 |
| AtomicBackoff.SpinsCountBackoffs | ds/queue/bounded_atomic_mpmc_queue_v3.hpp:109-115 | within one retry loop the spin counter is the number of backoffs modulo 65 |
| AtomicBackoff.BackoffsAreRetries | ds/queue/bounded_atomic_mpmc_queue_v3.hpp:44-62 | from the call on, at every moment and under any schedule: the call has backed off exactly once for each failed attempt (a changed sequence, a lost compare-and-swap or a spurious failure), except that the last backoff may still be due, and none is due once it has returned; its spin counter is the number of its backoffs modulo 65, whatever earlier calls left in it |
| AtomicObject.BoundedAtomicMpmcQueue.constructor | ds/queue/bounded_atomic_mpmc_queue_v1.hpp:16-23 | a new queue has the least power-of-two capacity that is at least two and the request, cell `i` carries sequence `i`, and the invariant holds |
| AtomicObject.BoundedAtomicMpmcQueue.WordsExact | ds/queue/bounded_atomic_mpmc_queue_v1.hpp:44-67 | for every position a thread can hold, `pos & mask_` is the slot of the ticket, both signed differences are the true ones if and only if their two words lie on the same side of 2^63, as all do up to 2^63 - capacity tickets, and have the opposite sign elsewhere |
| AtomicObject.BoundedAtomicMpmcQueue.LoadClosed | ds/queue/bounded_atomic_mpmc_queue_v1.hpp:39-41 | a push that sees the flag fails at once, any other goes on with its value, and nothing shared changes |
| AtomicObject.BoundedAtomicMpmcQueue.LoadSequenceForPush | ds/queue/bounded_atomic_mpmc_queue_v1.hpp:44-57 | the invariant is kept whatever the words are; where sequence and position lie on the same side of 2^63 the three-way branch goes the way the true difference says, elsewhere the opposite way |
| AtomicObject.BoundedAtomicMpmcQueue.CasEnqueuePos | ds/queue/bounded_atomic_mpmc_queue_v1.hpp:48 | the weak compare-and-swap claims the ticket exactly when it succeeds, and otherwise leaves the queue and reloads `pos` |
| AtomicObject.BoundedAtomicMpmcQueue.Construct | ds/queue/bounded_atomic_mpmc_queue_v1.hpp:49 | the value goes to the claimed ticket's cell, which is empty, before anybody can see it |
| AtomicObject.BoundedAtomicMpmcQueue.PublishPush | ds/queue/bounded_atomic_mpmc_queue_v1.hpp:50-51 | the store makes exactly the claimed ticket's cell readable by its popper |
| AtomicObject.BoundedAtomicMpmcQueue.LoadSequenceForPop | ds/queue/bounded_atomic_mpmc_queue_v1.hpp:66-79 | the same against `pos + 1` |
| AtomicObject.BoundedAtomicMpmcQueue.CasDequeuePos | ds/queue/bounded_atomic_mpmc_queue_v1.hpp:68 | as for `CasEnqueuePos`, on the consumers' counter |
| AtomicObject.BoundedAtomicMpmcQueue.Take | ds/queue/bounded_atomic_mpmc_queue_v1.hpp:69-70 | the popper moves out the value of the cell its ticket owns, which is live |
| AtomicObject.BoundedAtomicMpmcQueue.Destroy | ds/queue/bounded_atomic_mpmc_queue_v1.hpp:71 | the popper leaves its cell empty |
| AtomicObject.BoundedAtomicMpmcQueue.Release | ds/queue/bounded_atomic_mpmc_queue_v1.hpp:72-73 | the store hands exactly this cell to the ticket one lap later and the pop returns its value |
| AtomicObject.BoundedAtomicMpmcQueue.TryPush | ds/queue/bounded_atomic_mpmc_queue_v1.hpp:38-60 | run while no other operation is in flight, a push succeeds if and only if the queue is open and not full, and then appends its value and changes nothing else |
| AtomicObject.BoundedAtomicMpmcQueue.TryPop | ds/queue/bounded_atomic_mpmc_queue_v1.hpp:62-82 | run alone, a pop returns and removes the oldest value, or nothing exactly when the queue is empty |
| AtomicObject.BoundedAtomicMpmcQueue.Close | ds/queue/bounded_atomic_mpmc_queue_v1.hpp:30 | whatever else is in flight, returns true for the first close only and leaves the values and the other threads alone |
| AtomicObject.BoundedAtomicMpmcQueue.DrainRemaining | ds/queue/bounded_atomic_mpmc_queue_v1.hpp:100-104 | with no operation in flight the destructor's loop ends after exactly `enqueue_pos - dequeue_pos` pops, in order, and leaves no cell holding a value |
| Words.NormalizeCapacity | ds/queue/bounded_atomic_mpmc_queue_v1.hpp:92-98 | for requests up to 2^63 the loop ends with the least power of two that is at least two and at least the request |
| Words.RoundingStopsIff | ds/queue/bounded_atomic_mpmc_queue_v1.hpp:92-98 | on 64-bit words the rounding loop stops if and only if the request is at most 2^63 |
| Words.MaskIsSlot | ds/queue/bounded_atomic_mpmc_queue_v1.hpp:44 | `pos & mask_` is `pos` modulo the capacity for every power of two |
| Words.DifExactIff | ds/queue/bounded_atomic_mpmc_queue_v1.hpp:46 | the signed difference of two words is the true difference if and only if both lie on the same side of 2^63 |
| Words.DifStraddlingOverflows | ds/queue/bounded_atomic_mpmc_queue_v1.hpp:46 | for nearby words on different sides of 2^63 the subtraction leaves the signed 64-bit range, on the side opposite to the true difference |
| AtomicWords.ExactUpToIff | ds/queue/bounded_atomic_mpmc_queue_v1.hpp:43-67 | for every capacity up to 2^63, all sequence loads of all reachable states with at most N tickets compute the true difference if and only if N is at most 2^63 - capacity, or there is one thread and N is at most 2^63 - 2 |
| AtomicWords.QuietQueueMisjudged | ds/queue/bounded_atomic_mpmc_queue_v1.hpp:65-77 | for every capacity one thread reaches, after 2^63 - 1 values in and out, a pop whose difference of -1 comes out as 2^64 - 1 |
| AtomicWords.StalePushMisjudged | ds/queue/bounded_atomic_mpmc_queue_v1.hpp:43-55 | with two or more threads the first inexact load comes after 2^63 - capacity + 1 tickets, in a push that holds a position one lap old |
| Tickets.SlotInjective | ds/queue/bounded_atomic_mpmc_queue_v1.hpp:44 | tickets of one lap use different cells |
| WaitQueue.NextInv | ds/queue/mutex_deque_mpmc_queue_v3.hpp:23-73 | every critical section, notification and wakeup of every version keeps the waiting counter equal to the threads inside the wait, the recorded values in order, failed `wait_pop`s truthful, and after `close` a `notify_all` pending while anyone sleeps (what each call returns is NextRefines) |
| WaitQueue.PushNotifiesIff | ds/queue/mutex_deque_mpmc_queue_v3.hpp:26-37 | an accepted push owes a notification if and only if its version's rule says so, where "somebody waits" means a thread that really is inside the wait |
| BlockingFifo.StepDelivers | ds/queue/mutex_deque_mpmc_queue_v3.hpp:23-65 | the specification of the mutex queues: in each of its steps exactly the value of a push that returns true enters at the back, exactly the value that a pop returns leaves from the front, and the bound is kept |
| BlockingFifo.ReturnedInOrder | ds/queue/mutex_deque_mpmc_queue_v3.hpp:23-65 | over any run of the specification the values that its pops return are those of the pushes that return true, in order, up to what is still inside |
| BlockingFifo.CallOutcome | ds/queue/mutex_deque_mpmc_queue_v3.hpp:23-65 | a call, from its start on: it waits without effect, or it has settled, and then a push has entered its value exactly if it returns true, a pop has removed exactly the value it returns, and a blocking push that returns false left a closed queue |
| BlockingFifo.SharesAddUp | tests/mpmc_mutex_queue_versions_test.cpp:59-98 | by any weighing of items, what the pops of the single threads return adds up to all that was returned |
| WaitReturns.NextRefines | ds/queue/mutex_deque_mpmc_queue_v3.hpp:23-73 | unbounded queues, every notification rule: every step of every thread is one step of the FIFO specification for that thread alone, so a push waits, returns true or returns false, and a pop waits, returns the front or returns none, exactly when the specification's does, also across sleeping, relocking and the notification sent last |
| WaitReturns.RunsRefine | ds/queue/mutex_deque_mpmc_queue_v3.hpp:23-73 | unbounded queues, every notification rule: every run is a run of the specification; the values recorded as pushed are those of the calls that returned true, and the values recorded as popped are those the calls returned |
| WaitReturns.ReturnedInOrder | ds/queue/mutex_deque_mpmc_queue_v3.hpp:23-73 | unbounded queues, every notification rule: from a new queue on, the values of the pushes that returned true are the values returned, in order, followed by the contents |
| WaitReturns.CallOutcome | ds/queue/mutex_deque_mpmc_queue_v3.hpp:23-73 | unbounded queues, every notification rule: one call over any run from its start on has either had no effect and waits, or has settled; a push has appended its value exactly if it returns true, a pop has removed exactly the value it returns, and a blocking push returns false only on a closed queue |
| WaitGuarantees.NoStrandedConsumer | ds/queue/mutex_deque_mpmc_queue_v3.hpp:23-55 | MPMC versions 1 and 3: in every reachable state `waiting_consumers_` counts the threads in the wait, a sleeper implies at most one queued value per pending notification or woken waiter, and with nothing pending a sleeper implies an empty open queue |
| WaitGuarantees.NeverStrandsIff | ds/queue/mutex_deque_mpmc_queue_v2.hpp:23-51 | a value can be left beside a sleeping consumer with nothing pending exactly for the policies that notify only on an empty queue and then exactly when two or more threads call `wait_pop` |
| WaitGuarantees.StrandingRun | ds/queue/mutex_deque_mpmc_queue_v2.hpp:30-38 | the run that strands a consumer under version 2: the woken consumer leaves with one value while the second push told nobody |
| WaitGuarantees.SoleConsumerIsServed | ds/queue/mutex_deque_queue_v3.hpp:23-55 | in the single-consumer setting, in every reachable state under every notification rule of the four versions, a consumer asleep on a non-empty queue has a wakeup under way, and with nothing pending it sleeps only on an empty open queue |
| WaitGuarantees.LoopingConsumersNeverDeadlock | ds/queue/mutex_deque_mpmc_queue_v2.hpp:23-69 | consumers that call `wait_pop` until it fails are, under every policy, all asleep with nothing pending only on an empty open queue |
| WaitDrain.DrainsOut | ds/queue/mutex_deque_mpmc_queue_v3.hpp:23-73 | any finite client programs make at most threads + 4 steps per call, and in a final state of versions 1 and 3 every unfinished thread sleeps on an empty open queue |
| WaitDrain.StepDecreases | ds/queue/mutex_deque_mpmc_queue_v3.hpp:23-73 | every step lowers the measure over remaining calls, pending notifications and woken threads |
| WaitClient.FailedWaitPopSawTheEnd | ds/queue/mutex_deque_mpmc_queue_v2.hpp:41-46 | `wait_pop` fails if and only if at that instant the queue is closed and empty |
| WaitClient.ClosedForever | ds/queue/mutex_deque_mpmc_queue_v2.hpp:25-29 | a closed queue accepts nothing ever again, and once empty stays empty |
| WaitClient.CloseThenDrain | tests/mpmc_mutex_queue_versions_test.cpp:59-98 | if all pushes precede the first `close`, then as soon as any `wait_pop` has failed the values that calls have returned are exactly those pushed, in order, and what the calls of each thread returned adds up to them for any weighing, so to the test's count and sum |
| DequeObject.MutexDequeQueue.Emplace | ds/queue/mutex_deque_mpmc_queue_v3.hpp:23-39 | on the object: false and nothing changed on a closed queue, else appended, and true at once or owing a notification exactly when its version's rule says |
| DequeObject.MutexDequeQueue.WaitPop | ds/queue/mutex_deque_mpmc_queue_v3.hpp:41-55 | from taking the lock: sleep on an empty open queue and be counted, fail on an empty closed one, else take the front |
| DequeObject.MutexDequeQueue.Relock | ds/queue/mutex_deque_mpmc_queue_v3.hpp:43-54 | back from `wait` the thread is counted out and tests again, and may go back to sleep |
| DequeObject.MutexDequeQueue.TryPop | ds/queue/mutex_deque_mpmc_queue_v3.hpp:57-65 | takes the front if there is one and never sleeps |
| DequeObject.MutexDequeQueue.Close | ds/queue/mutex_deque_mpmc_queue_v3.hpp:67-73 | closes, changes no value, and owes a `notify_all` |
| DequeObject.MutexDequeQueue.NotifyOne | ds/queue/mutex_deque_mpmc_queue_v3.hpp:35-38 | the notification of a push wakes the chosen sleeper and nobody else, and the push returns true |
| DequeObject.MutexDequeQueue.NotifyAll | ds/queue/mutex_deque_mpmc_queue_v3.hpp:72 | after the notification of `close` nobody is asleep, every sleeper has been woken, and `close` has returned |
| RingBuffer.CircularPush | ds/queue/ring_mutex_mpmc_queue_v3.hpp:38-40 | for any capacity, writing at the tail index appends to the circular slice and disturbs nothing in it |
| RingBuffer.CircularPop | ds/queue/ring_mutex_mpmc_queue_v3.hpp:82-84 | advancing the head index removes exactly the oldest value of the slice |
| RingBuffer.IndexSteps | ds/queue/ring_mutex_mpmc_queue_v3.hpp:115 | `next` keeps `tail_ == (head_ + size_) mod capacity_` at a push and at a pop |
| RingBuffer.CircularBuffer.constructor | ds/queue/ring_mutex_mpmc_queue_v3.hpp:14-15 | a request of zero gives one place; the buffer starts empty |
| RingBuffer.CircularBuffer.Enqueue | ds/queue/ring_mutex_mpmc_queue_v3.hpp:38-40 | in place, the sequence in the buffer becomes the old one with the value appended, and the indices fit again |
| RingBuffer.CircularBuffer.Dequeue | ds/queue/ring_mutex_mpmc_queue_v3.hpp:82-84 | in place, the front of the sequence is returned and removed |
| RingQueue.NextInv | ds/queue/ring_mutex_mpmc_queue_v3.hpp:26-112 | every step of versions 2 and 3 keeps both waiting counters exact, the size within the capacity, values in order, and after `close` a `notify_all` pending for each kind of sleeper |
| RingQueue.PushNotifiesIff | ds/queue/ring_mutex_mpmc_queue_v3.hpp:37-46 | an accepted push owes a notification if and only if it is version 2, or the queue was empty and a consumer really is inside the wait |
| RingQueue.PopNotifiesIff | ds/queue/ring_mutex_mpmc_queue_v3.hpp:81-91 | a pop that takes a value owes a notification if and only if it is version 2, or the queue was full and a producer really is inside the wait |
| RingReturns.NextRefines | ds/queue/ring_mutex_mpmc_queue_v3.hpp:26-112 | versions 2 and 3 at any capacity: every step of every thread is one step of the FIFO specification for that thread alone, so a push waits, returns true or returns false, and a pop waits, returns the front or returns none, exactly when the specification's does, also across sleeping, relocking and the notification sent last |
| RingReturns.RunsRefine | ds/queue/ring_mutex_mpmc_queue_v3.hpp:26-112 | versions 2 and 3 at any capacity: every run is a run of the specification; the values recorded as pushed are those of the calls that returned true, and the values recorded as popped are those the calls returned |
| RingReturns.ReturnedInOrder | ds/queue/ring_mutex_mpmc_queue_v3.hpp:26-112 | versions 2 and 3 at any capacity: from a new queue on, the values of the pushes that returned true are the values returned, in order, followed by the contents |
| RingReturns.CallOutcome | ds/queue/ring_mutex_mpmc_queue_v3.hpp:26-112 | versions 2 and 3 at any capacity: one call over any run from its start on has either had no effect and waits, or has settled; a push has appended its value exactly if it returns true, a pop has removed exactly the value it returns, and a blocking push returns false only on a closed queue |
| RingGuarantees.TwoSidedNoStranding | ds/queue/ring_mutex_mpmc_queue_v2.hpp:26-92 | version 2 with `push`, `wait_pop` and `close`: a sleeping consumer implies at most one value, and while open a sleeping producer at most one free place, per pending notification or woken waiter; once closed every sleeper has a `notify_all` to come |
| RingExact.ConsumersNeverStrandIff | ds/queue/ring_mutex_mpmc_queue_v3.hpp:37-48 | a consumer can be left asleep on a non-empty open queue with nothing pending if and only if there are two or more places, two or more threads call `wait_pop`, and values come by `try_push` or by a `push` of version 3 |
| RingExact.ProducersNeverStrandIff | ds/queue/ring_mutex_mpmc_queue_v3.hpp:81-92 | a producer can be left asleep beside free space with nothing pending if and only if a thread calls `push` and either `try_pop` is used, or it is version 3 with two or more places, two or more threads that push and one that calls `wait_pop` |
| RingExact.NeverDeadlocksIff | ds/queue/ring_mutex_mpmc_queue_v3.hpp:26-103 | threads can be asleep on both sides of an open queue with nothing pending if and only if there are threads on both sides and a consumer or a producer can be stranded |
| RingExact.BlockingCallsNeverDeadlockIff | ds/queue/ring_mutex_mpmc_queue_v3.hpp:26-92 | with `push`, `wait_pop` and `close` only and threads on both sides: no deadlock if and only if it is version 2, there is one place, or one thread pushes and one pops |
| RingExact.TryPopStrands | ds/queue/ring_mutex_mpmc_queue_v2.hpp:74-83 | for every capacity and both versions a run in which `try_pop` makes room and the sleeping producer is told nothing |
| RingExact.FinishingProducersDeadlock | ds/queue/ring_mutex_mpmc_queue_v3.hpp:81-89 | for every capacity of two or more a run of version 3, with blocking calls of one consumer and two producers, that ends with a producer and the consumer asleep and nothing pending |
| RingExact.FinishingConsumersDeadlock | ds/queue/ring_mutex_mpmc_queue_v3.hpp:37-41 | the mirror run, with two consumers and one producer |
| RingSoleWaiter.RunsAnswered | ds/queue/ring_mutex_mpmc_queue_v3.hpp:26-92 | in both versions at any capacity, while one thread at most calls `wait_pop` a consumer asleep beside a value is owed a notification, and while one at most calls `push` and nobody `try_pop` a producer asleep beside a free place is |
| RingExact.LeavingConsumerStrands | ds/queue/ring_mutex_mpmc_queue_v3.hpp:37-41 | for every capacity of two or more a run that leaves a consumer asleep beside a value after the woken one has left |
| RingDeadlock.LoopingClientsNeverDeadlock | ds/queue/ring_mutex_mpmc_queue_v3.hpp:26-92 | with at least one looping consumer and one looping producer, while open, a value implies a consumer awake or owed a notification, a free place the same of a producer, so they are never all asleep with nothing pending |
| RingClient.FailedWaitPopSawTheEnd | ds/queue/ring_mutex_mpmc_queue_v2.hpp:58-63 | `wait_pop` of versions 2 and 3 fails if and only if at that instant the queue is closed and empty |
| RingClient.ClosedForever | ds/queue/ring_mutex_mpmc_queue_v2.hpp:26-31 | a closed queue accepts nothing ever again, not even from producers that were waiting, and once empty stays empty |
| RingClient.CloseThenDrain | ds/queue/ring_mutex_mpmc_queue_v2.hpp:26-92 | if all pushes have returned when the queue is first closed, then whenever a `wait_pop` fails the multiset of the values that calls have returned is that of the values pushed, and no call returns another value afterwards |
| RingClient.FailedWaitPopReturnedAll | ds/queue/ring_mutex_mpmc_queue_v2.hpp:26-92 | whatever was called before, when a `wait_pop` fails all values ever accepted have been returned, in order |
| RingDrain.FiniteCallsFiniteRun | ds/queue/ring_mutex_mpmc_queue_v3.hpp:26-112 | among n threads, c calls and f spurious wakeups make at most (2n + 5)c + 2f steps, for both versions and any capacity |
| RingDrain.EndsWell | ds/queue/ring_mutex_mpmc_queue_v3.hpp:26-112 | when nothing but calls and spurious wakeups can happen, nobody sleeps on a closed queue, and where consumers (producers) cannot be stranded one still waiting sleeps on an empty (full) queue |
| RingObject.RingMutexMpmcQueue.Emplace | ds/queue/ring_mutex_mpmc_queue_v3.hpp:26-48 | on the object: on a full open queue counted and asleep with its value and the contents unchanged, on a closed one false and unchanged, else appended and true, at once or once the notification that its version's rule asks for is sent |
| RingObject.RingMutexMpmcQueue.WaitPop | ds/queue/ring_mutex_mpmc_queue_v3.hpp:71-92 | on the object: counted and asleep on an empty open queue, none on an empty closed one, else exactly the old front is removed and returned, at once or once the notification that its version's rule asks for is sent |
| RingObject.RingMutexMpmcQueue.RelockConsumer | ds/queue/ring_mutex_mpmc_queue_v3.hpp:75-77 | a woken consumer tests the predicate again: asleep and still counted on an empty open queue, none on an empty closed one, else exactly the old front is removed and returned or owed |
| RingObject.RingMutexMpmcQueue.RelockProducer | ds/queue/ring_mutex_mpmc_queue_v3.hpp:30-32 | a woken producer tests again with the value it came with: asleep and still counted, false on a closed queue, else appended and true |
| RingObject.RingMutexMpmcQueue.TryEmplace | ds/queue/ring_mutex_mpmc_queue_v2.hpp:43-56 | never sleeps: false and unchanged on a closed or full queue, else appended and true; version 2 wakes a consumer with the lock held, version 3 owes the notification |
| RingObject.RingMutexMpmcQueue.TryPop | ds/queue/ring_mutex_mpmc_queue_v2.hpp:74-83 | returns and removes exactly the front, or none on an empty queue, and wakes nobody |
| RingObject.RingMutexMpmcQueue.Close | ds/queue/ring_mutex_mpmc_queue_v2.hpp:85-92 | closes, changes no value, and owes both `notify_all`s |
| RingObject.RingMutexMpmcQueue.NotifyOne | ds/queue/ring_mutex_mpmc_queue_v3.hpp:44-47 | the notification wakes the chosen sleeper of the other side, and the call returns true, or exactly the value it took |
| RingObject.RingMutexMpmcQueue.NotifyAll | ds/queue/ring_mutex_mpmc_queue_v3.hpp:110-111 | the first broadcast of `close` leaves no consumer asleep and the second no producer, after which `close` has returned |
| RingOneCv.NextKeeps | ds/queue/ring_mutex_mpmc_queue_v1.hpp:26-89 | every step of version 1 keeps the values in order within the capacity and a `notify_all` pending whenever a sleeping consumer could run; producers too unless the step is `try_pop` |
| RingOneCvReturns.NextRefines | ds/queue/ring_mutex_mpmc_queue_v1.hpp:26-89 | version 1 at any capacity: every step of every thread is one step of the FIFO specification for that thread alone, so a push waits, returns true or returns false, and a pop waits, returns the front or returns none, exactly when the specification's does, also across sleeping, relocking and the notification sent last |
| RingOneCvReturns.RunsRefine | ds/queue/ring_mutex_mpmc_queue_v1.hpp:26-89 | version 1 at any capacity: every run is a run of the specification; the values recorded as pushed are those of the calls that returned true, and the values recorded as popped are those the calls returned |
| RingOneCvReturns.ReturnedInOrder | ds/queue/ring_mutex_mpmc_queue_v1.hpp:26-89 | version 1 at any capacity: from a new queue on, the values of the pushes that returned true are the values returned, in order, followed by the contents |
| RingOneCvReturns.CallOutcome | ds/queue/ring_mutex_mpmc_queue_v1.hpp:26-89 | version 1 at any capacity: one call over any run from its start on has either had no effect and waits, or has settled; a push has appended its value exactly if it returns true, a pop has removed exactly the value it returns, and a blocking push returns false only on a closed queue |
| RingOneCv.NobodyMissesTheBroadcast | ds/queue/ring_mutex_mpmc_queue_v1.hpp:26-89 | without `try_pop`, in every reachable state with no `notify_all` pending consumers sleep only on an empty open queue, producers only on a full open one, and never both, even if clients finish |
| RingOneCv.ConsumersNeverStrand | ds/queue/ring_mutex_mpmc_queue_v1.hpp:56-89 | a sleeping consumer that could run always has a `notify_all` to come, whatever is called |
| RingOneCv.ProducersNeverStrandIff | ds/queue/ring_mutex_mpmc_queue_v1.hpp:72-81 | for every capacity, producers are never stranded if and only if `try_pop` is not used |
| RingOneCvClient.CloseThenDrain | ds/queue/ring_mutex_mpmc_queue_v1.hpp:26-89 | version 1: if all pushes have returned when the queue is first closed, then whenever a `wait_pop` fails the multiset of the values that calls have returned is that of the values pushed, and no call returns another value afterwards |
| RingOneCvClient.FailedWaitPopReturnedAll | ds/queue/ring_mutex_mpmc_queue_v1.hpp:26-70 | whatever was called before, when a `wait_pop` fails all values ever accepted have been returned, in order |
| RingOneCvClient.FailedWaitPopSawTheEnd | ds/queue/ring_mutex_mpmc_queue_v1.hpp:56-61 | `wait_pop` fails if and only if at that instant the queue is closed and empty |
| RingOneCvClient.FiniteCallsFiniteRun | ds/queue/ring_mutex_mpmc_queue_v1.hpp:26-89 | among n threads, c calls and f spurious wakeups make at most (n + 4)c + 2f steps |
| RingOneCvObject.RingMutexMpmcQueueV1.Emplace | ds/queue/ring_mutex_mpmc_queue_v1.hpp:26-41 | on the object, entered by a call or after waking: asleep with its value on a full open queue, false and unchanged on a closed one, else appended and owing a `notify_all` and the result true |
| RingOneCvObject.RingMutexMpmcQueueV1.WaitPop | ds/queue/ring_mutex_mpmc_queue_v1.hpp:56-70 | on the object: asleep on an empty open queue, none on an empty closed one, else exactly the old front is removed and owed as the result with a `notify_all` |
| RingOneCvObject.RingMutexMpmcQueueV1.TryEmplace | ds/queue/ring_mutex_mpmc_queue_v1.hpp:44-54 | never sleeps: false and unchanged on a closed or full queue, else appended and true, with every sleeper of either kind woken under the lock |
| RingOneCvObject.RingMutexMpmcQueueV1.TryPop | ds/queue/ring_mutex_mpmc_queue_v1.hpp:72-81 | returns and removes exactly the front, or none on an empty queue, and wakes nobody |
| RingOneCvObject.RingMutexMpmcQueueV1.Close | ds/queue/ring_mutex_mpmc_queue_v1.hpp:83-89 | closes, changes no value, and owes a `notify_all` |
| RingOneCvObject.RingMutexMpmcQueueV1.NotifyAll | ds/queue/ring_mutex_mpmc_queue_v1.hpp:39-40 | the `notify_all` leaves nobody asleep, and the call returns what it owed |
| Spsc.NextInv | ds/spsc_bounded_queue.hpp:32-61 | every access of either thread keeps the order of caches and counters and says of every slot of the lap whether it is live and with which value |
| Spsc.NextRefines | ds/spsc_bounded_queue.hpp:32-61 | each access is a step of an uncached bounded FIFO: a push fails only when it is exactly full and a pop only when it is exactly empty, at the reload |
| Spsc.CachedQueueRefinesFifo | ds/spsc_bounded_queue.hpp:32-61 | under every interleaving `head_cache_ <= head_ <= tail_cache_ <= tail_ <= head_cache_ + capacity_`, the consumed sequence is a prefix of the produced one, no slot is overwritten while live or read while empty, and the run is one of the uncached bounded FIFO (that its calls return is WaitFree) |
| SpscWaitFree.WaitFree | ds/spsc_bounded_queue.hpp:32-61 | wait-freedom: from every reachable state, whatever both threads do, an unfinished push has returned after four more accesses of its thread and an unfinished pop after five, and until then the next one can be made |
| SpscWaitFree.PushReturns | ds/spsc_bounded_queue.hpp:32-45 | a push over any run from its call on: returned after four of its own accesses, false if and only if the queue was exactly full when it reloaded `head_`, and its value appended exactly if it returned true |
| SpscWaitFree.PopReturns | ds/spsc_bounded_queue.hpp:47-61 | a pop over any run from its call on: returned after five of its own accesses, none if and only if the queue was empty when it reloaded `tail_`, and the oldest value removed exactly if it is returned |
| SpscObject.WraparoundExact | ds/spsc_bounded_queue.hpp:33-56 | in every reachable state and for every power-of-two capacity up to 2^63, all full tests, empty tests and slot indices on 64-bit words agree with unbounded counters, also past 2^64 |
| SpscObject.SlotExact | ds/spsc_bounded_queue.hpp:86-88 | masking a wrapped counter gives the slot of the unwrapped one |
| SpscObject.SizeExactIff | ds/spsc_bounded_queue.hpp:69-73 | over all reachable states and all runs between the two loads, `size()` is the true difference of what it loads if and only if not both the producer and the consumer may run meanwhile |
| SpscObject.SizeBetweenLoads | ds/spsc_bounded_queue.hpp:69-73 | while either owning thread stands still between the loads, the result is also at most the capacity |
| SpscObject.SizeCanUnderflow | ds/spsc_bounded_queue.hpp:69-73 | for every capacity a run in which a third thread reads 2^64 - 1 |
| SpscObject.SpscBoundedQueue.constructor | ds/spsc_bounded_queue.hpp:16-19 | a new queue is empty with the least power-of-two capacity that is at least two and the request |
| SpscObject.SpscBoundedQueue.TestCachedHead | ds/spsc_bounded_queue.hpp:33-35 | the full test on words against the cached head decides as the counters do between reloading and constructing |
| SpscObject.SpscBoundedQueue.ReloadHead | ds/spsc_bounded_queue.hpp:36-39 | after the reload the push returns false on an exactly full queue and constructs its value on any other, and the contents stay |
| SpscObject.SpscBoundedQueue.Construct | ds/spsc_bounded_queue.hpp:42 | the value goes to the slot of the tail, which is empty |
| SpscObject.SpscBoundedQueue.StoreTail | ds/spsc_bounded_queue.hpp:43-44 | the wrapping store appends exactly this value to the contents and the push returns true |
| SpscObject.SpscBoundedQueue.TestCachedTail | ds/spsc_bounded_queue.hpp:48-49 | the empty test on words against the cached tail decides as the counters do |
| SpscObject.SpscBoundedQueue.ReloadTail | ds/spsc_bounded_queue.hpp:50-54 | after the reload the pop returns none on an empty queue and takes the value on any other, and the contents stay |
| SpscObject.SpscBoundedQueue.Take | ds/spsc_bounded_queue.hpp:56-57 | the value read is the front of the contents |
| SpscObject.SpscBoundedQueue.Destroy | ds/spsc_bounded_queue.hpp:58 | the slot of the head is left empty |
| SpscObject.SpscBoundedQueue.StoreHead | ds/spsc_bounded_queue.hpp:59-60 | the wrapping store gives exactly this slot back, removes the front of the contents, and the pop returns it |
| SpscObject.SpscBoundedQueue.Drain | ds/spsc_bounded_queue.hpp:90-97 | with both threads idle the destructor's loop destroys exactly the remaining values, oldest first, across wraparound, and leaves every slot empty |

## Left out

- Weak memory: acquire, release and relaxed orders are not distinguished; all accesses interleave.
- Exceptions thrown by constructors or assignments of `T`, move semantics, `std::launder`, alignment and padding. Storage is empty or holds a value.
- Version 2 of the atomic queue has the same protocol as version 1 with padded counters and cells, so it has no machine of its own.
- The internals and the fairness of `std::mutex`, `std::condition_variable` and `std::deque`. The class methods for the mutex queues are the critical sections and the notifications sent after unlocking; waking is a step of the machines.
- `ds/mutex_blocking_queue.hpp`, `ds/queue/mutex_deque_queue_v1.hpp`, `ds/queue/mutex_deque_queue_v2.hpp`: the same code as modelled queues.
- `empty`, `capacity` and the other getters; of the getters only SPSC `size` is modelled.
- Benchmarks, timing, payload tests and the external queues they compare with.
- Liveness under an endless run of spurious wakeups or spurious compare-and-swap failures.
- Versions that keep no waiting counter are modelled with one that no step of theirs reads.
- AtomicObject.BoundedAtomicMpmcQueue.LoadSequenceForPush: for words on different sides of 2^63 it follows the unbounded difference of the two signed readings; where that leaves the signed range C++ leaves the result undefined (DifStraddlingOverflows). Assumes fewer than 2^64 - capacity tickets, because beyond that the counters wrap and a compare-and-swap cannot tell a position from one 2^64 earlier.
- AtomicObject.BoundedAtomicMpmcQueue.LoadSequenceForPop: likewise.
- AtomicObject.BoundedAtomicMpmcQueue.WordsExact: assumes fewer than 2^64 - capacity tickets, because beyond that the counters wrap and a compare-and-swap cannot tell a position from one 2^64 earlier.
- AtomicObject.BoundedAtomicMpmcQueue.CasEnqueuePos: assumes fewer than 2^64 - capacity tickets, because beyond that the counters wrap and a compare-and-swap cannot tell a position from one 2^64 earlier.
- AtomicObject.BoundedAtomicMpmcQueue.CasDequeuePos: assumes fewer than 2^64 - capacity tickets, because beyond that the counters wrap and a compare-and-swap cannot tell a position from one 2^64 earlier.
- AtomicObject.BoundedAtomicMpmcQueue.PublishPush: assumes fewer than 2^64 - capacity tickets, because beyond that the counters wrap and a compare-and-swap cannot tell a position from one 2^64 earlier.
- AtomicObject.BoundedAtomicMpmcQueue.Release: assumes fewer than 2^64 - capacity tickets, because beyond that the counters wrap and a compare-and-swap cannot tell a position from one 2^64 earlier.
- AtomicObject.BoundedAtomicMpmcQueue.TryPush: states the whole operation while no other is in flight and within 2^63 tickets; under interference the steps, the invariant and Linearizable say what holds, and ExactUpToIff why the bound is where it is.
- AtomicObject.BoundedAtomicMpmcQueue.TryPop: likewise.
- AtomicObject.BoundedAtomicMpmcQueue.DrainRemaining: within 2^63 tickets and with no operation in flight, as in the destructor.
- Words.NormalizeCapacity: requests above 2^63 are excluded because the loop does not stop for them (RoundingStopsIff).
- WaitDrain.DrainsOut: without spurious wakeups, since a thread that keeps waking for no reason makes any number of steps.
- RingGuarantees.TwoSidedNoStranding: blocking calls only, because `try_push` and `try_pop` break it (RingExact says exactly where).
- RingDeadlock.LoopingClientsNeverDeadlock: clients that keep calling until `close`, because version 3 can deadlock otherwise (BlockingCallsNeverDeadlockIff says exactly when).
- RingOneCv.NobodyMissesTheBroadcast: without `try_pop`, which wakes nobody (ProducersNeverStrandIff).
- WaitGuarantees.StrandingRun: one run with two consumers asleep at the start; the general statement is NeverStrandsIff.
- SpscObject.SpscBoundedQueue.Drain: called with both threads idle, as in the destructor.
- RingClient.CloseThenDrain: before the first `close` the clients use `push`, `wait_pop` and `try_pop`; values of a `try_push` that fails are not pushed values (FailedWaitPopReturnedAll has no such restriction).
- RingOneCvClient.CloseThenDrain: likewise.
