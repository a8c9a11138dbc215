# Verified models of the device tree's concurrent services

Dafny models of the parts of the repository whose correctness depends on how
several functions, and often several threads, work together:

* the **GPS timer service** (`gps/utils`): timers that clients start and stop on
  any thread, kept in a pointer-based heap by a message thread and mirrored, the
  soonest one only, into a kernel timerfd that a poll thread turns back into
  messages; with the heap, the linked list, the blocking message queue and the
  thread wrapper it is built on;
* the **RIL event loop** (`libril/ril_event.cpp`): circular lists of timers and of
  pending events, and a table of watched descriptors mirrored into an fd set;
* two **RIL protocols**: the counted wake lock with its cancellable timeouts
  (`libril/ril.cpp`), and the dropping of a dead client's callbacks under a
  read-write lock (`libril/ril_service.cpp`);
* the **location adapter registry** (`gps/core/LocApiBase.cpp`): an array without
  holes, and the event mask the engine is opened with.

Code that changes objects in place is modelled by classes whose methods follow the
source; each method is tied to a function on values, or states its new state
outright, and the lemmas are about those functions. What several threads do is
modelled by a transition system: a state, the steps a thread can take, and `Run`.
Locks, condition variables, epoll, timerfd, select and the clock appear as fields,
step parameters or method parameters. An access to freed memory is an outcome of
its own, `Fault`: the theorems exclude it, or say exactly when it happens.

| files | source | what they hold |
|---|---|---|
| `HeapSpec`, `LocHeap` | `LocHeap.cpp` | the heap on values with its theorems; the heap on pointers |
| `Timespec` | `LocTimer.cpp` | deadlines and the ranking of two of them in a C `int` |
| `LocTimerContainer` | `LocTimer.cpp` | what one message does to a heap and its timerfd |
| `LocTimer`, `LocTimerInvariant`, `LocTimerClients`, `LocTimerThreads` | `LocTimer.cpp`, `LocSharedLock.h`, `MsgTask.cpp` | the service as a transition system; its invariant; the preservation proofs |
| `LocTimerCalls` | `LocTimer.cpp` | what each call of a client and of the poll thread does |
| `LocTimerTheorems`, `LocTimerPlaces` | `LocTimer.cpp` | what holds in every reachable state; where a running timer is |
| `LocTimerProgress`, `LocTimerLimits` | `LocTimer.cpp` | a due start is called back; what does not hold, and exactly when it does |
| `LinkedList`, `MsgQ`, `MsgQueue` | `linked_list.c`, `msg_q.c` | the list; the queue as a transition system; the queue's code over the list |
| `LocThread` | `LocThread.cpp` | the life of a thread delegate held by two threads |
| `Timeval`, `RilEvent`, `RilEventLists`, `RilWatchTable`, `RilEventLoop` | `ril_event.cpp` | time arithmetic; circular lists; timers and pending events; watched descriptors; a turn of the loop |
| `WakeLock` | `ril.cpp` | the wake lock and its timeouts |
| `RilCallbacks` | `ril_service.cpp` | the callback generations of one SIM slot |
| `LocApiBase` | `LocApiBase.cpp` | the adapter registry |

## Where the code is not what its comments say

The models follow the code.

* `LocTimer.cpp:353-354` says that an expire pops "until the top node's timeout is
  in the future", but the first pop asks no question (line 367):
  `LocTimerLimits.ExpirePopsEarlyIff` gives the exact condition for a message to pop a
  timer early, and `ATimerExpiresEarly` a run in which one does.
* `LocTimer.cpp:288-294` would disarm the timerfd when the heap becomes empty. No
  run gets there: `LocTimerTheorems.EmptiedHeapNeverDisarms`.
* `LocTimer.cpp:337-338` says that a removal tells the kernel when the timer removed was
  not the soonest; line 339 tells it when it was: `LocTimerContainer.LocTimerContainer.TakeOut`.
* `LocTimer.cpp:526-530` calls the client back if the stop returned true, but the
  client was read without its lock and may have been restarted in between:
  `LocTimerLimits.ExpiryEndsItsOwnIff` and `ACallbackForARestartedTimer`. Or deleted:
  `DeletionFaultsIff` and `ADeletedClientIsUsed`.
* `LocHeap.h` says that `remove` looks for a node that ranks the same; the code
  looks for the object itself (`LocHeap.cpp:173`).
* `LocTimer.cpp:503-517` ranks by a difference cut down to `int`:
  `Timespec.RanksByTimeIffWindowFits` says on which clock windows that is right.
* `ril_event.cpp:167` says "see if now >= ev->timeout", but the test is strict: a
  timer does not fire at its very deadline (`RilEventLists.CountBefore`).
* `ril.cpp:359-363` compares and clears `s_last_wake_timeout_info` and frees the timeout
  without the mutex that every other access is under. So a grab or a release that has
  found the pointer not null (`ril.cpp:676`, `ril.cpp:700`) may write through null or to
  freed memory: `WakeLock.WriteFaultsIffPulledAway` says exactly when,
  `WritesThroughNull` and `WritesToFreedTimeout` give the runs. And the timeout of a
  newer grab may be lost track of: `GuardedUnless` gives the one step that does so, and
  `TwoTimeoutsArmed` a run with it.
* `LocApiBase.cpp:117` reads the mask and opens the engine with it in two calls, while
  `removeAdapter` closes the engine on another thread without a lock:
  `LocApiBase.LocApiBase.RemoveAdapter` says exactly which removals leave the engine open for
  nobody, and `ALateOpen` is a run with one.
* `LocThread.h` leaves the runnable to the client when `start` returns false, but a
  thread that is over early makes `start` return false as well, after deleting it:
  `LocThread.StartFailsIff` and `FailedStartMayHaveRun`. And it promises that a runnable
  whose thread has started is deleted; it is if and only if the thread reads it before it
  is cleared: `RunnableDeletedIff` and `AStoppedRunnableLeaks`.

## Model

| member | source | states |
|---|---|---|
| HeapSpec.PushKeepsHeap | gps/utils/LocHeap.cpp:101-124 | push keeps heap order and the recorded size right at every node |
| HeapSpec.PushAddsOne | gps/utils/LocHeap.cpp:107-124 | push adds exactly the pushed element to the contents |
| HeapSpec.PushTop | gps/utils/LocHeap.cpp:107-111 | the new top is the pushed element if that outranks the old top, else the old top |
| HeapSpec.PopTakesTop | gps/utils/LocHeap.cpp:134-164 | pop takes exactly the root's element out of the contents, although it is a leaf node that goes |
| HeapSpec.PopKeepsHeap | gps/utils/LocHeap.cpp:134-164 | pop keeps heap order and sizes |
| HeapSpec.TopOutranks | gps/utils/LocHeap.h:66-82 | nothing in a heap outranks its top |
| HeapSpec.RemoveExact | gps/utils/LocHeap.cpp:166-193 | remove finds an object if and only if it is in the heap, despite skipping subtrees whose top it outranks, and takes out it alone |
| HeapSpec.RemoveKeepsHeap | gps/utils/LocHeap.cpp:170-193 | remove keeps heap order and sizes |
| HeapSpec.RemoveKeepsTop | gps/utils/LocHeap.cpp:170-193 | removing something else than the top leaves the top in place |
| HeapSpec.CheckNodesIffHeap | gps/utils/LocHeap.cpp:195-220 | checkNodes answers true if and only if order and sizes are right at every node |
| HeapSpec.PushAllBalanced | gps/utils/LocHeap.cpp:101-124 | pushes alone keep the sizes of siblings within one of each other, everywhere |
| HeapSpec.PushAllIsShallow | gps/utils/LocHeap.cpp:101-124 | a heap built by pushes of height h holds at least 2^(h-1) elements |
| HeapSpec.HeapSort | gps/utils/LocHeap.cpp:322-349 | pushing any sequence and popping until null gives a permutation of it in rank order |
| HeapSpec.PopAllSorts | gps/utils/LocHeap.cpp:347-349 | popping a heap until null gives its contents in non-increasing rank |
| LocHeap.LocHeapNode.Swap | gps/utils/LocHeap.cpp:88-92 | two nodes exchange their data and nothing else |
| LocHeap.LocHeapNode.Push | gps/utils/LocHeap.cpp:107-124 | on the pointers: the tree becomes what HeapSpec.Push says, the nodes gain the one handed in |
| LocHeap.LocHeapNode.Drop | gps/utils/LocHeap.cpp:113-123 | the outranked node goes into the empty or smaller subtree, left first |
| LocHeap.LocHeapNode.Pop | gps/utils/LocHeap.cpp:134-164 | on the pointers: the tree becomes what HeapSpec.Pop says; the node unlinked carries the top's data and has no children |
| LocHeap.LocHeapNode.Remove | gps/utils/LocHeap.cpp:170-193 | on the pointers: the tree becomes what HeapSpec.Remove says; the node unlinked, if any, carries the object and has no children |
| LocHeap.LocHeapNode.CheckNodes | gps/utils/LocHeap.cpp:197-220 | true if and only if the whole tree is a heap with right sizes |
| LocHeap.LocHeap.Push | gps/utils/LocHeap.cpp:228-235 | the contents grow by the element, in a new node |
| LocHeap.LocHeap.Peek | gps/utils/LocHeap.cpp:237-243 | an element nothing outranks; null if and only if the heap is empty |
| LocHeap.LocHeap.Pop | gps/utils/LocHeap.cpp:245-254 | returns and takes out an element nothing outranks; null if and only if the heap was empty |
| LocHeap.LocHeap.Remove | gps/utils/LocHeap.cpp:256-267 | returns the object if it was in the heap and takes out it alone; null, and nothing changed, if it was not |
| Timespec.DeadlineIsExact | gps/utils/LocTimer.cpp:547-558 | start's deadline is normalised and exactly the given milliseconds away; the intermediate nanoseconds are at most 1,998,999,999 |
| Timespec.DeadlineNs | gps/utils/LocTimer.cpp:547-558 | the deadline the heap is keyed with is the clock reading plus exactly the milliseconds asked for, in nanoseconds |
| Timespec.RanksByTimeWhenClose | gps/utils/LocTimer.cpp:503-517 | with seconds whose difference fits an int, outRanks holds if and only if the time is strictly earlier |
| Timespec.RanksByTimeIffWindowFits | gps/utils/LocTimer.cpp:503-517 | ranking is by time on all of a clock window if and only if the window is under 2^31 seconds wide |
| Timespec.RankingWraps | gps/utils/LocTimer.cpp:503-517 | two times just over 2^31 seconds apart that are ranked the wrong way round |
| Timespec.DeadlinesRankAsKeys | gps/utils/LocTimer.cpp:503-558 | deadlines made of 32-bit milliseconds, up to 50 days short of 68 years on the clock, outrank each other exactly as the unbounded keys do that the heap is modelled with |
| Timespec.RanksIsStrictWeakOrder | gps/utils/LocTimer.cpp:503-517 | within such a window outRanks is the strict weak order that a heap needs |
| Timespec.WrapperDeadlineExactIff | gps/utils/LocTimer.cpp:615-629 | the C interface's 64-bit milliseconds are cut down to 32 bits, which gives the right deadline if and only if they fit |
| LocTimerContainer.LocTimerContainer.UpdateSoonestTime | gps/utils/LocTimer.cpp:281-306 | with a top sooner than the prior one, or no prior one, the fd is polled and armed at exactly the top's time; with an emptied heap it is neither; otherwise both are as before |
| LocTimerContainer.ToldIsReached | gps/utils/LocTimer.cpp:296-304 | the message thread's steps take the container where those calls do: the epoll set first, then the time |
| LocTimerContainer.LocTimerContainer.ProcPush | gps/utils/LocTimer.cpp:310-325 | adds the timer; if it is sooner than every other the fd is polled and armed at its time, otherwise nothing changes in the kernel |
| LocTimerContainer.LocTimerContainer.TakeOut | gps/utils/LocTimer.cpp:335-339 | takes out that timer alone, and says whether it was the soonest one |
| LocTimerContainer.LocTimerContainer.ProcRemove | gps/utils/LocTimer.cpp:328-350 | takes out that timer alone; if it was the top and others are left, the fd is polled and armed at the time of one that none is sooner than, otherwise nothing changes in the kernel |
| LocTimerContainer.LocTimerContainer.PopIfOutRanks | gps/utils/LocTimer.cpp:383-390 | pops the soonest timer unless every timer is strictly later than now |
| LocTimerContainer.LocTimerContainer.PopExpired | gps/utils/LocTimer.cpp:367-373 | the popped timers come in the order of their times and all but the first are due; what stays is strictly later than now |
| LocTimerContainer.LocTimerContainer.ProcExpire | gps/utils/LocTimer.cpp:355-376 | an expire takes exactly the soonest timer and every other that is due, in order of time; what stays is strictly later, and the fd is polled and armed at the soonest of it |
| LocTimerContainer.BatchGrows | gps/utils/LocTimer.cpp:367-373 | one more pop keeps the batch ordered, due and complete, and leaves less in the heap |
| LocTimerCalls.NewClientGives | gps/utils/LocTimer.cpp:536-537 | a new client has no timer and a lock it alone holds |
| LocTimerCalls.StartGives | gps/utils/LocTimer.cpp:547-564 | a start of a client without a timer gives it one due exactly the milliseconds asked for from now, in the container asked for, shares the lock with it, and queues its push there |
| LocTimerCalls.StartRefused | gps/utils/LocTimer.cpp:547-564 | a start of a client with a timer changes nothing |
| LocTimerCalls.StopGives | gps/utils/LocTimer.cpp:485-580 | a stop takes the timer from client and container, queues its removal from that container, and ends that start and no other |
| LocTimerCalls.StopRefused | gps/utils/LocTimer.cpp:567-580 | a stop without a timer changes nothing |
| LocTimerCalls.DeleteGives | gps/utils/LocTimer.cpp:539-545 | deleting a client stops its timer and drops its share of the lock |
| LocTimerCalls.WakesUp | gps/utils/LocTimer.cpp:446-462 | the poll thread wakes up for exactly those containers that are polled and whose time has come |
| LocTimerCalls.PollSteps | gps/utils/LocTimer.cpp:377-380 | for each of them it disarms the fd, then takes it off the epoll set, then sends an expire, each a step of its own |
| LocTimerCalls.RecordsStay | gps/utils/LocTimer.cpp:547-564 | when a start was made, with what milliseconds and container, stays on record through every step |
| LocTimerTheorems.NextInv | gps/utils/LocTimer.cpp:281-580 | every step of clients, message thread and poll thread keeps the invariant and touches no freed object, given that no client is deleted while the expiry uses it (that step is disabled) |
| LocTimerTheorems.NeverFaults | gps/utils/LocTimer.cpp:310-381 | no run touches a freed delegate, client or lock, given that no client is deleted while the expiry uses it |
| LocTimerTheorems.NoLostExpiry | gps/utils/LocTimer.cpp:281-381 | while a heap holds a timer, an expire is on its way, or the soonest time is about to be written, or the fd is polled and armed at exactly the soonest time |
| LocTimerTheorems.NoDanglingDelegate | gps/utils/LocTimer.cpp:310-350 | no heap, queued message, client or running message refers to a deleted delegate |
| LocTimerTheorems.RemovedExactlyOnce | gps/utils/LocTimer.cpp:485-501 | a live delegate is owned by its client and has no remove pending, or has lost it and has exactly one |
| LocTimerTheorems.LocksCountHolders | gps/utils/LocSharedLock.h:48-52 | a shared lock counts its live client plus its live delegates, and lives as long as one of them |
| LocTimerTheorems.OneWinnerPerStart | gps/utils/LocTimer.cpp:520-580 | a start is ended by at most one stop returning true and calls back at most once, only when the expiry's own stop won |
| LocTimerTheorems.ClientAndTimerAgree | gps/utils/LocTimer.cpp:475-501 | delegate.mClient is the client if and only if client.mTimer is the delegate |
| LocTimerTheorems.EmptiedHeapNeverDisarms | gps/utils/LocTimer.cpp:288-294 | the branch for an emptied heap is never taken |
| LocTimerPlaces.NextKept | gps/utils/LocTimer.cpp:310-580 | every step of every thread keeps a running timer in its place: in its heap, in a queued push, or popped |
| LocTimerPlaces.RunningTimerHasPlace | gps/utils/LocTimer.cpp:310-580 | in every reachable state a delegate with a client is in its container's heap, or its push is queued, or the message thread has popped it and is about to stop its client |
| LocTimerPlaces.NoLostStart | gps/utils/LocTimer.cpp:281-580 | a start that no stop has ended has a running timer due at the time of the start plus the milliseconds it asked for, which is about to be pushed into the container it asked for, or popped, or in that heap with an expire on its way or the kernel armed, or about to be, no later than that |
| LocTimerProgress.DueStartIsCalledBack | gps/utils/LocTimer.cpp:281-580 | from every reachable state, steps of the message thread and the poll thread alone lead to one in which a start that is not stopped and whose time has come has been called back |
| LocTimerProgress.RestMeansCalledBack | gps/utils/LocTimer.cpp:281-580 | and on every path of those two threads that ends with nothing left for them to do, it has been stopped once and called back once |
| LocTimerProgress.WinnerCallsBack | gps/utils/LocTimer.cpp:520-532 | in every reachable state a start that the expiry's own stop has ended has been called back, or its callback is the message thread's next move |
| LocTimerProgress.StaysOnItsWay | gps/utils/LocTimer.cpp:355-390 | no step of the two threads loses a start: it runs, or is about to be called back, or has been |
| LocTimerProgress.ProceedMoves | gps/utils/LocTimer.cpp:355-390 | every move inside a message brings its end nearer, and an expire's loop is only left with nothing due in the heap |
| LocTimerLimits.ExpirePopsEarlyIff | gps/utils/LocTimer.cpp:360-374 | a whole expire message, interleaved with anything, pops a timer before its time if and only if, when it is received, the heap holds a timer and every one in it is later than the clock; it then pops that one only |
| LocTimerLimits.ATimerExpiresEarly | gps/utils/LocTimer.cpp:360-374 | a run in which a delegate is popped 999 ms early |
| LocTimerLimits.ExpiryEndsItsOwnIff | gps/utils/LocTimer.cpp:520-532 | the stop inside an expiry ends the popped timer's start if and only if the client still runs that timer |
| LocTimerLimits.ACallbackForARestartedTimer | gps/utils/LocTimer.cpp:520-532 | a run in which a client is called back at once for a start of another second |
| LocTimerLimits.DeletionFaultsIff | gps/utils/LocTimer.cpp:520-545 | deleting a client makes the message thread touch freed memory if and only if the expiry holds its bare pointer |
| LocTimerLimits.ADeletedClientIsUsed | gps/utils/LocTimer.cpp:520-545 | a run after which deleting a client makes the message thread's next move touch freed memory |
| LinkedList.LinkedList.Add | gps/utils/linked_list.c:110-154 | prepends the item; null data and failed allocation are reported and change nothing |
| LinkedList.LinkedList.Remove | gps/utils/linked_list.c:162-203 | takes the last item; an empty list is reported |
| LinkedList.LinkedList.Empty | gps/utils/linked_list.c:211-223 | true if and only if the list holds nothing |
| LinkedList.LinkedList.Flush | gps/utils/linked_list.c:230-259 | empties the list, calling the deallocators from head to tail |
| LinkedList.DeallocatedOnceEach | gps/utils/linked_list.c:241-254 | each item that came with a deallocator is deallocated exactly once, the others never |
| LinkedList.DeallocatedInOrder | gps/utils/linked_list.c:241-254 | the items are deallocated in the order of the list |
| LinkedList.LinkedList.Search | gps/utils/linked_list.c:267-327 | finds the first match from the head; removing takes it alone, keeps the others' order and deallocates it only when it was not copied out |
| LinkedList.LinkedList.Unlink | gps/utils/linked_list.c:297-309 | next, prev, head and tail stay consistent around the removed element |
| LinkedList.FirstMatch | gps/utils/linked_list.c:290-326 | the place of the first equal item, past the end when there is none |
| MsgQ.SndGives | gps/utils/msg_q.c:185-219 | which error a send returns; the message is accepted, and put at the head, if and only if that is success; past the checks one sleeper is woken, even if there was no memory |
| MsgQ.RcvGives | gps/utils/msg_q.c:228-269 | a receive takes the message at the tail and returns success, or goes to sleep on an empty list, or after unblock is refused |
| MsgQ.ResumeGives | gps/utils/msg_q.c:251-269 | a woken receiver takes the message at the tail even after unblock; on an empty list it goes back to sleep, or after unblock returns |
| MsgQ.FlushGives | gps/utils/msg_q.c:276-296 | every message in the list is lost, and nothing else changes |
| MsgQ.UnblockGives | gps/utils/msg_q.c:306-337 | all sleepers are woken; a second unblock is refused |
| MsgQ.SpuriousWakeGives | gps/utils/msg_q.c:251-259 | a sleeper, and only a sleeper, may wake without a signal |
| MsgQ.NextInOrder | gps/utils/msg_q.c:185-337 | every step keeps: accepted = messages gone, then messages in the list from its tail |
| MsgQ.FirstInFirstOut | gps/utils/msg_q.c:185-269 | the i-th message to leave is the i-th accepted; none is lost, doubled or overtaken |
| MsgQ.OnlyFlushLoses | gps/utils/msg_q.c:276-296 | without a flush every message that leaves the queue is received |
| MsgQ.NoReceiverSleepsThroughAMessage | gps/utils/msg_q.c:228-269 | while a receiver is asleep, at least as many others are woken and on their way as messages are queued; none sleeps after unblock |
| MsgQ.WokenThreadsDrain | gps/utils/msg_q.c:251-259 | letting the woken receivers run takes one message each, and empties the queue if anyone sleeps |
| MsgQ.NothingAfterUnblock | gps/utils/msg_q.c:306-337 | after unblock nothing more is accepted, nobody falls asleep, and only receivers already inside receive |
| MsgQueue.MsgQueue.Snd | gps/utils/msg_q.c:185-219 | the code over the linked list takes exactly the Snd step; on success, and only then, the message is at the head of the list and on record as accepted; the error says which check failed |
| MsgQueue.MsgQueue.Rcv | gps/utils/msg_q.c:228-269 | the code takes exactly the Rcv step: it returns the oldest message, or sleeps on an empty list, or is refused after unblock |
| MsgQueue.MsgQueue.Resume | gps/utils/msg_q.c:251-269 | back from the condition variable, the code takes exactly the Resume step: the oldest message, sleep again, or after unblock nothing |
| MsgQueue.MsgQueue.Flush | gps/utils/msg_q.c:276-296 | the code takes exactly the Flush step and deallocates what was in the list |
| MsgQueue.MsgQueue.Unblock | gps/utils/msg_q.c:306-337 | the code takes exactly the Unblock step: all sleepers woken, a second one refused |
| LocThread.NextInv | gps/utils/LocThread.cpp:65-200 | every step keeps: the count is the number of holders, and the delegate is freed once they are gone |
| LocThread.NeverTouchedOnceFreed | gps/utils/LocThread.cpp:128-200 | no interleaving of parent and thread touches the delegate after it is freed, or frees it twice |
| LocThread.FreedByTheLastHolder | gps/utils/LocThread.cpp:151-171 | the delegate is freed if and only if both have let go (or the thread never started), joinable or detached |
| LocThread.JoiningParentFrees | gps/utils/LocThread.cpp:128-171 | once pthread_join has returned the parent holds the last share, and the delegate is freed exactly when the parent has left |
| LocThread.StopClears | gps/utils/LocThread.cpp:128-144 | stop clears the runnable; giving the thread up does so only when it is joinable, and leaves a detached one running |
| LocThread.StoppedThreadNeverRuns | gps/utils/LocThread.cpp:128-200 | a thread that is stopped before it has read the runnable never runs it, in whatever interleaving, nor deletes it |
| LocThread.RunnableDeletedIff | gps/utils/LocThread.cpp:174-200 | over every run at whose end the thread is over, it has deleted its runnable if and only if it read it before anyone had cleared it |
| LocThread.AStoppedRunnableLeaks | gps/utils/LocThread.cpp:128-200 | a run in which start succeeds, stop comes first, and the runnable is neither run nor deleted |
| LocThread.StopOutlastsAJoinableThread | gps/utils/LocThread.cpp:128-144 | stopping a joinable thread, or giving it up, does not get past the join before the thread is over |
| LocThread.EveryLifeEnds | gps/utils/LocThread.cpp:65-200 | from every state that parent and thread can be in, their own moves lead to the delegate being freed |
| LocThread.StartFailsIff | gps/utils/LocThread.cpp:109-121 | start fails if and only if creation failed or the thread is over before create() looks |
| LocThread.FailedStartMayHaveRun | gps/utils/LocThread.cpp:109-121 | a run in which start fails although the runnable ran and was deleted |
| Timeval.BeforeIsEarlier | libril/ril_event.cpp:48-53 | on normalised values timercmp compares the times they stand for |
| Timeval.SubThenAdd | libril/ril_event.cpp:36-66 | timeradd and timersub are exact on normalised values, and adding a difference back restores the time |
| RilEvent.AddToList | libril/ril_event.cpp:112-119 | links the event in just before the given node of a circular list, which stays linked both ways |
| RilEvent.RemoveFromList | libril/ril_event.cpp:121-131 | unlinks that event alone and nulls its links |
| RilEventLists.CountBefore | libril/ril_event.cpp:303-307 | how many events from the front are due strictly before a time |
| RilEventLists.SortedSplits | libril/ril_event.cpp:169-177 | in a sorted list the events due strictly before a time are exactly those in front |
| RilEventLists.InsertKeepsSorted | libril/ril_event.cpp:302-308 | inserting where the walk stops keeps the list sorted |
| RilEventLists.EventLists.RilTimerAdd | libril/ril_event.cpp:286-312 | the timer list stays sorted, a new timer goes ahead of equal deadlines, its descriptor is made invalid; no time given does nothing |
| RilEventLists.EventLists.ProcessTimeouts | libril/ril_event.cpp:158-180 | moves exactly the timers due strictly before now, in order, behind what is pending; the others stay in place |
| RilEventLists.EventLists.FireFirst | libril/ril_event.cpp:205-211 | takes the first pending event off the list, nulls its links and records its call; the others stay in order |
| RilEventLists.EventLists.CalcNextTimeout | libril/ril_event.cpp:215-238 | no timer: sleep for ever; else sleep until the first is due, or not at all |
| RilWatchTable.FirstFree | libril/ril_event.cpp:269-271 | the first free slot, past the end when the table is full |
| RilWatchTable.WatchTable.RilEventAdd | libril/ril_event.cpp:265-283 | watches in the first free slot, nothing when full; readFds stays the set of watched descriptors and nfds one more than the largest |
| RilWatchTable.WatchTable.RilEventDel | libril/ril_event.cpp:315-329 | clears just that event's slot and descriptor; one not watched is left alone |
| RilWatchTable.WatchTable.RemoveWatch | libril/ril_event.cpp:134-156 | keeps readFds, nfds and the events' indices exact while a slot is cleared |
| RilWatchTable.WatchTable.LargestFd | libril/ril_event.cpp:142-152 | the largest watched descriptor, 0 when there is none |
| RilEventLoop.ReadySlotsAreFirst | libril/ril_event.cpp:187-196 | the slots taken are the first n whose descriptor is ready: they increase, and a ready slot left out comes after all of them, n of them being taken then; the events taken are theirs |
| RilEventLoop.NoReadySlotLeftOut | libril/ril_event.cpp:187-196 | with a count no smaller than the number of ready descriptors, every ready slot is taken |
| RilEventLoop.AfterReadyClears | libril/ril_event.cpp:187-196 | of the slots taken those whose event is not persistent are cleared; no other slot changes |
| RilEventLoop.FirstReadyInOrder | libril/ril_event.cpp:187-196 | the k-th event taken is the one in the k-th of the slots taken, which increase, and its descriptor is ready |
| RilEventLoop.FirstReadyCount | libril/ril_event.cpp:187-196 | no more events are taken than select has counted |
| RilEventLoop.RilEventLoop.ProcessReadReadies | libril/ril_event.cpp:182-200 | the first n ready events, in slot order, go on the pending list; those not persistent leave the table |
| RilEventLoop.RilEventLoop.FirePending | libril/ril_event.cpp:202-213 | fires exactly what was pending, in order, and leaves nothing pending, although the callbacks add timers, watch events and stop watching others meanwhile |
| RilEventLoop.RilEventLoop.Act | libril/ril_event.cpp:265-329 | what one action of a callback does: a new timer ahead of equal deadlines, a new watch in the first free slot, or one slot cleared; nothing else in lists and table changes |
| RilEventLoop.RilEventLoop.Turn | libril/ril_event.cpp:366-383 | whatever the callbacks start and stop, a turn fires, each exactly once, first the timers due before now, in order, then the events of the first n ready slots, in slot order, none left out if the count covers them; nothing is pending after it; a failed select fires and changes nothing; if no callback acts, the other timers stay and only slots of one-shot events taken are cleared |
| RilEventLoop.RilEventLoop.NewEvent | libril/ril_event.cpp:252-262 | a new event, in no list and in no slot; the loop's invariant stands |
| RilEventLoop.RilEventLoop.AddTimer | libril/ril_event.cpp:286-312 | keeps the loop's whole invariant, watch table included, between turns and in the middle of the callbacks; the timer goes in ahead of equal deadlines |
| RilEventLoop.RilEventLoop.AddWatch | libril/ril_event.cpp:265-283 | keeps the loop's whole invariant, between turns and in the middle of the callbacks; the event goes in the first free slot |
| RilEventLoop.RilEventLoop.Delete | libril/ril_event.cpp:315-329 | keeps the loop's whole invariant, between turns and in the middle of the callbacks; only that event's slot is cleared |
| WakeLock.NoDanglingTimeout | libril/ril.cpp:350-364 | in no run, whoever is in the middle of what, does s_last_wake_timeout_info point to a freed timeout; when not null it is the latest grab's |
| WakeLock.FaultsOnlyIfPulledAway | libril/ril.cpp:350-364 | a run writes through null or to a freed timeout only if the unlocked tail has cleared the pointer or freed the timeout under a holder between its test and its write |
| WakeLock.WriteFaultsIffPulledAway | libril/ril.cpp:676-702 | for every run that leaves a holder between test and write: its write faults if and only if the tail has done so |
| WakeLock.PulledAwayIsFinal | libril/ril.cpp:676-702 | a holder it was done to never gets past its write |
| WakeLock.DoomedByPull | libril/ril.cpp:350-364 | in each step: the holder's write comes to be doomed by just the tail's clearing between test and load, or its freeing of the loaded timeout |
| WakeLock.WritesThroughNull | libril/ril.cpp:676-702 | a run of a grab, and one of a release, that write through null |
| WakeLock.WritesToFreedTimeout | libril/ril.cpp:676-702 | a run of a grab, and one of a release, that write to a freed timeout |
| WakeLock.HeldIffCountedUnless | libril/ril.cpp:662-733 | each step keeps "held iff the count is positive" if and only if it is not a grab without memory while the lock is held |
| WakeLock.RunHeldIffCounted | libril/ril.cpp:662-733 | over every run without such a grab the lock is held if and only if the count is positive |
| WakeLock.StepCounts | libril/ril.cpp:661-733 | what each step does to count and lock: a grab counts up and holds, a release counts down and lets go at the last, a timeout not cancelled drops both, all others leave them |
| WakeLock.CountIsBalance | libril/ril.cpp:661-733 | over every run in which no timeout drops the lock, and nobody releases what was not grabbed, the count changes by grabs less releases, whatever goes on in between |
| WakeLock.HeldIffMoreGrabs | libril/ril.cpp:661-733 | from the beginning, over such a run without a failed grab of a held lock, it is held if and only if there were more grabs than releases |
| WakeLock.GrabsThenReleases | libril/ril.cpp:661-711 | n grabs and m <= n releases, undisturbed, go through and leave the count n - m, held if and only if m < n |
| WakeLock.GuardedUnless | libril/ril.cpp:350-364 | each step keeps track of the armed timeout if and only if it is not the unlocked clearing of a newer grab's timeout that nobody has loaded yet |
| WakeLock.HeldLockIsGuarded | libril/ril.cpp:662-733 | over every run without such a clearing, while the lock is held and nobody is inside a grab or release, exactly one timeout is uncancelled and it is the latest grab's |
| WakeLock.TwoTimeoutsArmed | libril/ril.cpp:350-364 | a run that does clear one, after which two timeouts are armed |
| WakeLock.RilWakeLock.GrabPartialWakeLock | libril/ril.cpp:661-686 | undisturbed, the code takes exactly the steps of a grab: count up, hold, cancel the older timeout, remember the new one; without memory it lets go of the lock and does nothing else |
| WakeLock.RilWakeLock.ReleaseWakeLock | libril/ril.cpp:688-711 | undisturbed, the code takes exactly the steps of a release: count down, and at the last grab let go of the lock and cancel the timeout |
| WakeLock.RilWakeLock.UserTimerCallback | libril/ril.cpp:350-364 | undisturbed, it runs the timeout's steps: the lock goes unless the timeout was cancelled, and the timeout is freed |
| WakeLock.RilWakeLock.WakeTimeoutCallback | libril/ril.cpp:716-733 | drops lock and count unless the timeout was cancelled |
| RilCallbacks.RegistersWhatItIsGiven | libril/ril_service.cpp:817-835 | a registration installs the very callbacks handed in, and as those of version 1.1 if and only if it is for the radio and both can be cast; it counts up, and leaves the other service alone |
| RilCallbacks.RegistrationGoesThrough | libril/ril_service.cpp:817-840 | with nobody else about, a registration goes through and gives the lock back |
| RilCallbacks.FailureGoesThrough | libril/ril_service.cpp:767-810 | a caller whose call fails, nobody else holding the lock, drops all four callbacks and ends up holding the lock for reading, whichever way it held it before |
| RilCallbacks.DropsOnlyWhatFailed | libril/ril_service.cpp:767-806 | the write-locked section drops exactly the callbacks the failed call was made on, or nothing; the failed generation is gone after it, the other service untouched |
| RilCallbacks.EachGenerationDroppedOnce | libril/ril_service.cpp:786-797 | no generation is dropped twice, however many calls fail on it |
| RilCallbacks.ReturnsHoldingTheReadLock | libril/ril_service.cpp:803-810 | the caller gets a read lock back, whichever lock it held before, and by then the failed generation is not installed |
| RilCallbacks.NewCallbacksStay | libril/ril_service.cpp:775-801 | callbacks that were registered stay, whatever older failures are still being dealt with, until others are registered or a call on them fails |
| RilCallbacks.VersionsGoTogether | libril/ril_service.cpp:826-833 | in every reachable state the version 1.1 callbacks are both set, to the registered ones, or both null |
| RilCallbacks.WriterIsAlone | libril/ril_service.cpp:767-806 | in every reachable state a thread that holds the slot's lock for writing is its only holder |
| RilCallbacks.NextInformed | libril/ril_service.cpp:767-844 | every step keeps what a thread's noted counter says about the installed callbacks |
| LocApiBase.LocApiBase.AddAdapter | gps/core/LocApiBase.cpp:159-168 | appends and sends an open, unless already there or full; the array stays compact and duplicate-free |
| LocApiBase.LocApiBase.RemoveAdapter | gps/core/LocApiBase.cpp:170-206 | that adapter goes, the last takes its place; an open is sent, or the engine closed when none is left; an engine in sync stays so if and only if this does not empty the registry while the last message has read a mask with events in it and not yet opened with it |
| LocApiBase.RemovesExactly | gps/core/LocApiBase.cpp:176-193 | swapping in the last deletes exactly that adapter and makes no duplicate; the last is where the removed one was, the others stay in place |
| LocApiBase.LocApiBase.GetEvtMask | gps/core/LocApiBase.cpp:137-144 | the union of the registered adapters' masks without the excluded events |
| LocApiBase.WantedBySome | gps/core/LocApiBase.cpp:137-144 | an event is in the union if and only if some adapter wants it |
| LocApiBase.LocApiBase.UpdateEvtMask | gps/core/LocAdapterBase.h:72-79 | turns just the given events on or off and sends an open |
| LocApiBase.LocApiBase.BeginMsg | gps/core/LocApiBase.cpp:89-126 | a restart message closes the engine; the mask is still to be read, so the engine counts as on its way |
| LocApiBase.LocApiBase.ReadMask | gps/core/LocApiBase.cpp:89-126 | whatever went before, the engine is on its way to the mask of the adapters registered now |
| LocApiBase.LocApiBase.OpenEngine | gps/core/LocApiBase.cpp:89-126 | opens the engine with the mask that was read: in sync if and only if that mask is still right |
| LocApiBase.ALateOpen | gps/core/LocApiBase.cpp:117-206 | a run that ends without adapters or messages, and with the engine reporting an event |
| LocApiBase.QuietEngine | gps/core/LocApiBase.cpp:89-220 | with no message pending or under way, and no such removal since the mask was last read, the engine's mask has an event if and only if a registered adapter wants it and it is not excluded |

## Left out

* The kernel and libraries: epoll, timerfd, select, pthreads, binder and the wake lock itself are fields and steps. `epoll_ctl` adding an fd already there does nothing.
* The request dispatch and response functions of `ril_service.cpp`, the command tables and string conversions of `ril.cpp`, the SAP code, configuration, logging, lights, health, init: field copying or I/O.
* LocTimerTheorems.NextInv: the step that deletes a client is disabled while the expiry holds its bare pointer; `DeletionFaultsIff` says that this is exactly what is needed.
* LocTimerTheorems.NeverFaults: the same.
* LocTimerTheorems.NoLostExpiry: creation of the two containers (`LocTimer.cpp:210-253`) is taken to succeed; each start and each stop is one step, being one critical section of the client's lock.
* LocTimerProgress.DueStartIsCalledBack: that the two threads get to run, and that clients leave them alone meanwhile, is its condition; fairness itself is not part of the model.
* LocTimerTheorems.OneWinnerPerStart: the C interface on top of `LocTimer`, which deletes its own wrapper object, is not part of the model beyond the width of its milliseconds.
* HeapSpec.RemoveExact: rankables are compared by the difference of an unbounded key; `Timespec` says when the timers' 32-bit ranking is such an order. An object's rank does not change while it is in a heap.
* LinkedList.LinkedList.Add: null list handles and a null comparison function are answered at once by the code and have no counterpart here.
* MsgQ.FirstInFirstOut: destroying a queue, which must not be in use, is not modelled; what a flush hands to deallocators is stated by `MsgQueue.MsgQueue.Flush`.
* LocThread.FreedByTheLastHolder: deletion of the runnable is modelled only for the thread that reads it before it is cleared; joining a thread from itself is not modelled.
* RilEventLoop.RilEventLoop.Turn: a callback acts by starting a new timer, watching a new event and ceasing to watch any event; it does not free or reuse an event that is still linked. Other threads' calls between the three parts of a turn are not part of it; each keeps `Firing`.
* RilEventLists.EventLists.RilTimerAdd: the event is not in a list already, which the code neither checks nor survives.
* RilWatchTable.WatchTable.RilEventAdd: the event is not watched already and its descriptor is valid and watched by no other; the upper limit of an fd_set is left out.
* WakeLock.WriteFaultsIffPulledAway: freed memory is gone until a grab is given its address again; other timed callbacks, which may be given it as well, are not part of the model. The event-loop thread runs one callback at a time.
* WakeLock.HeldLockIsGuarded: versions before 13, which keep no count, are left out.
* RilCallbacks.DropsOnlyWhatFailed: for callers that hold the slot's lock, for reading or, as one unsolicited response does (`ril.cpp:800-804`), for writing; so not for `sendErrorResponse` (`ril_service.cpp:512-515`). The 32-bit counters do not wrap.
* LocApiBase.LocApiBase.GetEvtMask: a mask is the set of its bits. The registry's calls, and the walk over the array inside each, are taken one at a time, since the code has no lock around them; the message task's reading of the mask and its opening of the engine are two separate steps.
