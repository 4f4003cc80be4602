# Verified model of the location stack in `gps/`

The `gps/` tree carries a location stack with several small but intricate protocols. This
project models them in Dafny 4.11 and proves what they guarantee over all inputs, all runs and
all interleavings. `dafny verify dfyconfig.toml` checks everything.

**Timer service** (`LocHeap.cpp`, `LocTimer.cpp`, `LocSharedLock.h`).
`HeapTree` is the value of the heap: a size-balanced, heap-ordered binary tree with the functions
push, pop and remove. `LocHeap` is the pointer structure that is mutated in place; each method is
proved to compute the function. `TimerBox` and `LocTimerContainer` are the message handlers of one
container, as functions and as methods. `TimerSystem` interleaves client threads, the poll thread
and the message thread, with every system call and every access to shared data a step of its own.
On top of it:
- `TimerWakeup`: no wake-up is lost, in any interleaving;
- `TimerLifetime` and `TimerTheorems`: nothing that can still be reached has been deleted, a
  delegate goes only by its one removal, the shared lock's count is the number of its holders, and
  every successful start is consumed by exactly one stop or one callback;
- `TimerHistory`: over a whole run a delegate is posted for insertion once, then at most once for
  removal, and once deleted never comes back;
- `TimerProgress`: whatever the clients do, however time passes and however the threads interleave,
  the two service threads take at most 40 steps for each start; and whenever they rest, every timer
  that is due by then and was not stopped has been called back and nothing has leaked;
- `TimerDeadlines`: from the call of start() to the callback, in terms of the time of the call, the
  timeout and the container that the client chose;
- `TimerEarly`: exactly which callbacks of a run come before their time, and a run with one.

**AGPS** (`Agps.cpp`, `Agps.h`). `AgpsProtocol` gives the four-state machine and the manager as
functions, `Agps` as objects with erase-while-iterating loops. `AgpsTheorems` judges every run from
outside, with two independent monitors: one for each data connection, one for each handle.
`AgpsReports` says exactly what each call sends to each handle and to each connection, by the type,
the state of the machine and whether the owner has released the handle. `AgpsConservation` counts: the requests made are the terminal notifications sent, the subscribers
still listed, and the requests that came for a listed handle.

**Tracking sessions** (`GnssAdapter.cpp`). `TrackingSessions` states the three restart rules and
proves that the engine always runs at the least interval of all sessions, whatever calls it
refuses, and tells exactly when its options stay those of a session. `GnssAdapter` has the loops.

**Subscription index and cache** (`LocUnorderedSetMap.h`, `SystemStatusOsObserver.cpp`,
`SystemStatus.cpp`, `SystemStatus.h`). `ObserverIndex` proves when the two set-maps stay exact
inverses and when the framework has been told of exactly the union of what the clients want.
`SystemStatus` is the bounded report history of each kind of item, with the comparisons and the
merging of network items. `ObserverCache` puts that history in front of the observer's cache, as
`updateCache` does, and proves what the cache then holds after any number of items and what a batch
sends on. `SystemStatusOsObserver` has the methods and the delivery.

**Supporting structures**: `LinkedList` (pointer list that refines a sequence), `LocThread` (two
owners of one delegate), `LocIpc` (framing and reassembly of datagrams), `LocApiBase` (compact adapter
table).

Several promises do not hold of the code without a condition. The condition is proved to be exact:
- an expiry pops no timer early if and only if the heap is empty or its top is due
  (`TimerBox.NoEarlyPop`), and over every run a callback is early if and only if it comes in the
  first turn of the handling of an expiry whose top is not due (`TimerEarly.EarlyIff`, with the
  failing run `TimerEarly.CalledBackEarly`; by the client's own arguments
  `TimerDeadlines.CalledBackEarlyIff`);
- a pop keeps the balance of a heap if and only if data moves up from the larger side, or from the
  right one of equal sides (`HeapTree.PopBalancedIff`);
- a successful stop or update leaves the engine with the options of a session if and only if the
  session that goes or changes is the last or leads alone, or one that remains has its options
  (`TrackingSessions.StopKeepsServedIff`, `TrackingSessions.UpdateKeepsServedIff`, with the failing
  run `TrackingSessions.ModeMayGoStale`);
- a framework object that is installed is told of exactly what is wanted if and only if it holds
  no other item from before (`ObserverIndex.InstallExact`, over runs `ObserverIndex.AlwaysExactIff`,
  with the failing run `ObserverIndex.ReturningObjectHoldsTooMuch`);
- the two maps of the index are inverses in every state of a run if and only if no
  `updateSubscription` in it comes from a client that has items (`ObserverIndex.AlwaysIndexedIff`,
  with the failing run `ObserverIndex.UpdateLeavesStalePair`);
- the cache of the observer has what arrived last of a kind of plain values if and only if no value
  was taken for a repeat of a different one before it, and always if and only if values that compare
  as equal are equal (`ObserverCache.CacheCurrentIff`, `ObserverCache.KindCurrentIff`); of the
  16 kinds that are compared as a whole it always has what arrived last
  (`ObserverCache.WholeKindIsCurrent`), and of the Bluetooth kinds it keeps the first scan
  (`ObserverCache.FirstScanIsKept`);
- notifications and subscriber lists account for all AGPS requests if and only if none came for a
  handle that the machine of its type had listed (`AgpsConservation.ConservedIff`); the
  notifications of a handle are in order if and only if it was not requested while it was
  outstanding (`AgpsTheorems.InOrderIff`, with the run `AgpsConservation.ListedByBoth`);
- a message is received byte for byte if and only if it is not empty and the stale bytes behind it
  in the buffer do not turn it into a header, into the abort message, or its length into a longer
  number (`LocIpc.RoundTrip`, with the failing run `LocIpc.TwiceSentOnceReceived`);
- the network mask is right at every moment if and only if the stream does not start with a
  disconnection that names a type (`SystemStatus.MaskRightIffStartsConnected`, in the observer's
  cache `ObserverCache.CachedMaskRightIff`);
- a spawned thread deletes its runnable if and only if it takes its first look before any stop
  (`LocThread.RunnableDeletedIffTaken`, with the failing run `LocThread.StoppedBeforeItStarts`);
- after a refused restart a request brings the engine back in step if and only if it succeeds and
  its session leads alone, before or after (`TrackingSessions.BackInStepIff`).

Comparing two deadlines below 2^32 seconds is right if and only if the difference of their seconds
fits a 32-bit int (`TimerTime.RanksExact`). Since a timeout has 32 bits of milliseconds, that is so
as long as the uptime stays below 2^31 - 4294968 seconds (`TimerTime.DeadlinesRankRightly`).

Two branches of the code are shown to be dead: the one of `updateSoonestTime` that disarms the
kernel timer (`TimerWakeup.NoLostWakeup`, `TimerBox.RemoveArms`), and the one that moves to RELEASED
when an unsubscribing empties the list in RELEASING (`AgpsProtocol.ReleasingIsNeverEmptied`).

Where comments and code disagree, the model follows the code:
- `gps/utils/LocHeap.cpp:34` says that a size excludes the node itself; the code counts it.
- `gps/utils/LocTimer.cpp:210-211` names the two containers the other way round than
  `gps/utils/LocTimer.cpp:237-239`; nothing depends on it.
- `gps/utils/LocTimer.cpp:340-341` says that the kernel is told when the removed timer is not the
  prior top; the code tells it when it is.
- `gps/utils/LocTimer.cpp:368-369` says that what is older than now is popped; the first pop is
  unconditional.
- `gps/core/SystemStatusOsObserver.cpp:545-548` says that an item does not pass when its kind is not
  handled; neither does a repeat of the latest report, by the comparison of the kind.
- `gps/utils/LocThread.h:75-77` promises that the runnable is deleted whenever `start()` succeeded.
- `gps/utils/LocUnorderedSetMap.h:176-178` promises the removed values; `update` returns the common
  ones.

## Model

| member | source | states |
|---|---|---|
| `HeapTree.SizedTop` | gps/utils/LocHeap.cpp:197-220 | the sizes of a node and its subtrees agree exactly when one is left after subtracting theirs |
| `HeapTree.PushKeeps` | gps/utils/LocHeap.cpp:101-124 | push keeps heap order and exact sizes, adds exactly the new object, and makes it the top if and only if it outranks the old top |
| `HeapTree.PopKeeps` | gps/utils/LocHeap.cpp:126-164 | pop keeps heap order and exact sizes and takes out exactly the top |
| `HeapTree.TopRanksHighest` | gps/utils/LocHeap.cpp:134-142 | nothing in the heap outranks its top |
| `HeapTree.PopChooses` | gps/utils/LocHeap.cpp:134-164 | of two children the left one moves up if its key is smaller and otherwise the right one; a lone child moves up |
| `HeapTree.PushGrows` | gps/utils/LocHeap.cpp:107-124 | the subtree with fewer nodes grows, the left one if both have as many |
| `HeapTree.RemoveFinds` | gps/utils/LocHeap.cpp:176-185 | pruning by rank never skips the subtree that holds the object |
| `HeapTree.RemoveExact` | gps/utils/LocHeap.cpp:166-193 | remove takes out exactly the object it is given when it is there, otherwise changes nothing; order and ancestor sizes are repaired |
| `HeapTree.DrainSorts` | gps/utils/LocHeap.cpp:245-254 | popping until empty delivers a rank-sorted permutation of what was stored |
| `HeapTree.StepRefinesQueue` | gps/utils/LocHeap.cpp:228-267 | push, pop and remove are steps of a multiset priority queue, results included |
| `HeapTree.RunRefinesQueue` | gps/utils/LocHeap.cpp:228-267 | over every run of operations from the empty heap, order and sizes hold and each operation is a step of the multiset priority queue |
| `HeapTree.PushBalances` | gps/utils/LocHeap.cpp:101-124 | a push keeps left and right size equal or left larger by one, at every node |
| `HeapTree.BalancedHeight` | gps/utils/LocHeap.cpp:101-124 | a balanced heap of height h holds at least 2^(h-1) and fewer than 2^h objects |
| `HeapTree.PushOnlyBalanced` | gps/utils/LocHeap.cpp:101-124 | a heap built by pushes alone is balanced, ordered, and of logarithmic height |
| `HeapTree.PopBalancedIff` | gps/utils/LocHeap.cpp:126-164 | a pop keeps a balanced heap balanced if and only if, all along the path on which data moves up, it comes from the larger side, or from the right one of equal sides |
| `HeapTree.PopUnbalances` | gps/utils/LocHeap.cpp:126-164 | a heap built by pushes alone, and so balanced, can lose the balance to one pop |
| `LocHeap.LocHeapNode.constructor` | gps/utils/LocHeap.cpp:39-41 | a new node holds its data, has size one and no children |
| `LocHeap.LocHeapNode.Push` | gps/utils/LocHeap.cpp:107-124 | in place, the nodes form the tree that Push computes, with just the new node added |
| `LocHeap.LocHeapNode.Sink` | gps/utils/LocHeap.cpp:113-123 | the lower ranked data goes into the missing or smaller subtree and the size grows by one |
| `LocHeap.LocHeapNode.Swap` | gps/utils/LocHeap.cpp:87-92 | two nodes exchange their data and nothing else |
| `LocHeap.LocHeapNode.Pop` | gps/utils/LocHeap.cpp:134-164 | in place, the nodes form the tree that Pop computes; the unlinked node is a leaf that holds the old top's data |
| `LocHeap.LocHeapNode.Promote` | gps/utils/LocHeap.cpp:145-154 | the higher ranked child's data moves up and the old data is popped out of that subtree |
| `LocHeap.LocHeapNode.Remove` | gps/utils/LocHeap.cpp:170-193 | in place, the nodes form the tree that Remove computes; the result is null exactly when the object was not there |
| `LocHeap.LocHeapNode.RemoveBelow` | gps/utils/LocHeap.cpp:176-190 | the left subtree is searched before the right one and the size repaired if one of them lost a node |
| `LocHeap.LocHeapNode.RemoveRight` | gps/utils/LocHeap.cpp:181-189 | the search of the right subtree, with its size repair |
| `LocHeap.LocHeapNode.CheckNodes` | gps/utils/LocHeap.cpp:195-220 | true if and only if no child outranks its parent and every size is exact |
| `LocHeap.LocHeap.Push` | gps/utils/LocHeap.cpp:228-235 | the contents gain exactly the new object |
| `LocHeap.LocHeap.Peek` | gps/utils/LocHeap.cpp:237-243 | null if empty, else an object that none outranks |
| `LocHeap.LocHeap.Pop` | gps/utils/LocHeap.cpp:245-254 | takes out an object that none outranks, or returns null if empty |
| `LocHeap.LocHeap.Remove` | gps/utils/LocHeap.cpp:256-267 | takes out the given object if present, or returns null and changes nothing |
| `LocHeap.LocHeap.CheckTree` | gps/utils/LocHeap.cpp:270-272 | the consistency check never fails on a heap that only its methods have touched |
| `LocHeap.LocHeap.GetTreeSize` | gps/utils/LocHeap.cpp:273-275 | the number of objects in the heap |
| `LocHeap.TopIsBest` | gps/utils/LocHeap.cpp:237-243 | the top is in the heap and none outranks it |
| `LocHeap.CountIsCardinality` | gps/utils/LocHeap.cpp:273-275 | the number of nodes is the number of objects |
| `TimerTime.ToInt32` | gps/utils/LocTimer.cpp:515-519 | the 32-bit value congruent to the difference |
| `TimerTime.RanksExact` | gps/utils/LocTimer.cpp:509-523 | for times below 2^32 seconds, ranking by the two fields is ranking by total time if and only if the difference in seconds fits an int |
| `TimerTime.DeadlinesRankRightly` | gps/utils/LocTimer.cpp:509-564 | with timeouts of 32 bits, the deadlines of all timers started within the first 2^31 - 4294968 seconds rank rightly |
| `TimerTime.FutureTime` | gps/utils/LocTimer.cpp:557-564 | the deadline is now plus the timeout, normalised; the value stored in the nanosecond field is the current one plus the milliseconds beyond whole seconds, which fits 31 bits |
| `TimerBox.PushArms` | gps/utils/LocTimer.cpp:283-324 | after a push the kernel is told a new time if and only if the pushed timer is the first or has an earlier time than the top |
| `TimerBox.RemoveArms` | gps/utils/LocTimer.cpp:283-350 | after a removal likewise; the kernel is never disarmed |
| `TimerBox.RemoveArmsIff` | gps/utils/LocTimer.cpp:337-349 | after a removal the kernel is told a new time if and only if the removed timer was the top and others remain |
| `TimerBox.ExpireConserves` | gps/utils/LocTimer.cpp:363-377 | expired and remaining timers together are those that were there; the expired ones come in the order of their times |
| `TimerBox.ExpireExact` | gps/utils/LocTimer.cpp:363-394 | only timers later than now remain, only the first can have been early, and if the top was due exactly the due ones expire |
| `TimerBox.NoEarlyPop` | gps/utils/LocTimer.cpp:370-372 | no timer is popped early if and only if the heap is empty or its top is due |
| `TimerEarly.EarlyIff` | gps/utils/LocTimer.cpp:355-394 | over every run, a callback comes before its time if and only if it is in the first turn of the handling of an expiry whose top timer is not due |
| `TimerEarly.CallbackEnds` | gps/utils/LocTimer.cpp:525-538 | over every run, a callback ends a timer that had not ended |
| `TimerEarly.CalledBackEarly` | gps/utils/LocTimer.cpp:355-377 | a run reaches a state in which the next step calls a client back at time 1 for a timer that is due at 10: the timer before it was stopped while its expiry was under way |
| `TimerBox.DelegatesRankByTime` | gps/utils/LocTimer.cpp:509-523 | delegates rank in the heap by their total time |
| `LocTimerContainer.LocTimerContainer.UpdateSoonestTime` | gps/utils/LocTimer.cpp:283-309 | the kernel is armed, disarmed or left alone as the change of the top demands |
| `LocTimerContainer.LocTimerContainer.ProcPush` | gps/utils/LocTimer.cpp:320-324 | the heap gains the timer, and if the kernel waited for the top before, it does after |
| `LocTimerContainer.LocTimerContainer.ProcRemove` | gps/utils/LocTimer.cpp:337-349 | the heap loses exactly the timer, and if the kernel waited for the top before, it does after |
| `LocTimerContainer.LocTimerContainer.PopIfOutRanks` | gps/utils/LocTimer.cpp:387-394 | pops the top if and only if it is due |
| `LocTimerContainer.LocTimerContainer.ProcExpire` | gps/utils/LocTimer.cpp:363-377 | the timers on which expire() is called, in order, and the heap that is left; the kernel then waits for its top |
| `LocTimerContainer.LocTimerContainer.Expire` | gps/utils/LocTimer.cpp:380-383 | the fd is disarmed and out of the poll |
| `LocSharedLock.LocSharedLock.constructor` | gps/utils/LocSharedLock.h:47-48 | a new lock has one holder |
| `LocSharedLock.LocSharedLock.Share` | gps/utils/LocSharedLock.h:50 | one more holder, as in the runs of the timer system |
| `LocSharedLock.LocSharedLock.Drop` | gps/utils/LocSharedLock.h:52 | one holder fewer; the lock is freed if and only if it was the last |
| `TimerWakeup.PollKeeps` | gps/utils/LocTimer.cpp:450-474 | waking, disarming and leaving the poll lose no wake-up |
| `TimerWakeup.SendKeeps` | gps/utils/LocTimer.cpp:380-385 | posting the expiry hands the wake-up over to the queue |
| `TimerWakeup.TakePush` | gps/utils/LocTimer.cpp:311-328 | handling an insertion loses no wake-up |
| `TimerWakeup.TakeRemove` | gps/utils/LocTimer.cpp:330-353 | handling a removal loses no wake-up |
| `TimerWakeup.TakeExpire` | gps/utils/LocTimer.cpp:355-377 | starting an expiry loses no wake-up |
| `TimerWakeup.ExpireOneKeeps` | gps/utils/LocTimer.cpp:370-376 | one turn of the expiry loop loses no wake-up |
| `TimerWakeup.KernelCallKeeps` | gps/utils/LocTimer.cpp:283-309 | the system calls of the message thread, one by one, lose no wake-up |
| `TimerWakeup.StepKeepsWakeup` | gps/utils/LocTimer.cpp:283-394 | no step of any thread loses a wake-up |
| `TimerWakeup.NoLostWakeup` | gps/utils/LocTimer.cpp:283-394 | over every run, while a heap holds timers its fd is armed for the top and polled, or an expiry is under way in the poll thread, queued, or being handled |
| `TimerLifetime.Created` | gps/utils/LocTimer.cpp:478-488 | a new delegate gets one insertion |
| `TimerLifetime.Detached` | gps/utils/LocTimer.cpp:490-507 | a detached delegate gets one removal |
| `TimerLifetime.Deleted` | gps/utils/LocTimer.cpp:347-348 | the handler of the removal deletes it |
| `TimerLifetime.TimeoutDetaches` | gps/utils/LocTimer.cpp:525-538 | expire() stops and calls back exactly the client of the delegate, if it still has one |
| `TimerLifetime.ShareKeepsLocks` | gps/utils/LocSharedLock.h:50 | sharing keeps the count equal to the number of holders |
| `TimerLifetime.DropKeepsLocks` | gps/utils/LocSharedLock.h:52 | a client that drops its lock keeps the count equal to the number of holders |
| `TimerLifetime.DeleteKeepsLocks` | gps/utils/LocTimer.cpp:186 | so does the deletion of a delegate |
| `TimerLifetime.StartKeepsOwn` | gps/utils/LocTimer.cpp:553-576 | after start() client and delegate point at each other, and the start is counted |
| `TimerLifetime.StopKeepsOwn` | gps/utils/LocTimer.cpp:578-591 | after stop() the client does not run, and its timer has ended in one way |
| `TimerLifetime.DyingNowhere` | gps/utils/LocTimer.cpp:337-349 | at the point of its deletion no heap and no message refers to a delegate |
| `TimerLifetime.StepLife` | gps/utils/LocTimer.cpp:311-394 | every step keeps all placed and all doomed delegates live, each once |
| `TimerLifetime.StepClient` | gps/utils/LocTimer.cpp:525-591 | every step keeps clients, their delegates, the counters and the locks consistent |
| `TimerTheorems.RunSound` | gps/utils/LocTimer.cpp:283-591 | every reachable state satisfies all invariants of the service |
| `TimerTheorems.NoDeadDelegate` | gps/utils/LocTimer.cpp:311-353 | over every run, heaps, messages, message thread and running clients refer only to delegates that have not been deleted, and each has at most one insertion and one removal under way at a time |
| `TimerHistory.OnePushThenOneRemove` | gps/utils/LocTimer.cpp:478-507 | over the whole of every run, no delegate is posted twice for insertion or twice for removal, nor for insertion after its removal |
| `TimerHistory.EveryDelegateIsPushed` | gps/utils/LocTimer.cpp:478-488 | over every run, each delegate ever created has been posted for insertion |
| `TimerHistory.DeletedStaysDeleted` | gps/utils/LocTimer.cpp:330-353 | over every run, a delegate that has been deleted never comes back |
| `TimerTheorems.DeletedOnlyByRemove` | gps/utils/LocTimer.cpp:347-348 | over every run a delegate is deleted only at the end of the handling of its removal, when nothing else refers to it |
| `TimerTheorems.LockOutlivesHolders` | gps/utils/LocSharedLock.h:42-58 | over every run the lock is there while client or delegates remain, its count is the number of them, and only the last drop frees it |
| `TimerTheorems.EndsByStopOrCallback` | gps/utils/LocTimer.cpp:525-591 | over every run a started timer ends in one step, by one successful stop of its client or one callback |
| `TimerTheorems.StartsAreConsumedOnce` | gps/utils/LocTimer.cpp:553-591 | over every run, an end is never taken back, and starts are stops plus callbacks, plus one exactly while running |
| `TimerProgress.StepCosts` | gps/utils/LocTimer.cpp:283-394 | every step of the service threads leaves less to do |
| `TimerProgress.ClientCosts` | gps/utils/LocTimer.cpp:478-507 | a start adds at most 40 to the work there is to do, anything else a client does, and the passing of time, nothing |
| `TimerProgress.WorkIsBounded` | gps/utils/LocTimer.cpp:283-394 | over every stretch of every run, whatever clients do and however time passes, the steps of the service threads and the work left are at most the work there was and 40 for each start |
| `TimerProgress.AllWorkIsBounded` | gps/utils/LocTimer.cpp:283-394 | over every run the service threads take at most 40 steps for each start |
| `TimerProgress.StuckOnlyWhenQuiet` | gps/utils/LocTimer.cpp:448-474 | no step is possible if and only if queue, threads and fds are all at rest |
| `TimerProgress.RestIsClean` | gps/utils/LocTimer.cpp:355-394 | in every reachable state at rest, each delegate belongs to a running client, waits in its heap and is not due |
| `TimerProgress.RunsOrTimedOut` | gps/utils/LocTimer.cpp:525-591 | over every stretch of a run in which its client does not stop it, a timer runs on or has ended with a callback |
| `TimerProgress.DueTimersExpire` | gps/utils/LocTimer.cpp:355-394 | over every run, with any calls of clients in it and however time passes: when the service rests, every timer started before, due by then and not stopped by its client has been called back |
| `TimerProgress.LoopIsHandler` | gps/utils/LocTimer.cpp:370-376 | the interleaved expiry loop takes the same timers as the handler run in one go |
| `TimerDeadlines.StartPosts` | gps/utils/LocTimer.cpp:553-576 | a start posts one insertion, to the container the client chose, with the time of the call plus the timeout as deadline |
| `TimerDeadlines.StartedIsCalledBack` | gps/utils/LocTimer.cpp:525-576 | over every run, a client that started its timer and did not stop it has been called back whenever the service rests at or after the time of the call plus the timeout |
| `TimerDeadlines.CalledBackEarlyIff` | gps/utils/LocTimer.cpp:355-394 | over every run, the first callback after a start comes before the time of the call plus the timeout if and only if it is in the first turn of the handling of an expiry whose top timer is not due |
| `TimerDeadlines.StartedWaits` | gps/utils/LocTimer.cpp:311-328 | over every run, until it is stopped or called back a started timer waits, whenever the service rests, in the container its client chose and with the deadline that the call implies |
| `TimerDeadlines.ExpiryIsComplete` | gps/utils/LocTimer.cpp:363-377 | over every run, when the handling of an expiry ends no timer is left in the container that was due when it began |
| `AgpsProtocol.WithoutIs` | gps/gnss/Agps.cpp:419-436 | deleting a handle removes all of it and nothing else |
| `AgpsProtocol.SplitIs` | gps/gnss/Agps.cpp:316-349 | the subscribers notified and those left are told apart by activity |
| `AgpsProtocol.SplitKeepsOrder` | gps/gnss/Agps.cpp:316-349 | the subscribers notified and those left are each in the order of the list |
| `AgpsProtocol.FindIs` | gps/gnss/Agps.cpp:472-485 | a subscriber with the handle, or none if there is none |
| `AgpsProtocol.SubscribeKeeps` | gps/gnss/Agps.cpp:72-114 | a subscription keeps the invariant of the machine |
| `AgpsProtocol.UnsubscribeKeeps` | gps/gnss/Agps.cpp:116-178 | an unsubscription keeps the invariant of the machine |
| `AgpsProtocol.FrameworkKeeps` | gps/gnss/Agps.cpp:180-290 | granted, released and denied keep the invariant of the machine |
| `AgpsProtocol.EventKeeps` | gps/gnss/Agps.cpp:40-290 | RELEASED means nobody is listed, PENDING and ACQUIRED that an active subscriber is, RELEASING that one waits; handles are unique; no event breaks this |
| `AgpsProtocol.ReleasingIsNeverEmptied` | gps/gnss/Agps.cpp:153-171 | an unsubscribing never empties the list while a connection is being closed |
| `AgpsTheorems.EventConn` | gps/gnss/Agps.cpp:72-314 | each event leaves the data connection, as the framework sees it, in the state of the machine |
| `AgpsTheorems.HandleNotices` | gps/gnss/Agps.cpp:316-349 | notifying a list tells each handle in it once |
| `AgpsTheorems.SubscribeTells` | gps/gnss/Agps.cpp:72-114 | a subscriber is told of the grant at once exactly when the connection is up |
| `AgpsTheorems.UnsubscribeTells` | gps/gnss/Agps.cpp:116-178 | who leaves the list is told so, nobody else is |
| `AgpsTheorems.FrameworkTells` | gps/gnss/Agps.cpp:180-290 | a report of the framework tells each listed handle what it should be told |
| `AgpsTheorems.NextConn` | gps/gnss/Agps.cpp:770-885 | every call of the manager keeps each connection in step with its machine |
| `AgpsTheorems.NextHandle` | gps/gnss/Agps.cpp:770-885 | every call of the manager that does not request a handle while it is outstanding keeps that handle's notifications in step with the lists |
| `AgpsTheorems.EveryRunIsBalanced` | gps/gnss/Agps.cpp:72-314 | over every run a connection is asked for and not yet given back, denied or lost exactly in PENDING and ACQUIRED, never asked for twice, and the machine invariants hold |
| `AgpsTheorems.OneTerminalNotification` | gps/gnss/Agps.cpp:116-178 | over every run that does not request a handle while it is outstanding, the handle is told of an opening at most once, gets one terminal notification and none after it, and is listed exactly while that is to come |
| `AgpsTheorems.InOrderIff` | gps/gnss/Agps.cpp:770-885 | over every run, the requests and notifications of a handle are in order if and only if it was never requested while it was outstanding |
| `AgpsConservation.RequestsAreConserved` | gps/gnss/Agps.cpp:316-436 | whatever was called and sent, if the notifications of a handle are in order, its requests are its terminal notifications plus one while it is outstanding |
| `AgpsConservation.EventConserves` | gps/gnss/Agps.cpp:72-349 | an event lists a new subscriber or sends as many terminal notifications as subscribers leave the list; the subscription of a listed handle does neither |
| `AgpsConservation.SubscriptionsAreConserved` | gps/gnss/Agps.cpp:770-885 | over every run at all, the requests made are the terminal notifications sent, the lengths of the two subscriber lists, and the requests that came for a handle that the machine of their type had listed |
| `AgpsConservation.ConservedIff` | gps/gnss/Agps.cpp:770-885 | over every run, notifications and lists account for all requests if and only if there is no request of that last kind |
| `AgpsConservation.ListedByBoth` | gps/gnss/Agps.cpp:736-800 | a run in which a handle is requested for both machines and listed by both |
| `AgpsReports.EveryRunAsCalled` | gps/gnss/Agps.cpp:739-832 | over every run a subscriber is in the list of the machine for the type it was requested with, waits for the close if that is the emergency type, and is inactive if and only if its owner has released it since |
| `AgpsReports.ReportTells` | gps/gnss/Agps.cpp:180-290 | over every run, what a report of the framework sends to each handle, by the state of the machine and whether the owner has released the handle |
| `AgpsReports.ReportMoves` | gps/gnss/Agps.cpp:180-290 | over every run, what a report does to the state and the connection; after a close the connection is requested again if and only if an active subscriber is listed |
| `AgpsReports.WhomReportsEnd` | gps/gnss/Agps.cpp:203-290 | over every run a report ends a handle only if its owner released it, or an open connection was lost, or a requested one denied |
| `AgpsReports.StayerIsServed` | gps/gnss/Agps.cpp:223-239 | over every run, a handle that was not released survives the release of the connection: still listed, told nothing, and the connection is requested again |
| `AgpsReports.RequestDoes` | gps/gnss/Agps.cpp:770-796 | over every run, what a request sends, by type and state: refused without a machine, opened at once if the connection is open, and the connection requested if nobody was listed |
| `AgpsReports.ReleaseDoes` | gps/gnss/Agps.cpp:798-832 | over every run, what a release sends: one requested with the emergency type waits and is told nothing, any other is told and gone; the connection is given back when no other subscriber is active |
| `AgpsReports.UnknownRelease` | gps/gnss/Agps.cpp:798-832 | the release of a handle that is not listed is answered with a failure and changes nothing |
| `AgpsReports.CreationDoes` | gps/gnss/Agps.cpp:703-737 | machines are created once, that for AGNSS only if capable |
| `Agps.AgpsStateMachine.constructor` | gps/gnss/Agps.h:161-165 | a new machine is in RELEASED with nobody listed |
| `Agps.AgpsStateMachine.GetSubscriber` | gps/gnss/Agps.cpp:472-485 | the first subscriber with the handle |
| `Agps.AgpsStateMachine.AnyActiveSubscribers` | gps/gnss/Agps.cpp:438-448 | true if and only if an active subscriber is listed |
| `Agps.AgpsStateMachine.AddSubscriber` | gps/gnss/Agps.cpp:398-417 | appends a copy unless the handle is listed |
| `Agps.AgpsStateMachine.DeleteSubscriber` | gps/gnss/Agps.cpp:419-436 | erases, while iterating, exactly the entries with the handle |
| `Agps.AgpsStateMachine.NotifyEventToSubscriber` | gps/gnss/Agps.cpp:351-386 | one status callback for the handle, and its deletion if asked for |
| `Agps.AgpsStateMachine.NotifyAllSubscribers` | gps/gnss/Agps.cpp:316-349 | one callback for each subscriber meant, in list order; exactly those are erased if asked for |
| `Agps.AgpsStateMachine.RequestOrReleaseDataConn` | gps/gnss/Agps.cpp:292-314 | one request or release of the data connection, always successful |
| `Agps.AgpsStateMachine.ProcessSubscribe` | gps/gnss/Agps.cpp:72-114 | new state, list and callbacks of a subscription |
| `Agps.AgpsStateMachine.LeaveCurrent` | gps/gnss/Agps.cpp:125-140 | the current subscriber becomes inactive, or is notified and deleted |
| `Agps.AgpsStateMachine.ProcessUnsubscribe` | gps/gnss/Agps.cpp:116-178 | new state, list and callbacks of an unsubscription |
| `Agps.AgpsStateMachine.ProcessGranted` | gps/gnss/Agps.cpp:180-201 | new state, list and callbacks of a grant |
| `Agps.AgpsStateMachine.FinishRelease` | gps/gnss/Agps.cpp:222-239 | those who waited for the close are told; active subscribers get a new request |
| `Agps.AgpsStateMachine.ProcessReleased` | gps/gnss/Agps.cpp:203-248 | new state, list and callbacks of a release |
| `Agps.AgpsStateMachine.ProcessDenied` | gps/gnss/Agps.cpp:250-290 | new state, list and callbacks of a denial |
| `Agps.AgpsStateMachine.ProcessAgpsEvent` | gps/gnss/Agps.cpp:40-70 | every event does what the protocol says |
| `Agps.AgpsManager.CreateAgpsStateMachines` | gps/gnss/Agps.cpp:703-737 | the internet machine is created, and the AGNSS one if capable, unless they exist |
| `Agps.AgpsManager.GetAgpsStateMachine` | gps/gnss/Agps.cpp:739-768 | the machine for an AGPS type |
| `Agps.AgpsManager.RequestATL` | gps/gnss/Agps.cpp:770-796 | a subscription, or a failed open status if there is no machine |
| `Agps.AgpsManager.ReleaseATL` | gps/gnss/Agps.cpp:798-830 | an unsubscription at the machine that lists the handle, or a failed close status |
| `Agps.AgpsManager.ReportAtlOpenSuccess` | gps/gnss/Agps.cpp:850-867 | a grant at the machine for the type |
| `Agps.AgpsManager.ReportAtlOpenFailed` | gps/gnss/Agps.cpp:869-876 | a denial at the machine for the type |
| `Agps.AgpsManager.ReportAtlClosed` | gps/gnss/Agps.cpp:878-885 | a release at the machine for the type |
| `TrackingSessions.StartSyncs` | gps/gnss/GnssAdapter.cpp:1497-1521 | a start, accepted or refused, leaves the engine at the least interval |
| `TrackingSessions.UpdateSyncs` | gps/gnss/GnssAdapter.cpp:1645-1682 | so does an update |
| `TrackingSessions.StopSyncs` | gps/gnss/GnssAdapter.cpp:1723-1755 | so does a stop |
| `TrackingSessions.StepKeepsSync` | gps/gnss/GnssAdapter.cpp:1474-1771 | every request keeps the engine in step with the sessions |
| `TrackingSessions.EveryRunIsInSync` | gps/gnss/GnssAdapter.cpp:1474-1771 | over every run with arbitrary refusals, the engine runs if and only if there is a session, at the least interval of all |
| `TrackingSessions.RequestsAreAtomic` | gps/gnss/GnssAdapter.cpp:1474-1491 | a request that fails changes nothing, one that succeeds changes exactly its session |
| `TrackingSessions.EngineServesASession` | gps/gnss/GnssAdapter.cpp:1497-1755 | the engine is restarted only with the options of a session there is, and stopped only with the last |
| `TrackingSessions.StartOutcome` | gps/gnss/GnssAdapter.cpp:1497-1521 | a start gives the engine its options if and only if it wants a smaller interval than every session, and only then can it fail |
| `TrackingSessions.UpdateOutcome` | gps/gnss/GnssAdapter.cpp:1645-1682 | an update gives the engine its options, or those of a least of the others, or leaves it alone, by strict comparison of the intervals before and after |
| `TrackingSessions.StopOutcome` | gps/gnss/GnssAdapter.cpp:1723-1755 | a stop ends the engine with the last session, hands it to a least of the others if its session led, and leaves it alone otherwise |
| `TrackingSessions.StartKeepsServed` | gps/gnss/GnssAdapter.cpp:1497-1521 | a start leaves the engine with the options of a session if it had those of one before |
| `TrackingSessions.StopKeepsServedIff` | gps/gnss/GnssAdapter.cpp:1723-1755 | a successful stop does so if and only if it ends the last session, or the one with the smallest interval alone, or another session has the engine's options |
| `TrackingSessions.UpdateKeepsServedIff` | gps/gnss/GnssAdapter.cpp:1645-1682 | a successful update does so if and only if the session has the smallest interval alone, before or after, or its new options or those of another session are the engine's |
| `TrackingSessions.ModeMayGoStale` | gps/gnss/GnssAdapter.cpp:1746-1750 | a run from the start after which the engine has options that no session has |
| `GnssAdapter.LocApi.StartFix` | gps/gnss/GnssAdapter.cpp:1533-1539 | a refused call leaves the engine as it was |
| `GnssAdapter.LocApi.StopFix` | gps/gnss/GnssAdapter.cpp:1761-1768 | a refused call leaves the engine as it was |
| `GnssAdapter.GnssAdapter.StartTracking` | gps/gnss/GnssAdapter.cpp:1523-1542 | success exactly when the engine runs with the options |
| `GnssAdapter.GnssAdapter.StopTracking` | gps/gnss/GnssAdapter.cpp:1757-1771 | success exactly when the engine has stopped |
| `GnssAdapter.GnssAdapter.SmallestIntervalOptions` | gps/gnss/GnssAdapter.cpp:1660-1669 | the options of a session with the least interval among the others, in whatever order they are visited; size zero if there is none |
| `GnssAdapter.GnssAdapter.StartTrackingMultiplex` | gps/gnss/GnssAdapter.cpp:1497-1521 | the call the start rule demands, and its outcome |
| `GnssAdapter.GnssAdapter.UpdateTrackingMultiplex` | gps/gnss/GnssAdapter.cpp:1645-1682 | the call the update rule demands, and its outcome |
| `GnssAdapter.GnssAdapter.StopTrackingMultiplex` | gps/gnss/GnssAdapter.cpp:1723-1755 | the call the stop rule demands, and its outcome |
| `GnssAdapter.GnssAdapter.ReportResponse` | gps/gnss/GnssAdapter.cpp:1398-1410 | the client hears of it exactly if it registered for responses |
| `GnssAdapter.GnssAdapter.ProcStartTracking` | gps/gnss/GnssAdapter.cpp:1474-1491 | a start is a step of the model, with its response: callback missing exactly if the client has registered neither callback, invalid parameter exactly if it has and the size is zero |
| `GnssAdapter.GnssAdapter.ProcUpdateTracking` | gps/gnss/GnssAdapter.cpp:1622-1639 | an update is a step of the model; an unknown session gets no response, size zero an invalid parameter |
| `GnssAdapter.GnssAdapter.ProcStopTracking` | gps/gnss/GnssAdapter.cpp:1703-1716 | a stop is a step of the model; an unknown session gets no response, any other success or a general failure |
| `GnssAdapter.GnssAdapter.StopClientSessions` | gps/gnss/GnssAdapter.cpp:1142-1157 | each session of the client is asked to stop once, in turn; sessions of others stay, and the engine is in step |
| `GnssAdapter.GnssAdapter.ProcRemoveClient` | gps/gnss/GnssAdapter.cpp:1120-1140 | the client's sessions are stopped and the client is forgotten |
| `GnssAdapter.GnssAdapter.RestartSessions` | gps/gnss/GnssAdapter.cpp:1221-1245 | after the engine came up again it is started with the options of a session of least interval, if there is one; only a refused call leaves it off and out of step |
| `TrackingSessions.BackInStepIff` | gps/gnss/GnssAdapter.cpp:1497-1755 | after a refused restart, a request brings the engine back in step if and only if it succeeds and its session has the smallest interval alone, before or after |
| `LocUnorderedSetMap.AddedPairs` | gps/utils/LocUnorderedSetMap.h:144-174 | adding yields exactly the old pairs and those of the keys and values, and no empty entry |
| `LocUnorderedSetMap.TrimmedPairs` | gps/utils/LocUnorderedSetMap.h:123-142 | trimming takes away exactly the pairs of the keys and values; entries left empty are the keys that go |
| `LocUnorderedSetMap.LocUnorderedSetMap.GetValSet` | gps/utils/LocUnorderedSetMap.h:103-108 | the values of a key, or the empty set |
| `LocUnorderedSetMap.LocUnorderedSetMap.GetKeys` | gps/utils/LocUnorderedSetMap.h:110-117 | all keys |
| `LocUnorderedSetMap.LocUnorderedSetMap.Remove` | gps/utils/LocUnorderedSetMap.h:119-121 | the entry goes, and whether it was there is told |
| `LocUnorderedSetMap.LocUnorderedSetMap.TrimSet` | gps/utils/LocUnorderedSetMap.h:41-51 | the values are taken out and those that were there are recorded |
| `LocUnorderedSetMap.LocUnorderedSetMap.TrimOrRemoveEntry` | gps/utils/LocUnorderedSetMap.h:77-88 | one entry is trimmed and goes if it becomes empty |
| `LocUnorderedSetMap.LocUnorderedSetMap.TrimOrRemove` | gps/utils/LocUnorderedSetMap.h:123-142 | several entries are trimmed; the keys and values that go are recorded |
| `LocUnorderedSetMap.LocUnorderedSetMap.AddEntry` | gps/utils/LocUnorderedSetMap.h:144-158 | values are added to one entry, and whether it is new is told |
| `LocUnorderedSetMap.LocUnorderedSetMap.Add` | gps/utils/LocUnorderedSetMap.h:160-174 | values are added to several entries; the new keys are recorded |
| `LocUnorderedSetMap.LocUnorderedSetMap.RemoveAndReturnInterset` | gps/utils/LocUnorderedSetMap.h:53-70 | what two sets have in common is taken out of both and returned |
| `LocUnorderedSetMap.LocUnorderedSetMap.Update` | gps/utils/LocUnorderedSetMap.h:176-190 | the values of a key are replaced; what is returned are the values that stay, and they are taken out of the new ones |
| `ObserverIndex.SubscribeOk` | gps/core/SystemStatusOsObserver.cpp:102-108 | a subscription adds exactly its pairs, in both directions |
| `ObserverIndex.UnsubscribeOk` | gps/core/SystemStatusOsObserver.cpp:222-229 | an unsubscription removes exactly its pairs, in both directions |
| `ObserverIndex.UnsubscribeAllOk` | gps/core/SystemStatusOsObserver.cpp:261-267 | all pairs of the client go, in both directions |
| `ObserverIndex.DoIsExact` | gps/core/SystemStatusOsObserver.cpp:62-292 | each operation changes the pairs of the clients just as asked, and keeps the maps exact inverses without empty entries if and only if it is no update of a client that has items |
| `ObserverIndex.EveryRunIsIndexed` | gps/core/SystemStatusOsObserver.cpp:62-292 | over every run in which no update comes from a client that has items, the two maps are exact inverses without empty entries |
| `ObserverIndex.AlwaysIndexedIff` | gps/core/SystemStatusOsObserver.cpp:62-292 | over every run, the maps are exact inverses in every state if and only if no update in it comes from a client that has items |
| `ObserverIndex.UpdateLeavesPairs` | gps/core/SystemStatusOsObserver.cpp:150-171 | after an update a client is still listed under each item that it gave up |
| `ObserverIndex.UpdateLeavesStalePair` | gps/core/SystemStatusOsObserver.cpp:150-171 | a run in which that happens |
| `ObserverIndex.UpdateExact` | gps/core/SystemStatusOsObserver.cpp:150-171 | updateSubscription keeps the two maps inverses if and only if the client had no item before |
| `ObserverIndex.DoNet` | gps/core/SystemStatusOsObserver.cpp:91-292 | every subscription, unsubscription and update keeps the framework in step with the index |
| `ObserverIndex.InstallExact` | gps/core/SystemStatusOsObserver.cpp:69-80 | an installed object is told of exactly what is wanted if and only if it holds no other item from before |
| `ObserverIndex.FrameworkMatchesClients` | gps/core/SystemStatusOsObserver.cpp:62-292 | over every run in which no installed object comes back holding an item that nobody wants any more, the framework's net set is that of the items in the index, and the union of what the clients want while no update comes from a client that has items |
| `ObserverIndex.AlwaysExactIff` | gps/core/SystemStatusOsObserver.cpp:62-292 | the framework's net set is that of the items in the index in every state of a run if and only if no installed object comes back holding an item that is not in it |
| `ObserverIndex.ReturningObjectHoldsTooMuch` | gps/core/SystemStatusOsObserver.cpp:69-80 | a run in which an object is replaced and comes back holding an item that no client wants |
| `ObserverIndex.FrameworkLacksNothing` | gps/core/SystemStatusOsObserver.cpp:62-292 | over every run at all, the installed object lacks no item in the index, nor one that a client wants while no update comes from a client that has items |
| `ObserverIndex.CallsAreCaused` | gps/core/SystemStatusOsObserver.cpp:62-292 | over every run, the items that an object was asked for by subscribe, by requestData, or told to drop are each exactly those that installations, plain subscriptions and updates, data requests, and removals from the index account for |
| `ObserverCache.CacheIsLatestReport` | gps/core/SystemStatusOsObserver.cpp:541-572 | whatever items arrive, the cache has exactly the handled kinds that can be made and have arrived, and of each it has what the report of the kind says last |
| `ObserverCache.CacheCurrentIff` | gps/core/SystemStatusOsObserver.cpp:541-572 | the cache has what arrived last of a kind of plain values at each moment if and only if no value was taken for a repeat of a different one before it |
| `ObserverCache.KindCurrentIff` | gps/core/SystemStatus.cpp:1308-1323 | the cache is always current of a kind if and only if values of it that compare as equal are equal |
| `ObserverCache.FirstScanIsKept` | gps/core/SystemStatus.h:716-731 | of the Bluetooth kinds, whose values all compare as equal, the cache keeps the first scan for ever |
| `ObserverCache.CachedMaskIsFold` | gps/core/SystemStatus.h:485-502 | the cached network mask is the fold of all network events from the second one on |
| `ObserverCache.CachedMaskRightIff` | gps/core/SystemStatus.h:485-502 | the cached network mask is right at each moment if and only if the first network event is no disconnection that names a type |
| `ObserverCache.SentIff` | gps/core/SystemStatusOsObserver.cpp:309-320 | whatever arrived before, a batch sends a kind on if and only if an item of it does not repeat what the report of all before it says last |
| `ObserverCache.WholeKindIsCurrent` | gps/core/SystemStatus.h:392-708 | of the 16 kinds that are compared as a whole the cache has what arrived last, at each moment of every run |
| `ObserverCache.WholeKindIsSentIff` | gps/core/SystemStatusOsObserver.cpp:309-320 | whatever arrived before, a batch sends one of these kinds on if and only if an item of it differs from the one that arrived just before it |
| `ObserverCache.NetworkIsSentIff` | gps/core/SystemStatusOsObserver.cpp:309-320 | a batch sends the network item on if and only if an item of it is the first or changes the mask |
| `ObserverCache.CopiesAre` | gps/core/SystemStatusOsObserver.cpp:344-374 | of a list all items of the kinds that can be made are copied, in order, and no others |
| `ObserverCache.UnsentIsUnchanged` | gps/core/SystemStatusOsObserver.cpp:309-320 | what a batch does not send on is as it was in the cache, and what it sends on is in it |
| `SystemStatusOsObserver.SystemStatusOsObserver.SetSubscriptionObj` | gps/core/SystemStatusOsObserver.cpp:62-89 | a null object is ignored; any other is installed and told of all items in the index |
| `SystemStatusOsObserver.SystemStatusOsObserver.Subscribe` | gps/core/SystemStatusOsObserver.cpp:92-139 | the index, what the framework is told, and the cached items sent at once; empty requests are ignored |
| `SystemStatusOsObserver.SystemStatusOsObserver.UpdateSubscription` | gps/core/SystemStatusOsObserver.cpp:141-211 | the index, what the framework is asked for and told to drop, and the cached items sent at once, which leave out those that the client had |
| `SystemStatusOsObserver.SystemStatusOsObserver.Unsubscribe` | gps/core/SystemStatusOsObserver.cpp:213-252 | the index and what the framework is told; empty requests are ignored |
| `SystemStatusOsObserver.SystemStatusOsObserver.UnsubscribeAll` | gps/core/SystemStatusOsObserver.cpp:254-292 | the index and what the framework is told |
| `SystemStatusOsObserver.SystemStatusOsObserver.SendCachedDataItems` | gps/core/SystemStatusOsObserver.cpp:513-540 | one call with what the cache has of the items, none if it has nothing |
| `SystemStatusOsObserver.SentAtOnce` | gps/core/SystemStatusOsObserver.cpp:513-540 | a client is sent one call with just those of the items that are in the cache, and none if there is none |
| `SystemStatusOsObserver.SystemStatusOsObserver.UpdateCache` | gps/core/SystemStatusOsObserver.cpp:541-572 | the report of the kind is set; true exactly if the item is handled, does not repeat its report, and is new to the cache or differs from it once merged; the merged item is then cached |
| `SystemStatusOsObserver.SystemStatusOsObserver.ClientsOf` | gps/core/SystemStatusOsObserver.cpp:319-326 | the clients of any of the changed items |
| `SystemStatusOsObserver.SystemStatusOsObserver.SendToClient` | gps/core/SystemStatusOsObserver.cpp:328-341 | the changed items listed for the client, in one call, none if there are none |
| `SystemStatusOsObserver.SystemStatusOsObserver.ProcNotify` | gps/core/SystemStatusOsObserver.cpp:309-342 | reports and cache are updated item by item; each client listed for a changed item gets one call with the changed items listed for it; with an exact index these are exactly the clients and items that are wanted |
| `SystemStatusOsObserver.SystemStatusOsObserver.Notify` | gps/core/SystemStatusOsObserver.cpp:297-374 | the same for a batch; the nulls in the copied vector change nothing |
| `LinkedList.ListState.constructor` | gps/utils/linked_list.c:58-80 | a new list is empty |
| `LinkedList.Add` | gps/utils/linked_list.c:110-154 | prepends the object and keeps all pointers consistent; null arguments are refused |
| `LinkedList.Remove` | gps/utils/linked_list.c:161-202 | takes the last object and keeps all pointers consistent; refuses null arguments and the empty list |
| `LinkedList.Empty` | gps/utils/linked_list.c:209-221 | whether the list is empty, or an error for a null list |
| `LinkedList.Flush` | gps/utils/linked_list.c:228-258 | the list becomes empty and exactly the objects with a free function are freed, in order |
| `LinkedList.FreedInTurn` | gps/utils/linked_list.c:228-258 | each object is freed in its turn if it came with a free function, and no other |
| `LinkedList.FirstMatchIsFirst` | gps/utils/linked_list.c:286-321 | the position searched for holds a match and none before it does |
| `LinkedList.Unlink` | gps/utils/linked_list.c:293-305 | one element goes and its neighbours are linked to each other |
| `LinkedList.TakeMatch` | gps/utils/linked_list.c:287-315 | the match is reported if wanted, taken out if asked for, and freed only if nobody got it |
| `LinkedList.SearchKeepsOwnership` | gps/utils/linked_list.c:265-324 | no object is both handed out and freed; one that is taken out is handed out, or freed if it can be; one that stays is not freed |
| `LinkedList.Search` | gps/utils/linked_list.c:265-324 | the first match from the head, and no other element, is reported and, if asked for, taken out |
| `LinkedList.FirstInFirstOut` | gps/utils/linked_list.c:110-202 | over every run of the steps that Add and Remove are proved to take, objects come out in the order in which they went in |
| `LocThread.StepKeeps` | gps/utils/LocThread.cpp:127-204 | every step of either thread keeps the count equal to the number of owners |
| `LocThread.EveryRunKeeps` | gps/utils/LocThread.cpp:66-204 | the invariant holds over every interleaving |
| `LocThread.DeletedExactlyOnce` | gps/utils/LocThread.cpp:150-175 | over every interleaving, joinable or detached, the delegate is deleted exactly once by the last to release it and never touched afterwards; the test of the count never fails |
| `LocThread.StartSucceedsIffRunning` | gps/utils/LocThread.cpp:112-125 | start succeeds if and only if the thread was created and has not already finished |
| `LocThread.RunnableDeletedIffTaken` | gps/utils/LocThread.cpp:177-204 | once the thread has ended, the runnable has been deleted once if and only if the thread took its first look before any stop cleared it |
| `LocThread.StoppedBeforeItStarts` | gps/utils/LocThread.h:72-77 | a run in which start succeeds and the runnable is never deleted |
| `LocThread.JoinableIsJoined` | gps/utils/LocThread.cpp:127-204 | over every interleaving, the owner of a joinable thread that was started lets go of it only after the thread has ended |
| `LocThread.DetachedIsLeft` | gps/utils/LocThread.cpp:127-204 | over every interleaving, an owner that just goes does not stop a detached thread |
| `LocThread.StoppingEnds` | gps/utils/LocThread.cpp:127-148 | once mRunnable is null only a bounded number of steps is left |
| `LocThread.NeverStuck` | gps/utils/LocThread.cpp:127-148 | until both threads are through there is always a step to take |
| `LocIpc.PartsMakeUpData` | gps/utils/LocIpc.cpp:217-232 | parts are 1 to 8192 bytes long and concatenate to the message |
| `LocIpc.DatagramsAre` | gps/utils/LocIpc.cpp:199-235 | up to 8192 bytes are one datagram; more are a header that begins with the tag and the decimal length, and as few parts of 8192 bytes as hold the message |
| `LocIpc.SendData` | gps/utils/LocIpc.cpp:199-235 | all datagrams of the message are sent in order, or failure is reported at the first that is not taken |
| `LocIpc.ScanDecimal` | gps/utils/LocIpc.cpp:124 | the decimal length in a header is read back as that number |
| `LocIpc.FillParts` | gps/utils/LocIpc.cpp:125-131 | the parts fill a buffer of the right size exactly; with more room the listener is left waiting |
| `LocIpc.HeaderRead` | gps/utils/LocIpc.cpp:117-125 | the length in a header is read right exactly when no stale digit follows it |
| `LocIpc.LongReceived` | gps/utils/LocIpc.cpp:122-137 | a long message is received byte for byte |
| `LocIpc.LongLost` | gps/utils/LocIpc.cpp:122-137 | after a stale digit the listener waits for bytes nobody sends |
| `LocIpc.RoundTrip` | gps/utils/LocIpc.cpp:100-138 | for every message and every previous content of the buffer: received once, byte for byte, if and only if it is clean |
| `LocIpc.SecondLongLost` | gps/utils/LocIpc.cpp:105-155 | of two long messages to a fresh listener only the first is received if it leaves a digit behind the second one's header |
| `LocIpc.TwiceSentOnceReceived` | gps/utils/LocIpc.cpp:105-155 | a message of 8193 digits that is sent twice is received once |
| `LocIpc.CleanAtStart` | gps/utils/LocIpc.cpp:100-120 | with a zeroed buffer a message is clean if it is not empty and, when short, does not begin with the header or the abort message |
| `LocIpc.AllReceived` | gps/utils/LocIpc.cpp:100-138 | any number of clean messages from one sender is received in order, each once |
| `LocIpc.ReceiveLong` | gps/utils/LocIpc.cpp:125-136 | the inner loop fills the message or ends the listening |
| `LocIpc.ReceiveTurn` | gps/utils/LocIpc.cpp:103-137 | one turn of the receive loop, in terms of what is received altogether |
| `LocIpc.StartListening` | gps/utils/LocIpc.cpp:100-138 | the receive loop, with its one reused buffer, delivers what the model says |
| `SystemStatus.SystemStatus.SetItem` | gps/core/SystemStatus.cpp:1308-1323 | a repeat of the latest entry only renews its time; any other item is merged and appended, within the bound |
| `SystemStatus.SystemStatus.EventDataItemNotify` | gps/core/SystemStatus.cpp:1434-1541 | true exactly if the kind has a case and the item does not repeat the latest of its report by the comparison of the kind; the merged item is stored back |
| `SystemStatus.SystemStatus.SetDefault` | gps/core/SystemStatus.cpp:1325-1332 | the item is appended, within the bound |
| `SystemStatus.SystemStatus.GetItem` | gps/core/SystemStatus.cpp:1334-1342 | just the latest entry, if there is one |
| `SystemStatus.ReportIsNewest` | gps/core/SystemStatus.h:71 | over every stream the report is the last at most 5 entries of the history with repeats dropped |
| `SystemStatus.TimesAndLength` | gps/core/SystemStatus.cpp:1308-1323 | the latest entry has the time of the latest event, be it a repeat or not, and a report holds five entries once there were that many |
| `SystemStatus.HistoryHasNoRepeats` | gps/core/SystemStatus.cpp:1311-1315 | no two neighbours in a history of reports compare as equal |
| `SystemStatus.UpToDateIff` | gps/core/SystemStatus.cpp:1308-1323 | over every stream of values of one kind, the report says what came last at each moment if and only if no value was taken for a repeat of a different one before it |
| `SystemStatus.KindUpToDateIff` | gps/core/SystemStatus.cpp:1308-1323 | a kind is always up to date if and only if values that compare as equal are equal |
| `SystemStatus.MaskIsFold` | gps/core/SystemStatus.h:485-502 | the latest mask is the fold of connections and disconnections from the second event on |
| `SystemStatus.MaskRightIffStartsConnected` | gps/core/SystemStatus.h:485-502 | the mask is right at every moment if and only if the stream does not start with a disconnection that names a type |
| `SystemStatus.ConnectedTypeByType` | gps/core/SystemStatus.h:487-494 | a type is connected if and only if some event turned it on and no later one turned it off |
| `LocApiBase.WithoutKeepsOthers` | gps/core/LocApiBase.cpp:169-203 | after a removal the table holds all other adapters, each once |
| `LocApiBase.LocApiBase.constructor` | gps/core/LocApiBase.cpp:126-134 | a new table is empty |
| `LocApiBase.LocApiBase.GetEvtMask` | gps/core/LocApiBase.cpp:136-143 | a bit is set if and only if it is not excluded and some adapter has it |
| `LocApiBase.LocApiBase.AddAdapter` | gps/core/LocApiBase.cpp:158-167 | appends a new adapter while there is room, keeps the table without holes or repeats, and asks to open |
| `LocApiBase.LocApiBase.RemoveAdapter` | gps/core/LocApiBase.cpp:169-203 | drops exactly its argument, keeps the table without holes or repeats, and closes if none is left |
| `LocApiBase.LocApiBase.TakeOut` | gps/core/LocApiBase.cpp:174-202 | the last adapter takes the place of the one that goes |

## Left out

- LocTimerDelegate::expire: reading `mClient` and the `stop()` that follows are one step of the model; a client that is destroyed between the two is outside it.
- LocTimer::start and LocTimer::stop: each is one step, since both hold the shared lock throughout.
- TimerSystem: addresses are never reused, so a message that names a deleted delegate would be seen as such; a failing `timerfd_create`, `epoll_create` or thread creation is not modelled.
- TimerSystem: the time in a heap is the total in nanoseconds; that the two-field comparison agrees with it is `TimerBox.DelegatesRankByTime`, for times below 2^31 seconds.
- LocHeap: a popped node's data pointer is cleared and the node freed; the model hands out the data and drops the node from the tree.
- loc_timer_start and loc_timer_stop, the C wrappers around LocTimer.
- DSStateMachine: the emergency data connection with its retries keeps subscribers listed in RELEASED after a failed call; a request for an emergency type goes to the AGNSS machine, as when no separate emergency connection is configured.
- Agps.AgpsManager.CreateAgpsStateMachines: creates no DSStateMachine.
- Agps.AgpsManager.GetAgpsStateMachine: the case of a separate emergency connection is left out with the DSStateMachine.
- Agps.AgpsManager.RequestATL: likewise, an emergency type goes to the AGNSS machine.
- Agps.AgpsManager.ReleaseATL: likewise, there is no third machine to search.
- Agps.AgpsManager.ReportAtlOpenSuccess: leaves out APN name, APN length and bearer, which are stored and passed on unchanged.
- AgpsManager::handleModemSSR and dropAllSubscribers: they empty the lists without a change of state and are not called in the files modelled here.
- AgpsTheorems.OneTerminalNotification: states it for a handle that is requested only while nothing is outstanding for it; `AgpsTheorems.InOrderIff` shows that it holds of no other.
- AgpsTheorems.NextHandle: keeps the notifications of a handle in step under the same condition, which `AgpsTheorems.InOrderIff` shows to be exact.
- TrackingSessions: session ids are taken to be fresh.
- GnssAdapter: the ULP proxy is the base class, which declines every call; start and stop commands that come from ULP bypass the sessions and are not modelled.
- LocUnorderedSetMap.LocUnorderedSetMap.RemoveAndReturnInterset: the code goes on iterating from an element that it has erased; the model gives that the meaning it would have with a valid iterator.
- SystemStatusOsObserver::turnOn and turnOff, and the framework action requests.
- SystemStatusOsObserver.SystemStatusOsObserver.UpdateCache: `copy` of a data item belongs to the data item library, which is not part of this model; it is taken to copy the contents and to report whether they differed. The comparisons of cell information, service information and supplicant state are parameters.
- SystemStatusOsObserver.SystemStatusOsObserver.Notify: the time at which an item is noted comes with the item, in place of the clock.
- LinkedList: a failing allocation is not modelled, and an element that is freed just drops out of the list.
- LocThread: thread names, priorities and the runnable's own code; `pthread_join` waits until the thread has ended.
- LocIpc: several senders at once, lost or reordered datagrams; leading white space or a sign in front of the length, and a length that overflows, are not parsed as sscanf would.
- SystemStatus: parsing of NMEA fields and the other report kinds, which use the same history with their own comparison.
- LocApiBase: loading of the API library, the open and close calls themselves, and the delivery of reports to the adapters.
- HIDL services, configuration files, battery listener, NI threads, satellite tables and enum converters: thin plumbing or finite tables.
