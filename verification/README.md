# Verified models of the RT-Thread kernel and its configuration evaluator

This project models the core of RT-Thread in Dafny and proves what that code promises: blocking inter-process
communication, the scheduler with its bitmap index, timers on a skip list, three heap allocators, the intrusive list, and
the Kconfig evaluator and expression parser of the build tools.

`dafny verify dfyconfig.toml` checks the whole project.

## How the model is laid out

| file | models | form |
|---|---|---|
| `IntrusiveList.dfy` | `rt_list_t`, the doubly linked ring through a header | objects with `next` and `prev`, tied to a sequence |
| `BitIndex.dfy`, `Kernel.dfy` | `__rt_ffs`, ready lists and bitmaps, thread states, wait lists | a class over thread records, ready lists, wait lists and index words |
| `RoundRobin.dfy` | time slices on the best ready list | functions on a ring of slices, and calls of the kernel's tick proved to follow them |
| `Semaphore.dfy`, `Mutex.dfy`, `Event.dfy`, `Mailbox.dfy`, `MessageQueue.dfy` | the IPC objects of `ipc.c` | a step system (states, events, runs) and a class whose methods are the critical sections |
| `MessageOrder.dfy` | the messages of a message queue from sender to receiver | ghost histories over the runs of `MessageQueue.dfy` |
| `Timer.dfy` | `timer.c` | a step system over an unbounded clock, and the skip list over 32-bit ticks |
| `MailboxTimer.dfy` | the calls of a mailbox together with the timers of their threads | the runs of `Mailbox.dfy` and `Timer.dfy` joined on one clock |
| `Rings.dfy` | positions in a ring, shared by both models of a linked list, and rings whose links a store keeps | functions and lemmas |
| `HeapLayout.dfy`, `MemHeap.dfy` | `memheap.c` | what allocating and freeing do to a tiled range, and the linked headers rewritten in place |
| `SmallMem.dfy` | `mem.c` | the same for offset-linked blocks and the lowest-free pointer |
| `PageList.dfy`, `Slab.dfy` | `slab.c` | runs of free pages, zones of chunks, and the allocators over them |
| `KconfigCache.dfy` | symbol values, visibility, caches and invalidation of `kconfiglib.py` | meaning without caches, and a class with the caches |
| `KconfigExpr.dfy` | `expr_str` and the expression parser | printing and parsing as functions, and the parser advancing over its tokens |
| `Words.dfy`, `Lists.dfy` | 32-bit arithmetic, facts about sequences | functions and lemmas |

**Blocking calls.** Each region between `rt_hw_interrupt_disable` and `rt_hw_interrupt_enable` is one atomic step. An IPC
object has a protocol module: a state with its wait lists and the calls that threads are inside, the events that can happen
(a call, a woken thread running again, a timeout, a reset, a clock tick), a function `Next`, and an invariant proved for
every run, so for every interleaving. The class beside it keeps the fields of the C object (ring buffer offsets, slot links, counters) and
the locals of the sleeping threads; each method is one critical section or one unlocked copy, and its contract says that it
makes exactly one step of the protocol. A method that returns `None` stands for a thread that went to sleep, and `Continue` for
its code after `rt_schedule` has come back to it. What the calls return, and what that says of the object, is stated apart from the
definition of `Next` by the lemmas named `...Answers`, and over runs where a call sleeps in between.

**Lists.** `IntrusiveLists` proves what the operations of `rt_list_t` do to the sequence of nodes in a ring of objects, and that a
ring determines this sequence. The scheduler, the IPC objects and the timers have these sequences in place of rings: no module
imports `IntrusiveLists`, and that they use it as it is specified is not part of the proofs. The headers of `memheap.c` are linked
by address, so `Rings` has the ring again over maps from address to address.

**Thread timers.** A blocked call carries `armed`, which says that the timer of its thread is running; in the class this is the flag
`timerArmed` of the thread record. A timed wait sets it and whatever wakes the thread clears it. The Timeout step needs nothing
else, so that it comes only to a thread that still waits is proved (`TimersOnlyWhileWaiting`). In
`MutexProtocol`, which keeps no calls, it is a step of any waiter. `MailboxTimers` joins the mailbox with the timer list: a timed
sleep sets and starts the thread's timer, a wake-up stops it, and the check of the timers makes the Timeout steps.

**Words.** 32-bit wrap-around is written out wherever the code depends on it (`Words.U32`, `Words.S32`): ticks,
`RT_ALIGN`, the left-over timeout. Bitmap and event words are the sets of their set bits, so `|`, `&` and `& ~` are
union, intersection and difference. The semaphore value is kept to 16 bits and the mutex hold count to 8.

**Configurations.** `RT_ALIGN_SIZE` is 4 and memory statistics are on; ticks are 32 bits; the small-memory heap ends below address 2^32; the number of priorities is any up to
256, so both the one-level and the two-level bitmap are covered; the timer skip list has any number of levels.

## Where the code does not do the obvious

- A semaphore release at the highest 16-bit value wraps the value to 0: conservation holds for a step if and only if it is not such
  a release (`SemaphoreProtocol.StepConserves`; `OverflowLosesUnits` is a run with one).
- Priority inheritance stops short of its purpose when threads own several mutexes. `MutexProtocol.InversionExactly` says, over
  every run, which steps leave a waiter better than the owner it waits for: a sleeper whose boost would have to go on from the owner
  to another owner, a release that falls back below a waiter of another mutex, a hand-over to a waiter that is not the best.
  `RestoredExactly` says when a thread that gives up a mutex has its own priority back, `OtherMutexInversion` when no waiter of a mutex
  it still owns is then better than it, and `NestedIsRestored` that nested use suffices for whoever owns nothing.
  `OverlapRestoresWrongPriority`, `OverlapInversion` and `BoostStopsAtOwner` are runs in which it goes wrong.
- A FIFO mutex handed over does not raise its new owner: `InversionByArrivals` says exactly when no waiter is better than the owner,
  `FifoInversion` is a run in which one is.
- The hold count of a mutex is 8 bits wide: `GivenUpExactly` says that a release gives the mutex up if and only if takes and releases
  are then balanced up to a multiple of 256; in the run of `NestingOverflows`, one release after 257 takes does.
- A timed call that is woken and retests half a turn of the 32-bit tick or more after its deadline takes the deadline to lie ahead, and
  may wait for another turn: `MailboxTimers.TimesOutOnTime` says exactly when a timeout comes at the deadline itself.
- A suspended thread whose priority changes keeps its place in its wait list: `Kernels.ChangeKeepsSorted` says exactly when the list
  stays sorted, `ChangeBreaksOrder` is a case in which it does not.
- `rt_timer_check` need not end. Where timeout functions start only timers of at least 1 tick and leave the others alone, it ends if
  and only if no activated periodic timer of 0 ticks is due (`TimerProtocol.EndsUnlessStuck`; `ZeroTimerSticks` is a run to such a
  state). Whatever they do, it ends if and only if it comes to a turn with no such timer due, after which none of 0 ticks is started
  (`EndsExactly`).
- A one-shot timer restarted by its own timeout function is left in the list with its flag cleared, and `rt_timer_stop` no
  longer takes it out: `TimerProtocol.SelfRestart` says exactly when, `RestartedNotStopped` is such a run.
- In `mem.c`, cutting a block down with `rt_realloc` can leave a free block below `lfree`, which the search of `rt_malloc` then
  misses: `SmallMems.LosesLowest` is the exact case, proved both ways by `CutLowest`, and `LosesLowestOnce` an instance. Splitting the last block leaves
  `heap_end->prev` as it was, so the links are proved for all other blocks.
- In `memheap.c`, the test for growing in place adds to the new size: `MemHeaps.GrowTest` says exactly when the 32-bit sum still
  tells whether there is room. `rt_memheap_alloc` fails when the size equals `available_size`; the contract says so.
- Printing an expression and reparsing it gives the identical tree if and only if its chains of `&&` and `||` are nested to the
  right (`KconfigSyntax.RoundTrip`); the value is the same in any case.

## Model

| member | source | states |
|---|---|---|
| `IntrusiveLists.ListNode.constructor` | rt-thread/include/rtservice.h:44 | a node by itself is an empty ring |
| `IntrusiveLists.ListNode.Init` | rt-thread/include/rtservice.h:51-54 | the same for a node initialised again |
| `IntrusiveLists.RingIsList` | rt-thread/include/rtservice.h:51-124 | a ring determines the sequence of its nodes |
| `IntrusiveLists.InsertAfter` | rt-thread/include/rtservice.h:62-69 | rewriting the four links puts the node behind the i-th one and leaves the order of the others; only those links change |
| `IntrusiveLists.InsertBefore` | rt-thread/include/rtservice.h:77-84 | the same in front of a node; in front of the header is at the end of the list |
| `IntrusiveLists.JoinIn` | rt-thread/include/rtservice.h:62-84 | four links suffice: if every other pair of neighbours is still joined, the ring is the list with the node put in |
| `IntrusiveLists.Remove` | rt-thread/include/rtservice.h:90-96 | the node is out of the list, the others keep their order, and it is an empty ring itself |
| `IntrusiveLists.RemoveAlone` | rt-thread/include/rtservice.h:90-96 | removing a node that is on no list changes nothing |
| `IntrusiveLists.JoinOver` | rt-thread/include/rtservice.h:90-96 | two links suffice to take an element out |
| `IntrusiveLists.IsEmpty` | rt-thread/include/rtservice.h:102-105 | true exactly for the empty list |
| `IntrusiveLists.Len` | rt-thread/include/rtservice.h:111-122 | the number of elements |
| `IntrusiveLists.ForEach` | rt-thread/include/rtservice.h:138-139 | the walk visits every element once, in order |
| `IntrusiveLists.PutAndTake` | rt-thread/include/rtservice.h:62-96 | insertion and removal undo each other, and touch no list that shares no node |
| `BitIndex.FfsFindsLowest` | rt-thread/src/kservice.c:1272-1286 | the table look-ups find the lowest set bit of any non-zero word |
| `BitIndex.TableFindsLowest` | rt-thread/src/kservice.c:1242-1261 | the 256-entry table gives the lowest set bit of any byte of a word |
| `ReadyIndex.HighestReadyIsBest` | rt-thread/src/scheduler.c:191-198 | whenever the bitmaps agree with the ready lists, the lookup gives the best non-empty list, one-level and two-level |
| `ReadyIndex.IndexSet` | rt-thread/src/scheduler.c:302-305 | setting the two bits keeps a two-level index in agreement |
| `ReadyIndex.IndexClear` | rt-thread/src/scheduler.c:343-354 | clearing them, the upper one only when the byte becomes 0, keeps it so |
| `Kernels.InsertConsistent` | rt-thread/src/scheduler.c:272-309 | linking a thread that is on no list makes it READY and restores the whole invariant: lists match states, index matches lists |
| `Kernels.RemoveConsistent` | rt-thread/src/scheduler.c:318-358 | unlinking leaves the thread on no list at all and the index in agreement |
| `Kernels.OnePlace` | rt-thread/src/thread.c:640-748 | a thread is READY exactly if it is on a ready list, that of its priority, once; a waiter is SUSPENDed and on one wait list, once; a defunct thread is CLOSEd |
| `Kernels.PrioPos` | rt-thread/src/ipc.c:97-108 | the place found is behind all waiters of the same or a better priority and in front of the first worse one |
| `Kernels.PrioEnqueueSorted` | rt-thread/src/ipc.c:97-115 | a PRIO wait list stays sorted, first come first served among equals |
| `Kernels.ChangeKeepsSorted` | rt-thread/src/thread.c:588-608 | in a wait list only the priority of that one place changes, and the list stays sorted exactly when it still fits between its neighbours |
| `Kernels.ChangeBreaksOrder` | rt-thread/src/thread.c:588-608 | two waiters at 10 and 20: the second raised to 5 stays second |
| `Kernels.Kernel.ChangeInQueue` | rt-thread/src/thread.c:588-608 | the same for a wait list of the kernel and the record rt_thread_control writes |
| `Kernels.Kernel.QueueInit` | rt-thread/src/ipc.c:59-65 | a new IPC object has an empty wait list; all others stay |
| `Kernels.Kernel.constructor` | rt-thread/src/scheduler.c:106-133 | the empty scheduler satisfies the invariant |
| `Kernels.Kernel.InsertThread` | rt-thread/src/scheduler.c:272-309 | the thread is READY and last on the list of its priority; the invariant holds |
| `Kernels.Kernel.RemoveThread` | rt-thread/src/scheduler.c:318-358 | the thread is on no list; the invariant holds but for its state |
| `Kernels.Kernel.Schedule` | rt-thread/src/scheduler.c:177-263 | with the scheduler unlocked the current thread becomes the head of the best non-empty list; locked, nothing changes |
| `Kernels.Kernel.EnterCritical` | rt-thread/src/scheduler.c:363-378 | the lock nests |
| `Kernels.Kernel.ExitCritical` | rt-thread/src/scheduler.c:384-406 | the last unlock schedules; the count does not fall below 0 |
| `Kernels.Kernel.ThreadInit` | rt-thread/src/thread.c:118-191 | the new record: state INIT, both priorities, a full slice; nothing is linked |
| `Kernels.Kernel.Startup` | rt-thread/src/thread.c:259-291 | the masks match the priority, the thread is READY, last on its list, and the best thread runs if the scheduler does |
| `Kernels.Kernel.Suspend` | rt-thread/src/thread.c:640-673 | only a READY thread is suspended; it is then on no list, its timer stopped; otherwise an error and no change |
| `Kernels.Kernel.Resume` | rt-thread/src/thread.c:683-717 | only a SUSPENDed thread is resumed: off its wait list, on its ready list, its timer stopped; otherwise an error and no change |
| `Kernels.Kernel.Timeout` | rt-thread/src/thread.c:726-748 | the thread is woken with a timeout error, off its wait list, and the best thread runs |
| `Kernels.Kernel.ChangePriority` | rt-thread/src/thread.c:571-612 | a READY thread moves to the end of its new list with new masks; any other thread keeps its place |
| `Kernels.Kernel.Delete` | rt-thread/src/thread.c:402-433 | the thread is CLOSEd and unlinked from everything, and first on the defunct list when it is to be cleaned up later |
| `Kernels.Kernel.Exit` | rt-thread/src/thread.c:81-116 | the current thread is CLOSEd and unlinked, and another one, the best, runs |
| `Kernels.Kernel.Yield` | rt-thread/src/thread.c:444-478 | the current thread goes to the end of its list if it is READY and not alone there, and the best thread runs |
| `Kernels.Kernel.TickIncrease` | rt-thread/src/clock.c:69-91 | the slice shrinks, and is refilled when used up with a yield; the tick wraps at 32 bits |
| `Kernels.Kernel.IpcSuspend` | rt-thread/src/ipc.c:78-121 | the thread is suspended and put on the wait list at the place its flag asks for |
| `Kernels.Kernel.FindPosition` | rt-thread/src/ipc.c:97-108 | the search loop gives the place of PrioPos |
| `Kernels.Kernel.IpcResume` | rt-thread/src/ipc.c:132-145 | exactly the head of the wait list is woken |
| `Kernels.Kernel.IpcResumeAll` | rt-thread/src/ipc.c:155-183 | every waiter is woken with an error, in order, and the list is empty |
| `RoundRobin.HeadExpires` | rt-thread/src/clock.c:76-87 | the running thread keeps the processor for what is left of its slice and then goes to the end with a full one |
| `RoundRobin.RotatesBy` | rt-thread/src/clock.c:76-87 | after the ticks that the first i threads have left, the ready list has rotated by i |
| `RoundRobin.EveryThreadRuns` | rt-thread/src/clock.c:76-87 | on the ring: every slot is at the head again after what is left of the slices before it, which is within the slices of the others |
| `RoundRobinTick.TickIsRingTick` | rt-thread/src/clock.c:76-87 | the change the tick makes to the head of the ready list, its slice and its place is a tick of the ring |
| `RoundRobinTick.TickOnce` | rt-thread/src/clock.c:69-91 | one call of rt_tick_increase: the best ready list makes one tick of the ring and its head is current |
| `RoundRobinTick.RunTicks` | rt-thread/src/clock.c:69-91 | n calls of it make n ticks of the ring, with the head of the list current |
| `RoundRobinTick.RunsAgain` | rt-thread/src/scheduler.c:186-210 | fairness: any thread of the best priority is the current thread after a number of calls within the sum of the slices of the others |
| `SemaphoreProtocol.RunsKeepInv` | rt-thread/src/ipc.c:339-400 | over every run threads wait only while the value is 0, and the wait list holds exactly the waiting threads |
| `SemaphoreProtocol.StepConserves` | rt-thread/src/ipc.c:450-457 | a step other than a reset conserves units if and only if it is not a release at the highest 16-bit value |
| `SemaphoreProtocol.OverflowLosesUnits` | rt-thread/src/ipc.c:450-457 | a run with such a release: 65535 units become none |
| `SemaphoreProtocol.Conservation` | rt-thread/src/ipc.c:339-457 | initial value plus releases is the value plus successful takes plus the grants not yet returned |
| `SemaphoreProtocol.TimersOnlyWhileWaiting` | rt-thread/src/thread.c:683-748 | over every run a timer that fires finds its thread still waiting and on the wait list, because whatever woke it would have stopped the timer |
| `SemaphoreProtocol.WokenOnce` | rt-thread/src/ipc.c:371-398 | how a wait ended never changes: a grant does not become a timeout, though the timer of a timed wait may fire at any time while it runs |
| `SemaphoreProtocol.NoOvertaking` | rt-thread/src/ipc.c:132-145 | nobody behind another thread in the wait list is granted the semaphore before it |
| `SemaphoreProtocol.TakeAnswers` | rt-thread/src/ipc.c:339-400 | a take is told RT_EOK exactly if there is a unit, and takes one; RT_ETIMEOUT exactly if there is none and no time to wait, and then nothing changes; otherwise it waits at its place |
| `SemaphoreProtocol.ReleaseAnswers` | rt-thread/src/ipc.c:450-457 | a release wakes the first to wait with the unit, or raises the value by one, from the highest to 0 |
| `SemaphoreProtocol.EndedBy` | rt-thread/src/ipc.c:132-183 | over every run: a wait that is over was ended by a release while the thread was the first to wait, by its timer, or by a reset, and stays so |
| `SemaphoreProtocol.ReturnAnswers` | rt-thread/src/ipc.c:395-404 | over every run: a call that has slept returns RT_EOK for such a release, RT_ETIMEOUT for its timer, RT_ERROR for a reset |
| `SemaphoreProtocol.TimeoutAnswers` | rt-thread/src/thread.c:726-748 | a timer takes its thread off the list; value and other calls stay |
| `SemaphoreProtocol.ResetAnswers` | rt-thread/src/ipc.c:487-505 | a reset leaves the lowest 16 bits of the value given, and everybody who waits fails |
| `Semaphores.Semaphore.constructor` | rt-thread/src/ipc.c:197-217 | a new semaphore is the initial state |
| `Semaphores.Semaphore.TakeUnit` | rt-thread/src/ipc.c:320-405 | the critical section is the Take step: immediate, refused, or asleep at its place |
| `Semaphores.Semaphore.ReleaseUnit` | rt-thread/src/ipc.c:429-467 | is the Release step: the first waiter is granted the unit, or the value grows |
| `Semaphores.Semaphore.Continue` | rt-thread/src/ipc.c:395-398 | a woken thread returns what woke it |
| `Semaphores.Semaphore.TimerFires` | rt-thread/src/thread.c:726-748 | is the Timeout step |
| `Semaphores.Semaphore.ControlReset` | rt-thread/src/ipc.c:479-511 | is the Reset step: all waiters fail, the value is set |
| `MutexProtocol.StepKeepsInv` | rt-thread/src/ipc.c:650-877 | every step of a thread that owns no other mutex keeps the invariant below, for PRIO and for FIFO mutexes |
| `MutexProtocol.RunsSound` | rt-thread/src/ipc.c:650-877 | over every run, overlapping or not: value 1 iff no owner, no owner among its waiters, nobody waits for two mutexes, nobody runs at a priority worse than its own |
| `MutexProtocol.TakeAnswers` | rt-thread/src/ipc.c:677-745 | over every run, from the states before and after: a take is told RT_EOK exactly if its caller then owns the mutex, nothing exactly if it then waits for it, and RT_ETIMEOUT exactly if neither; that is when another thread owns it and there is no time, and nothing changes |
| `MutexProtocol.ReleaseAnswers` | rt-thread/src/ipc.c:808-875 | a release is told RT_EOK exactly if its caller owned the mutex; otherwise RT_ERROR, and nothing changes |
| `MutexProtocol.WaitEnds` | rt-thread/src/ipc.c:745-767 | over every run: a take that sleeps ends by its timer, without the mutex, or by being handed the mutex as the first to wait |
| `MutexProtocol.GotHow` | rt-thread/src/ipc.c:682-857 | over every run: whoever comes to own a mutex took it while nobody owned it and was told RT_EOK, or was the first to wait when its owner gave it up |
| `MutexProtocol.GotAt` | rt-thread/src/ipc.c:682-693 | every owner got the mutex at some step and has owned it since |
| `MutexProtocol.OriginalKept` | rt-thread/src/ipc.c:682-693 | original_priority is the priority the owner had when it got the mutex, by taking it or by having it handed over |
| `MutexProtocol.RestoredExactly` | rt-thread/src/ipc.c:827-835 | over every run: whoever gives up a mutex has the priority back it had when it got it, so its own if and only if it had its own then |
| `MutexProtocol.OtherMutexInversion` | rt-thread/src/ipc.c:827-835 | having given up one mutex, a thread is no worse than the waiters of another it still owns if and only if the priority noted in the first is not |
| `MutexProtocol.NestedIsRestored` | rt-thread/src/ipc.c:827-835 | over every run in which the mutex that a thread gives up last was got when it owned none, as in nested use, a thread that owns none has its own priority |
| `MutexProtocol.GivenUpExactly` | rt-thread/src/ipc.c:677-826 | a release by the owner gives the mutex up if and only if takes and releases are then balanced up to a multiple of 256 |
| `MutexProtocol.NestingOverflows` | rt-thread/src/ipc.c:677-826 | a run: taken 257 times and released once, the mutex is given up |
| `MutexProtocol.StepInversion` | rt-thread/src/ipc.c:713-857 | exactly which steps keep every waiter no better than the owner it waits for, for PRIO and FIFO mutexes, overlapping or not |
| `MutexProtocol.InversionExactly` | rt-thread/src/ipc.c:713-857 | over every run: no waiter is ever better than the owner it waits for if and only if every step meets that condition |
| `MutexProtocol.RunsKeepInv` | rt-thread/src/ipc.c:677-867 | over every run in which nobody waits for or takes a mutex while owning another: own priority when nothing is owned, original_priority the own priority of the owner, and for PRIO mutexes waiters sorted by priority and the owner never worse than a waiter |
| `MutexProtocol.ServedInOrder` | rt-thread/src/ipc.c:78-121 | first come first served over runs: of two waiters the one in front is better or, if equally good, has been asleep for longer (PRIO, in those runs); or simply has been asleep for longer (FIFO, in every run) |
| `MutexProtocol.AsleepAt` | rt-thread/src/ipc.c:713-745 | every waiter went to sleep at some step and has been asleep since |
| `MutexProtocol.HandedInOrder` | rt-thread/src/ipc.c:837-857 | a mutex given up goes to the best waiter, among equals to the one that has been asleep the longest |
| `MutexProtocol.NoInversion` | rt-thread/src/ipc.c:713-724 | in those runs the owner of a PRIO mutex has at least the priority of every waiter |
| `MutexProtocol.OwnerPriority` | rt-thread/src/ipc.c:713-724 | in those runs an owner has its own priority or the best of the threads that went to sleep on the mutex since it got it |
| `MutexProtocol.InversionByArrivals` | rt-thread/src/ipc.c:837-857 | so no waiter is better than the owner if and only if each is no better than what the owner is by itself or than somebody who went to sleep since the hand-over |
| `MutexProtocol.FifoInversion` | rt-thread/src/ipc.c:837-857 | a run of a FIFO mutex after which a better thread waits for an unboosted owner |
| `MutexProtocol.OverlapRestoresWrongPriority` | rt-thread/src/ipc.c:827-835 | a run: two mutexes released in the order taken leave a thread with a boosted priority and nothing owned |
| `MutexProtocol.OverlapInversion` | rt-thread/src/ipc.c:827-835 | a run: giving up one of two mutexes drops the boost that a waiter of the other gave |
| `MutexProtocol.BoostStopsAtOwner` | rt-thread/src/ipc.c:713-724 | a run: the boost of an owner that itself waits does not reach the owner it waits for |
| `Mutexes.Mutex.constructor` | rt-thread/src/ipc.c:526-546 | a new mutex is free, with an empty wait list |
| `Mutexes.Mutex.TakeMutex` | rt-thread/src/ipc.c:650-775 | mutex, priorities and result are those of the Take step: nested, taken, refused, or asleep with the owner boosted; the caller runs on with that result as its error, or sleeps with its timer set; nobody else is told anything, and no other wait list changes |
| `Mutexes.Mutex.Inherit` | rt-thread/src/ipc.c:717-724 | the owner gets the priority of the thread about to wait, if that is better; nothing else changes |
| `Mutexes.Mutex.Restore` | rt-thread/src/ipc.c:829-835 | the owner gets back the priority it had |
| `Mutexes.Mutex.HandOn` | rt-thread/src/ipc.c:837-857 | the first waiter is the owner, with its own priority noted, and ready |
| `Mutexes.Mutex.GiveUp` | rt-thread/src/ipc.c:824-867 | the last release: the priority is restored, and the mutex handed on or freed |
| `Mutexes.Mutex.ReleaseMutex` | rt-thread/src/ipc.c:786-877 | mutex, priorities and result are those of the Release step: refused, unnested, handed over, or freed; the new owner is ready, with no error set, and nobody else is woken; no other wait list changes |
| `Mutexes.Mutex.TimerFires` | rt-thread/src/thread.c:726-748 | the waiter leaves and is told RT_ETIMEOUT, the owner keeps what it inherited; no other wait list or thread changes |
| `EventProtocol.RecvAnswers` | rt-thread/src/ipc.c:1138-1212 | a receive is told RT_EOK, with exactly the bits set and wanted, if all of them or some are set as asked; then RT_EVENT_FLAG_CLEAR clears exactly the wanted bits; for no bits it is told RT_ERROR, without time RT_ETIMEOUT, and nothing changes; otherwise it waits at its place |
| `EventProtocol.RecvIsPass` | rt-thread/src/ipc.c:1045-1179 | for every word and condition, receiving at once hands over and leaves what the pass of a send over that one waiter does |
| `EventProtocol.SendIsReceiveInTurn` | rt-thread/src/ipc.c:1045-1097 | sending gives each waiter the bits, and clears the bits, that its own Recv step with no time to wait would at its turn, in the order of the list |
| `EventProtocol.PassIsOk` | rt-thread/src/ipc.c:1045-1097 | the pass splits the waiters into those woken, who get what they asked for, and those kept, whom the bits left do not satisfy |
| `EventProtocol.StepKeepsInv` | rt-thread/src/ipc.c:1025-1273 | every step keeps: nobody waits whose condition the event word satisfies; whoever was woken got enough bits |
| `EventProtocol.RunsKeepInv` | rt-thread/src/ipc.c:1025-1273 | the same over every run |
| `EventProtocol.TimersOnlyWhileWaiting` | rt-thread/src/thread.c:683-748 | over every run a timer that fires finds its thread still waiting |
| `EventProtocol.SendAnswers` | rt-thread/src/ipc.c:1036-1102 | a send of no bits is refused and changes nothing; after any other, word and waiters are what the receives in turn leave, those served are woken with what they got, and the other calls are unchanged |
| `EventProtocol.EndedBy` | rt-thread/src/ipc.c:1045-1265 | over every run: a wait that is over was ended by a send in which the thread received just these bits in its turn, by its timer, or by a reset |
| `EventProtocol.ReturnAnswers` | rt-thread/src/ipc.c:1213-1225 | over every run: a receive that has slept returns RT_EOK with those bits, RT_ETIMEOUT or RT_ERROR accordingly |
| `EventProtocol.TimeoutAnswers` | rt-thread/src/thread.c:726-748 | a timer takes its thread off the list; word and other calls stay |
| `EventProtocol.ResetAnswers` | rt-thread/src/ipc.c:1256-1267 | a reset clears every bit, and everybody who waits fails |
| `Events.EventObject.constructor` | rt-thread/src/ipc.c:911-929 | a new event has no bits and no waiters |
| `Events.EventObject.Receive` | rt-thread/src/ipc.c:1123-1233 | is the Recv step: bits at once, refused, or asleep |
| `Events.EventObject.SendBits` | rt-thread/src/ipc.c:1025-1107 | is the Send step |
| `Events.EventObject.Walk` | rt-thread/src/ipc.c:1045-1097 | the loop over the wait list, which removes threads as it goes, completes the pass from any point reached |
| `Events.EventObject.Visit` | rt-thread/src/ipc.c:1056-1095 | one turn: the condition, the bits granted, the bits cleared, and the resumption |
| `Events.EventObject.Continue` | rt-thread/src/ipc.c:1213-1225 | a woken thread returns its bits or its error |
| `Events.EventObject.TimerFires` | rt-thread/src/thread.c:726-748 | is the Timeout step |
| `Events.EventObject.ControlReset` | rt-thread/src/ipc.c:1245-1273 | is the Reset step |
| `MailboxProtocol.StepKeepsInv` | rt-thread/src/ipc.c:1438-1754 | every step keeps the invariant: box within its size, lists match calls, no lost wake-up, deadlines kept, mails conserved |
| `MailboxProtocol.RunsKeepInv` | rt-thread/src/ipc.c:1468-1709 | over every run, with stealing, timeouts, re-suspension and resets: receivers wait only if at most as many mails are left as woken receivers have yet to retest, and senders likewise for free places |
| `MailboxProtocol.TimersOnlyWhileWaiting` | rt-thread/src/thread.c:683-748 | over every run a timer that fires finds its thread still waiting |
| `MailboxProtocol.QuietMailbox` | rt-thread/src/ipc.c:1468-1709 | once every woken thread has had its turn, receivers wait only on an empty mailbox and senders only on a full one |
| `MailboxProtocol.FirstInFirstOut` | rt-thread/src/ipc.c:1438-1710 | the histories of mails put into and taken out of the box: without resets those taken are those put in, in order, none lost or doubled |
| `MailboxProtocol.AttemptAnswers` | rt-thread/src/ipc.c:1468-1702 | a sender is told RT_EOK exactly if its mail is then the last in the box, a receiver RT_EOK and a mail exactly if that was the first; with no time left RT_EFULL or RT_ETIMEOUT, and nothing else happens; they sleep exactly otherwise |
| `MailboxProtocol.WakesFirst` | rt-thread/src/ipc.c:1540-1702 | a mail put in wakes the first waiting receiver, one taken out the first waiting sender, and nobody else |
| `MailboxProtocol.CallIsLast` | rt-thread/src/ipc.c:1438-1710 | over every run a thread is inside the call, for the mail, that it entered last |
| `MailboxProtocol.AnsweredInOrder` | rt-thread/src/ipc.c:1438-1710 | over every run without resets: the mails of the sending calls that have returned RT_EOK are the mails that receiving calls have returned with RT_EOK, in that order, followed by those in the box |
| `MailboxProtocol.FailedFor` | rt-thread/src/thread.c:726-748 | over every run: a call woken with an error was waiting when its timer fired, for RT_ETIMEOUT, or at a reset, for RT_ERROR |
| `MailboxProtocol.GiveUpAnswers` | rt-thread/src/ipc.c:1511-1517 | and that error is what it returns |
| `MailboxProtocol.ClockAnswers` | rt-thread/src/clock.c:69-91 | a tick advances the 32-bit clock by one and changes nothing else; a timer takes its thread off the list and changes no other call |
| `MailboxProtocol.ResetAnswers` | rt-thread/src/ipc.c:1734-1750 | a reset empties the box, and everybody who waits fails |
| `Words.LeftOverIs` | rt-thread/src/ipc.c:1519-1528 | what is left of a timeout is it less the ticks gone by, and none once they have used it up |
| `Mailboxes.HoldsPut` | rt-thread/src/ipc.c:1531-1538 | storing at in_offset appends to the ring buffer, across its end |
| `Mailboxes.HoldsTake` | rt-thread/src/ipc.c:1679-1687 | fetching at out_offset takes the oldest mail, across the end of the buffer |
| `Words.LeftOverKeepsDue` | rt-thread/src/ipc.c:1521-1528 | the timeout recomputed after a wake-up keeps the deadline of the original call, on wrapping ticks |
| `Mailboxes.Mailbox.constructor` | rt-thread/src/ipc.c:1290-1318 | a new mailbox is the initial state |
| `Mailboxes.Mailbox.SendWait` | rt-thread/src/ipc.c:1438-1557 | up to its return or its going to sleep, is the Enter step of a sender |
| `Mailboxes.Mailbox.Recv` | rt-thread/src/ipc.c:1586-1710 | the same for a receiver |
| `Mailboxes.Mailbox.SendLoop` | rt-thread/src/ipc.c:1468-1551 | one pass from the test on is one attempt: stored with a receiver woken, refused, or asleep |
| `Mailboxes.Mailbox.RecvLoop` | rt-thread/src/ipc.c:1614-1702 | the same for a receiver |
| `Mailboxes.Mailbox.Continue` | rt-thread/src/ipc.c:1511-1528 | a woken thread tests again, with what is left of its timeout, or returns its error |
| `Mailboxes.Mailbox.TimerFires` | rt-thread/src/thread.c:726-748 | is the Timeout step |
| `Mailboxes.Mailbox.ClockTick` | rt-thread/src/clock.c:69-91 | is the Tick step |
| `Mailboxes.Mailbox.ControlReset` | rt-thread/src/ipc.c:1722-1754 | is the Reset step: both lists fail, the box is empty |
| `MailboxTimers.StepKeepsInv` | rt-thread/src/ipc.c:1438-1754 | every step of threads, clock and timer check keeps: the timers that run are those of timed calls asleep on the mailbox, due at their deadlines |
| `MailboxTimers.RunsKeepInv` | rt-thread/src/ipc.c:1438-1754 | the same over every run |
| `MailboxTimers.TimesOutOnTime` | rt-thread/src/ipc.c:1484-1528 | a timed call times out when the tick equals its deadline and never before, however often it was woken and slept again; at the deadline itself exactly if it last went to sleep before it |
| `MailboxTimers.NoneOverdue` | rt-thread/src/timer.c:482-540 | between checks no timed call that waits is past the deadline its timer is set to |
| `QueueProtocol.StepKeepsInv` | rt-thread/src/ipc.c:1960-2322 | every step keeps the invariant: each slot in one place, contents right, lists match calls, no lost wake-up |
| `QueueProtocol.RunsKeepInv` | rt-thread/src/ipc.c:1960-2311 | for every interleaving of senders, urgent senders and receivers, copies included, each slot is in exactly one of free list, queue, a sender or a receiver mid-copy |
| `QueueProtocol.TimersOnlyWhileWaiting` | rt-thread/src/thread.c:683-748 | over every run a timer that fires finds its thread still waiting |
| `QueueProtocol.ReceivedUnaltered` | rt-thread/src/ipc.c:2249-2258 | the copy out of the slot, made without a lock, gives the bytes of the message noted when it was unlinked, as many as asked for, cut off at the slot size |
| `MessageOrder.QueuedMessages` | rt-thread/src/ipc.c:2001-2119 | over every run the queue holds exactly the buffers linked and not yet unlinked or reset: ordinary ones put at the end, urgent ones at the front |
| `MessageOrder.QueuedInOrder` | rt-thread/src/ipc.c:2001-2119 | urgent messages wait before ordinary ones, the latest urgent one first, the earliest ordinary one first |
| `MessageOrder.LeavesOnce` | rt-thread/src/ipc.c:2234-2247 | no linked message is unlinked twice, or unlinked and still queued |
| `MessageOrder.NoneLost` | rt-thread/src/ipc.c:1960-2264 | without resets every linked message has been unlinked by a receiver or is in the queue |
| `MessageOrder.SentBefore` | rt-thread/src/ipc.c:1960-2017 | a message is linked by a thread that has handed it over before, unaltered, with its urgency |
| `MessageOrder.UnlinkedBefore` | rt-thread/src/ipc.c:2234-2250 | a receiver mid-copy has unlinked its message as the head of the queue at an earlier step, and holds on to it |
| `MessageOrder.Delivered` | rt-thread/src/ipc.c:1960-2264 | what rt_mq_recv returns was handed over by some thread, linked by it afterwards, and then unlinked at the head of the queue by the thread that returns it: the same bytes, in the length asked for, cut off at the slot size |
| `MessageOrder.DeliveredOnce` | rt-thread/src/ipc.c:2234-2247 | two unlinking steps never take the message of one linking step |
| `MessageOrder.NoneTwice` | rt-thread/src/ipc.c:2135-2264 | two calls of rt_mq_recv never return the message of one linking step |
| `MessageOrder.SendAnswers` | rt-thread/src/ipc.c:1970-1994 | a send is refused with RT_ERROR exactly if the message is too long, with RT_EFULL exactly if it is not and no slot is free; then nothing changes; otherwise it goes on to copy |
| `MessageOrder.SendReturns` | rt-thread/src/ipc.c:1960-2036 | a send returns RT_EOK exactly at the step that links its message, at the end of the queue or, urgent, at its front |
| `MessageOrder.SentIsKept` | rt-thread/src/ipc.c:1960-2264 | over every run: the message of a send that has returned RT_EOK is the one handed over, and is in the queue or has been unlinked by a receiver as long as there is no reset |
| `MessageOrder.CallGoesOn` | rt-thread/src/ipc.c:1960-2264 | a thread inside a call can always go on unless it is asleep: copy and link, copy out and return, test again or give up |
| `MessageOrder.ReceiveAnswers` | rt-thread/src/ipc.c:2168-2247 | a receiver takes the head exactly if there is one, is told RT_ETIMEOUT exactly if there is none and no time left, and waits otherwise |
| `MessageOrder.ReceiveReturns` | rt-thread/src/ipc.c:2135-2264 | over every run: rt_mq_recv returns RT_EOK exactly with a message |
| `MessageOrder.FailedFor` | rt-thread/src/thread.c:726-748 | over every run: a receiver woken with an error was waiting when its timer fired, for RT_ETIMEOUT, or at a reset, for RT_ERROR |
| `MessageOrder.GiveUpAnswers` | rt-thread/src/ipc.c:2214-2219 | and that error is what it returns |
| `MessageOrder.ClockAnswers` | rt-thread/src/clock.c:69-91 | a tick advances the 32-bit clock by one and changes nothing else; a timer takes its thread off the list and changes no other call |
| `MessageOrder.ResetAnswers` | rt-thread/src/ipc.c:2287-2311 | a reset empties the queue, and everybody who waits fails |
| `QueueProtocol.QuietQueue` | rt-thread/src/ipc.c:2168-2247 | once all woken receivers have had their turn, receivers wait only on an empty queue |
| `QueueProtocol.NoSlotLost` | rt-thread/src/ipc.c:1960-2311 | with nobody mid-copy the free and the queued slots are the whole pool, each once |
| `QueueProtocol.CopyInKeepsContent` | rt-thread/src/ipc.c:1996-1999 | a sender copying without a lock disturbs no message of anybody else |
| `MessageQueues.ChainAppend` | rt-thread/src/ipc.c:2003-2014 | linking at the old tail appends to the chain |
| `MessageQueues.PoolLink` | rt-thread/src/ipc.c:2003-2017 | head, tail and links after an ordinary send are the queue with the slot at its end |
| `MessageQueues.PoolLinkUrgent` | rt-thread/src/ipc.c:2092-2101 | the same for an urgent one, at its front |
| `MessageQueues.PoolUnlink` | rt-thread/src/ipc.c:2234-2244 | head, tail and links after taking the head; the tail is null iff the head is |
| `MessageQueues.MessageQueue.constructor` | rt-thread/src/ipc.c:1777-1824 | the pool is cut into aligned slots, all of them on the free chain |
| `MessageQueues.MessageQueue.Send` | rt-thread/src/ipc.c:1960-1994 | the first section of sending, urgent or not: too long, full, or a slot taken |
| `MessageQueues.MessageQueue.CopyMessage` | rt-thread/src/ipc.c:1996-1999 | the unlocked copy into the slot |
| `MessageQueues.MessageQueue.LinkMessage` | rt-thread/src/ipc.c:2001-2036 | the second section: linked, counted, a receiver woken |
| `MessageQueues.MessageQueue.Recv` | rt-thread/src/ipc.c:2135-2247 | up to the first return, sleep or copy, is the Receive step |
| `MessageQueues.MessageQueue.UnlinkHead` | rt-thread/src/ipc.c:2234-2247 | the head of the queue is unlinked and becomes the slot the receiver copies out of |
| `MessageQueues.MessageQueue.Continue` | rt-thread/src/ipc.c:2214-2231 | a woken receiver tests again with what is left of its timeout, or returns its error |
| `MessageQueues.MessageQueue.Fetch` | rt-thread/src/ipc.c:2249-2250 | the unlocked copy out of the slot, limited to the slot size |
| `MessageQueues.MessageQueue.Return` | rt-thread/src/ipc.c:2252-2263 | the slot goes to the front of the free chain, and the message to the caller |
| `MessageQueues.MessageQueue.TimerFires` | rt-thread/src/thread.c:726-748 | is the Timeout step |
| `MessageQueues.MessageQueue.ClockTick` | rt-thread/src/clock.c:69-91 | is the Tick step |
| `MessageQueues.MessageQueue.DrainQueue` | rt-thread/src/ipc.c:2293-2308 | the loop of a reset moves every slot of the queue to the free chain |
| `MessageQueues.MessageQueue.ControlReset` | rt-thread/src/ipc.c:2276-2322 | is the Reset step |
| `TimerProtocol.StepKeepsInv` | rt-thread/src/timer.c:284-540 | every step keeps: list sorted by deadline with ties in start order, everything activated is listed, everything listed is due in time |
| `TimerProtocol.FiresOnTimeInOrder` | rt-thread/src/timer.c:482-540 | over every run each timer fires at its deadline tick (the next tick if started with 0), in order of deadlines and starts, none twice, none missed |
| `TimerProtocol.PeriodicRecurs` | rt-thread/src/timer.c:519-525 | a periodic timer that nobody touches is due at its first deadline plus a multiple of init_tick, one for each firing |
| `TimerProtocol.OpLaws` | rt-thread/src/timer.c:284-473 | a start makes a timer due init_tick from now, whether it was running or not; a stop takes an activated one out; setting time or mode changes when it is due and whether it is listed for no timer; other timers keep settings and order |
| `TimerProtocol.FiresAfter` | rt-thread/src/timer.c:284-540 | over every run: a timer started, and touched by nobody after that, fires init_tick ticks later, or at the next tick for 0, and not before |
| `TimerProtocol.StaysStopped` | rt-thread/src/timer.c:410-540 | over every run: a timer that is not listed, as after a stop of an activated one, does not fire until it is started |
| `TimerProtocol.SelfRestart` | rt-thread/src/timer.c:519-530 | exactly when a timer is left in the list with its flag cleared; rt_timer_stop then does nothing |
| `TimerProtocol.RestartedNotStopped` | rt-thread/src/timer.c:410-530 | a run in which a timer so restarted is not taken out by rt_timer_stop |
| `TimerProtocol.FireDecreases` | rt-thread/src/timer.c:495-534 | each turn of the loop leaves fewer due timers, unless the one fired is an activated periodic timer of 0 ticks or its timeout function starts one of 0 ticks |
| `TimerProtocol.EndsExactly` | rt-thread/src/timer.c:495-534 | whatever timeout functions do, the loop ends if and only if it comes to a turn at which no activated periodic timer of 0 ticks is due and from which on none of 0 ticks is started |
| `TimerProtocol.EndsUnlessStuck` | rt-thread/src/timer.c:495-534 | where timeout functions start only timers of at least 1 tick, set none to 0 and leave the stuck ones alone, the loop ends if and only if no listed timer that is due is periodic, activated and of 0 ticks |
| `TimerProtocol.CalmEnds` | rt-thread/src/timer.c:495-534 | one half of this: periodic timers of 0 ticks that are stopped, never started or not yet due do no harm |
| `TimerProtocol.ZeroNeverEnds` | rt-thread/src/timer.c:495-534 | the other half: the loop does not end once such a timer is due that the timeout functions leave alone, whatever else they do |
| `TimerProtocol.ZeroTimerSticks` | rt-thread/src/timer.c:284-534 | a run to such a state: a periodic timer of 0 ticks is created and started, and the tick advances |
| `Timers.AfterIsLater` | rt-thread/src/timer.c:347-354 | the wrapped comparison orders deadlines as the unbounded clock does, within the stated distance |
| `Timers.ExpiredIsDue` | rt-thread/src/timer.c:504 | the wrapped test of the check is the true one |
| `Timers.RaiseRows` | rt-thread/src/timer.c:367-379 | a timer of any height keeps every row a sorted subsequence of the row below |
| `Timers.UnlinkRows` | rt-thread/src/timer.c:109-117 | and so does taking one out |
| `Timers.TimerList.constructor` | rt-thread/src/timer.c:665-673 | empty rows |
| `Timers.TimerList.TimerInit` | rt-thread/src/timer.c:68-93 | a new timer is not listed |
| `Timers.TimerList.Unlink` | rt-thread/src/timer.c:109-117 | the timer leaves every row |
| `Timers.TimerList.FindHeads` | rt-thread/src/timer.c:330-358 | the search finds, in each row, the place behind everything due no later |
| `Timers.TimerList.Link` | rt-thread/src/timer.c:360-379 | the timer goes into the last row and as many above as the counter gives it |
| `Timers.TimerList.StartTimer` | rt-thread/src/timer.c:284-400 | the skip list insertion is stable insertion into the list sorted by true deadlines |
| `Timers.TimerList.StopTimer` | rt-thread/src/timer.c:410-435 | an activated timer leaves the list; any other is refused and left alone |
| `Timers.TimerList.Perform` | rt-thread/src/timer.c:284-473 | start, stop, set time, set mode |
| `Timers.TimerList.Configure` | rt-thread/src/timer.c:444-473 | setting the time or the mode changes one field and leaves the list alone |
| `Timers.TimerList.TickIncrease` | rt-thread/src/clock.c:69-91 | the clock advances, wrapping, before the check |
| `Timers.TimerList.FireFirst` | rt-thread/src/timer.c:497-530 | one turn of the check, with whatever its timeout function does to timers |
| `Timers.TimerList.Use` | rt-thread/src/timer.c:284-473 | a thread starts, stops or changes a timer between checks: is the Call step |
| `Timers.TimerList.CheckTurns` | rt-thread/src/timer.c:482-540 | for all timeout functions, whether the loop ends or not: after any number of turns it has fired the due timers one after the other, and goes on exactly if the first one is due |
| `Timers.TimerList.Check` | rt-thread/src/timer.c:482-540 | when the loop ends, it has fired exactly the due timers one after the other, whatever their timeout functions do |
| `Timers.TimerList.NextTimeout` | rt-thread/src/timer.c:96-107 | the earliest deadline of all |
| `HeapLayout.AllocatedOk` | rt-thread/src/memheap.c:155-258 | taking a block keeps the tiling, alignment and separation of free blocks, and costs exactly its bytes |
| `HeapLayout.FreedOk` | rt-thread/src/memheap.c:535-591 | freeing with merges does too, and gives exactly the bytes back and a header per merge |
| `HeapLayout.CutOk` | rt-thread/src/memheap.c:432-485 | so does cutting a block down, with the rest joined to a free block after it |
| `HeapLayout.MovedOk` | rt-thread/src/memheap.c:350-402 | so does growing into the free block after it |
| `HeapLayout.AllocateThenFree` | rt-thread/src/memheap.c:138-591 | freeing what was just allocated restores the layout |
| `HeapLayout.FreedKeeps` | rt-thread/src/memheap.c:535-591 | freeing leaves every other block in use, in place and as long as it was |
| `HeapLayout.RoundedBound` | rt-thread/src/memheap.c:148-150 | there is one shortest block that serves a request, in steps of 4 bytes from the minimum, at most 3 bytes longer than the request or the minimum |
| `HeapLayout.AllocatedRoom` | rt-thread/src/memheap.c:185-258 | a block taken for n bytes is that long, or was left whole as the rest is not worth a block; it lies in the heap, and a request fits into it, clear of all other blocks in use, if and only if it is no longer than the block |
| `Rings.RingInsert` | rt-thread/src/memheap.c:209-213 | four writes put a header into a doubly linked ring |
| `Rings.RingRemove` | rt-thread/src/memheap.c:549-551 | two writes take one out |
| `MemHeaps.RequestIs` | rt-thread/src/memheap.c:148-150 | the size is rounded to the shortest block that serves, unless the addition wraps at 32 bits, and then to the minimum |
| `MemHeaps.GrowTest` | rt-thread/src/memheap.c:350 | exactly when the 32-bit test for growing in place is the true one |
| `MemHeaps.GrowTestFails` | rt-thread/src/memheap.c:350 | an instance in which it is not |
| `MemHeaps.MemHeap.constructor` | rt-thread/src/memheap.c:50-121 | one free block, counted, and a used tail |
| `MemHeaps.MemHeap.FirstFit` | rt-thread/src/memheap.c:169-180 | the first block of the free list that is long enough; none before it is |
| `MemHeaps.MemHeap.Take` | rt-thread/src/memheap.c:185-258 | the block is taken, split if a block is left over; links, free list, available_size and max_used_size follow; other contents stay |
| `MemHeaps.MemHeap.Alloc` | rt-thread/src/memheap.c:138-281 | fails exactly if the shortest length that serves fits nowhere or is not below available_size, and then changes nothing; otherwise the first fit is taken, and the bytes asked for are all in it, in the heap, and in no other used block, if and only if the rounding does not wrap; the block is the shortest that serves or a whole one too small to split |
| `MemHeaps.MemHeap.AllocAligned` | rt-thread/src/memheap.c:155-281 | the same for a size already rounded: fails exactly if nothing fits or the size is not below available_size, and then changes nothing; no other block or byte changes |
| `MemHeaps.MemHeap.Release` | rt-thread/src/memheap.c:535-591 | merging to the left, then to the right, with the accounting of each |
| `MemHeaps.MemHeap.Free` | rt-thread/src/memheap.c:495-595 | the block is freed and merged; no byte and no other block changes |
| `MemHeaps.MemHeap.Grow` | rt-thread/src/memheap.c:350-402 | the block grows in place, keeping its bytes |
| `MemHeaps.MemHeap.Shrink` | rt-thread/src/memheap.c:432-485 | the block is cut down in place, keeping what remains |
| `MemHeaps.MemHeap.CopyBytes` | rt-thread/src/memheap.c:412 | the bytes are copied and no others change |
| `MemHeaps.MemHeap.Move` | rt-thread/src/memheap.c:408-416 | allocate, copy, free: the first bytes are kept, other blocks untouched; nothing changes without room |
| `MemHeaps.MemHeap.Realloc` | rt-thread/src/memheap.c:284-492 | wherever the 32-bit test for growing is the true one: when the block stays in place, when it fails, and what is kept; the block returned has room for the bytes asked for, clear of all others, if and only if the rounding does not wrap, and at most a header and a minimum more |
| `MemHeaps.MemHeap.Resize` | rt-thread/src/memheap.c:312-491 | the same for a block in use and an aligned size |
| `MemHeaps.MemHeap.Enlarge` | rt-thread/src/memheap.c:312-422 | a longer size: in place exactly if the free block after it makes up for it, otherwise moved, or refused without change |
| `MemHeaps.MemHeap.Cutback` | rt-thread/src/memheap.c:424-491 | a size no longer: kept as it is or cut down, in place, with its bytes |
| `SmallMems.SmallMem.constructor` | rt-thread/src/mem.c:191-244 | one free block, the lowest |
| `SmallMems.SmallMem.PlugForward` | rt-thread/src/mem.c:152-167 | a free neighbour after the block is joined to it, and lfree follows |
| `SmallMems.SmallMem.PlugBackward` | rt-thread/src/mem.c:169-180 | the same before it |
| `SmallMems.SmallMem.PlugHoles` | rt-thread/src/mem.c:143-181 | both together are freeing with merges |
| `SmallMems.SmallMem.Search` | rt-thread/src/mem.c:292-298 | the first free block from lfree on that is long enough, with the strict bound; if none, there is none |
| `SmallMems.SmallMem.NextLfree` | rt-thread/src/mem.c:367-374 | on to the next free block; all passed over are in use |
| `SmallMems.SmallMem.Split` | rt-thread/src/mem.c:316-335 | a new free block within another, its links and those of its neighbours |
| `SmallMems.SmallMem.Take` | rt-thread/src/mem.c:298-374 | the block is taken, used_mem exact, lfree the lowest free block again |
| `SmallMems.SmallMem.Malloc` | rt-thread/src/mem.c:259-397 | null exactly if no free block from lfree on that starts below the bound has the shortest length that serves; otherwise the bytes asked for are all in the block taken, in the heap, and in no other used block, unless the rounding wraps |
| `SmallMems.SmallMem.UsageInRange` | rt-thread/src/mem.c:336-356 | used_mem stays between 0 and the bytes there are |
| `SmallMems.AlignIs` | rt-thread/src/mem.c:276-286 | rt_malloc rounds to the shortest block that serves, unless the addition wraps; then to the minimum, and rt_realloc frees |
| `SmallMems.AlignIsUp` | rt-thread/src/mem.c:418 | rounded up to a multiple of 4, less than 4 bytes longer |
| `SmallMems.MissesNone` | rt-thread/src/mem.c:292-298 | as long as lfree is the lowest free block the search misses none that starts below its bound |
| `SmallMems.AllocatedUsed` | rt-thread/src/mem.c:336-356 | the bytes counted are exactly the extent taken |
| `SmallMems.FreedUsed` | rt-thread/src/mem.c:590-592 | and those given back |
| `SmallMems.CutUsed` | rt-thread/src/mem.c:460-462 | and those of a block cut down |
| `SmallMems.FreedLowest` | rt-thread/src/mem.c:584-595 | freeing keeps lfree the lowest free block, through both merges |
| `SmallMems.CutLowest` | rt-thread/src/mem.c:458-485 | cutting down keeps it so if and only if lfree was below the block or the next block is free |
| `SmallMems.LosesLowestOnce` | rt-thread/src/mem.c:458-485 | an instance in which it does not |
| `SmallMems.SmallMem.Free` | rt-thread/src/mem.c:535-597 | the block is freed and merged; everything kept including the lowest-free claim |
| `SmallMems.SmallMem.Shrink` | rt-thread/src/mem.c:458-485 | the block is cut down; exactly when the lowest-free claim survives |
| `SmallMems.SmallMem.Realloc` | rt-thread/src/mem.c:408-497 | what happens for every size, that the block returned has room for the bytes asked for, and exactly when the lowest-free claim survives |
| `SmallMems.SmallMem.Resize` | rt-thread/src/mem.c:437-496 | the same for a block in use and an aligned size in range |
| `PageRuns.CanonicalUnique` | rt-thread/src/slab.c:246-317 | a set of pages has one address-sorted list of maximal runs |
| `PageRuns.FirstFitIsLowest` | rt-thread/src/slab.c:246-264 | first fit in it is the lowest fit there is |
| `PageRuns.TakenOk` | rt-thread/src/slab.c:250-263 | allocating keeps the form and removes exactly the pages |
| `PageRuns.ReturnedOk` | rt-thread/src/slab.c:286-317 | freeing keeps the form and adds exactly the pages, whichever neighbours it touches |
| `PageRuns.OrderIrrelevant` | rt-thread/src/slab.c:272-322 | however pages are freed, split up and ordered, the list ends up the same |
| `PageRuns.AllocateThenFree` | rt-thread/src/slab.c:236-322 | freeing what was just allocated restores the list exactly |
| `PageAllocators.PageAllocator.constructor` | rt-thread/src/slab.c:327-334 | one run |
| `PageAllocators.PageAllocator.PageAlloc` | rt-thread/src/slab.c:236-270 | null exactly if there are not that many consecutive free pages; otherwise the lowest ones |
| `PageAllocators.PageAllocator.PageFree` | rt-thread/src/slab.c:272-322 | the pages are free again, the list in canonical form |
| `Zones.ZoneIndexFits` | rt-thread/src/slab.c:401-459 | every size below 16 KB gets the smallest chunk size that holds it, in range, as written back |
| `Zones.ChunkWaste` | rt-thread/src/slab.c:401-459 | it is less than 8 bytes longer than the request, or less than an eighth of the request |
| `Zones.TakeOk` | rt-thread/src/slab.c:539-568 | a zone with a free chunk gives one not in use; new, freed and used chunks still partition the zone, and z_nfree counts right |
| `Zones.GiveOk` | rt-thread/src/slab.c:830-842 | and so for a chunk given back |
| `Zones.FreeCount` | rt-thread/src/slab.c:838-850 | z_nfree plus the chunks in use is z_nmax; a zone is idle exactly if all its chunks are free |
| `Slabs.ZoneIsFull` | rt-thread/src/slab.c:628-648 | a zone put to use has as many chunks as fit behind its header, from the first aligned place |
| `Slabs.Slab.constructor` | rt-thread/src/slab.c:344-395 | an empty heap behind the page map |
| `Slabs.Slab.ZoneSizing` | rt-thread/src/slab.c:374-377 | the zone size is the smallest power of two from 32 KB that the heap calls for, up to 128 KB |
| `Slabs.Slab.ZoneInit` | rt-thread/src/slab.c:628-648 | a fresh zone has room for two chunks or more, aligned, and the first of them to give |
| `Slabs.Slab.MallocLarge` | rt-thread/src/slab.c:493-521 | whole pages, the lowest there are; null exactly if there are none |
| `Slabs.Slab.MallocListed` | rt-thread/src/slab.c:539-577 | the head zone of the list gives a chunk, and leaves the list with its last one |
| `Slabs.Slab.MallocFresh` | rt-thread/src/slab.c:587-659 | an idle zone or the lowest pages become a zone of that chunk size, first on its list |
| `Slabs.Slab.Malloc` | rt-thread/src/slab.c:478-667 | null exactly if zones, idle zones and pages all fail; otherwise a pointer nobody holds, with room for the request, from where the code takes it |
| `Slabs.Slab.GiveBack` | rt-thread/src/slab.c:830-846 | the chunk is first on the free list of its zone, and the zone on its list if it had none left |
| `Slabs.Slab.Retire` | rt-thread/src/slab.c:848-897 | an empty zone becomes idle, or gives its pages back when two are idle already |
| `Slabs.Slab.FreePtr` | rt-thread/src/slab.c:771-904 | the page map decides: a large block gives its pages back, a chunk goes to its zone, an empty zone is retired unless alone on its list |
| `Slabs.Slab.PageMapLeadsBack` | rt-thread/src/slab.c:795-827 | the page map leads from any pointer in use to its own zone or large block |
| `Slabs.Slab.NoOverlap` | rt-thread/src/slab.c:478-904 | no two pointers in use share a byte |
| `KconfigModel.SolutionExists` | rt-thread/tools/kconfiglib.py:3585-3662 | an acyclic configuration has a valuation that agrees with every symbol's properties |
| `KconfigModel.SolutionUnique` | rt-thread/tools/kconfiglib.py:3585-3662 | and only one |
| `KconfigModel.RelationLaws` | rt-thread/tools/kconfiglib.py:5013-5041 | comparisons are y or n and go by the values of their sides: just one of =, <, > is y; != is the Not of =, <= the Or of < and =, > and >= are < and <= with the sides swapped, and a = a is y |
| `KconfigModel.ItemLaws` | rt-thread/tools/kconfiglib.py:4996-4997 | n < m < y; a symbol is worth the value it has |
| `KconfigModel.LogicLaws` | rt-thread/tools/kconfiglib.py:4999-5011 | && is the greatest lower and || the least upper bound; ! reverses the order and is its own inverse |
| `KconfigModel.VisibilityIsLeast` | rt-thread/tools/kconfiglib.py:5215-5242 | the visibility is the lowest value that no prompt condition exceeds and that the symbol can have |
| `KconfigModel.SymbolIsLeast` | rt-thread/tools/kconfiglib.py:3585-3662 | in every valuation a bool or tristate symbol has the lowest value that is not below what selects it, nor below the limited user value if visible, or else the limited first default and what implies it; and that is m only if it can be m and is not implied y |
| `KconfigModel.SymbolLaws` | rt-thread/tools/kconfiglib.py:3614-3662 | so it is never below its selects, never m when bool or when MODULES is n; a user value within its visibility and not below its selects is taken exactly unless it is an m that is raised to y; and above its selects it exceeds its visibility only by being raised so |
| `KconfigModel.DefaultLaw` | rt-thread/tools/kconfiglib.py:3621-3628 | neither selected nor implied nor set: the first default whose condition is not n, limited by that condition; n without one |
| `KconfigModel.InvisibleIgnoresUser` | rt-thread/tools/kconfiglib.py:3614-3616 | what the user sets on an invisible symbol changes no valuation |
| `KconfigCache.CachedIsMeaning` | rt-thread/tools/kconfiglib.py:3585-3682 | every cached value and visibility is the one evaluation without caches gives |
| `KconfigCache.InvalidationKeepsCoherent` | rt-thread/tools/kconfiglib.py:4001-4030 | stopping at symbols without cached visibility forgets enough, although evaluation short-circuits: whatever stays cached is still right |
| `KconfigCache.PromptlessIgnoresUser` | rt-thread/tools/kconfiglib.py:4032-4052 | a symbol without a prompt need not be invalidated: its user value has no effect |
| `KconfigCache.PExprIsMeaning` | rt-thread/tools/kconfiglib.py:4986-5041 | the short-circuit evaluation, reading only what it must, has the full meaning |
| `KconfigCache.PTriIsMeaning` | rt-thread/tools/kconfiglib.py:3585-3662 | so has the computation of a symbol's value |
| `KconfigCache.PVisIsMeaning` | rt-thread/tools/kconfiglib.py:5215-5242 | so has that of its visibility |
| `KconfigCache.Kconfig.constructor` | rt-thread/tools/kconfiglib.py:2827-2884 | dependents built, nothing cached |
| `KconfigCache.Kconfig.MakeDependOn` | rt-thread/tools/kconfiglib.py:5244-5260 | the symbol becomes a dependent of every symbol in the expression |
| `KconfigCache.Kconfig.BuildDep` | rt-thread/tools/kconfiglib.py:2827-2884 | the dependents of a symbol are exactly the symbols with a property that mentions it |
| `KconfigCache.Kconfig.ExprValue` | rt-thread/tools/kconfiglib.py:4986-5041 | the value, with caches only added to, below the rank of the caller |
| `KconfigCache.Kconfig.TriValue` | rt-thread/tools/kconfiglib.py:3585-3662 | the value is cached and the caches stay coherent |
| `KconfigCache.Kconfig.Visibility` | rt-thread/tools/kconfiglib.py:3675-3682 | the same for the visibility |
| `KconfigCache.Kconfig.RecInvalidate` | rt-thread/tools/kconfiglib.py:4001-4030 | ends whatever the dependents are, cycles included; forgets the symbol and every remembered dependent of a forgotten one; MODULES forgets all |
| `KconfigCache.Kconfig.SetValue` | rt-thread/tools/kconfiglib.py:3713-3796 | the user value is set exactly if it can be, and the caches stay coherent |
| `KconfigCache.Kconfig.UnsetValue` | rt-thread/tools/kconfiglib.py:3798-3805 | the user value is gone, and the caches stay coherent |
| `KconfigCache.Kconfig.Read` | rt-thread/tools/kconfiglib.py:3585-3662 | after any sequence of reads and changes, a value read is that of evaluation without caches under the current user values |
| `KconfigCache.Kconfig.ReadVisibility` | rt-thread/tools/kconfiglib.py:3675-3682 | the same for the visibility |
| `KconfigSyntax.Precedence` | rt-thread/tools/kconfiglib.py:2737-2821 | of the operators, for all operands: && closer than ||, ! closer than && but not than a relation, parentheses closest |
| `KconfigSyntax.Incomplete` | rt-thread/tools/kconfiglib.py:2737-2821 | an operator without its operands, an open parenthesis and the empty string are errors |
| `KconfigSyntax.ParsePrinted` | rt-thread/tools/kconfiglib.py:2737-2821 | parsing what expr_str printed gives the expression, chains regrouped to the right, m rewritten if asked, and consumes exactly its tokens |
| `KconfigSyntax.RightNestMeaning` | rt-thread/tools/kconfiglib.py:4986-5041 | regrouping keeps the value under every assignment |
| `KconfigSyntax.RoundTrip` | rt-thread/tools/kconfiglib.py:5059-5100 | printing and reparsing keeps the value under every assignment, and the tree if and only if chains are nested to the right |
| `KconfigSyntax.Reprint` | rt-thread/tools/kconfiglib.py:5059-5100 | printing what was reparsed gives the same tokens |
| `KconfigSyntax.RewriteMeaning` | rt-thread/tools/kconfiglib.py:2789-2806 | rewriting m to m && MODULES changes no value while modules are on |
| `KconfigParser.Parser.CheckToken` | rt-thread/tools/kconfiglib.py:2009-2015 | the token is consumed exactly if it is next |
| `KconfigParser.Parser.Expression` | rt-thread/tools/kconfiglib.py:2737-2777 | the parser advancing over its tokens gives what the parsing function gives, errors included |
| `KconfigParser.Parser.Conjunction` | rt-thread/tools/kconfiglib.py:2779-2787 | the same for conjunctions |
| `KconfigParser.Parser.Factor` | rt-thread/tools/kconfiglib.py:2789-2821 | the same for factors: relations, symbols, negation, parentheses |

## Left out

- Kernel objects as records: threads, timers, heap blocks, zones and message slots are records in stores keyed by handle, address or index, not C structs reached through pointers; only the list layer is modelled on objects that alias.
- Several IPC objects on one kernel are not composed: each object is proved with its kernel; the contracts of the kernel say which wait list changes, but that an operation on one object keeps the validity of another is not stated.
- The copies that `rt_mq_send` and `rt_mq_recv` make without a lock are one step each (`Copy`, `Unload`): no other step falls between two bytes of one copy.
- External calls aimed at a thread inside a blocking call (suspend, resume, delete), and detach or delete of an IPC object in use, are not steps of the model.
- `schedule()` in the middle of a blocking call is where other steps of the run happen; context switching, stacks and interrupt masking themselves are hardware.
- A thread's own timer is a flag in the thread record (`timerArmed`), and a Timeout step needs the flag and nothing else. Only the mailbox protocol is joined with the timer list (`MailboxTimers`), and not the classes; for the other objects, when a timer fires is left open.
- `signal.c` and the `-RT_EINTR` retry of `rt_mutex_take`.
- MutexProtocol.RunsKeepInv: is for runs in which nobody takes or waits for a mutex while owning another, because its claims are false of others; those are covered by `RunsSound`, `RestoredExactly` and `InversionExactly`. Priorities changed from outside the mutexes are not steps of the model.
- MemHeaps.MemHeap.Realloc: requires that its test for growing, if the code comes to it, is the true one in the sense of `GrowTest`, because the code otherwise grows a block without room.
- Timers.TimerList.Check: requires that the loop ends, because for some timeout functions it does not (`EndsExactly`); `CheckTurns` covers those too, up to any number of turns.
- Soft timers and the timer thread, `rt_tick_set`, interleavings within `rt_timer_start` (one step here, two critical sections there), and detaching or deleting a timer.
- `heap_end->prev` of the small-memory heap is not kept up by the source and not claimed; the start-up failure of a heap that is too small is left out, as are the bytes of its payloads and the copying in its `rt_realloc`.
- The semaphores around the heaps, magic numbers, traces and hooks; a heap operation is one step.
- The `used_mem` statistic, `rt_realloc`, `rt_calloc`, the contents of chunks and the alignment of chunks above 4096 bytes in `slab.c`.
- `rt_calloc`, `rt_memheap_detach`, `mempool.c`, `object.c`, `device.c`, `idle.c`: plumbing or plain loops.
- KconfigModel.SolutionExists: is proved for configurations without dependency loops, where a tristate symbol counts as depending on MODULES, because the type of a tristate symbol asks for the value of MODULES: if MODULES in turn asked for that symbol, evaluation in the source would not end either.
- Choices, int, hex and string symbols, ranges, assignable values, warnings, the menu tree, macro expansion and lexing of `kconfiglib.py`; a symbol of another type has the value n, also in a relation, where the source compares its number or string. Tokens stand for the text that `expr_str` prints.
