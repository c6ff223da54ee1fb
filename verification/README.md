# Kernel models

A verification project for the RT-Thread kernel code under `rt-thread/`: mutexes with priority
inheritance, the multi-core and the single-core scheduler, three memory allocators, the timer
list, the lock-free list, and mailboxes, message queues and events.

Each part follows one pattern. A specification module describes what an operation does to the
whole state, as a function on values, and proves what the code promises about it: an invariant
over every run, exact failure conditions, round trips, what stays untouched. A second module holds
the code itself, on classes whose fields are updated in place, with the loops, links, counters and
shortcuts of the original. Every one of its methods is proved to take the fields exactly where the
specification says.  What each specified operation does to the whole state is told once more in the
modules named ...Laws, in fields, orders and sizes and without naming the functions that compute it,
with the accounts over whole runs that follow from it.

| part | specification | code |
|---|---|---|
| mutex | PriorityInheritance, MutexTimeouts, MutexLaws | IpcObjects, MutexKernel |
| multi-core scheduler | SmpScheduling, SmpLaws | SmpKernel |
| single-core scheduler | UpScheduling, UpLaws | UpKernel |
| ready bitmaps, `__rt_ffs` | ReadyIndex | FindFirstSet |
| memory heap | Tiling, BlockEdits, UsedBlocks, HeapSpec, HeapLaws | MemHeap, SystemHeap |
| small memory | SmallSpec, SmallLaws (with Tiling, BlockEdits, UsedBlocks) | SmallMem |
| slab | PageRuns, ZoneIndex, SlabSpec, SlabCalls, SlabLaws | PageList, Slab |
| timers | TimerQueue, TimerLaws | SkipList |
| lock-free list | LockFreeList (atomic steps of all threads), LockFreeLaws | |
| mailbox | WaitLists | Mailbox |
| message queue | MessageSteps, MessageLaws, WaitLists, SinglyLinked | MessageQueue |
| event | | EventFlags |
| rings and lists | Ring, Lists, SinglyLinked, MapSums, Alignment | |

`dafny verify dfyconfig.toml` checks everything.

## How the kernel is modelled

- A section of code under a lock is one step. Runs interleave steps of all threads and CPUs in any
  order. A thread that finds nothing suspends in one step and runs its section again when woken.
- That a thread's timer fires and that its callback resumes the thread is one step.
- Numbers are unbounded except for ticks, which wrap at 32 bits, and event flags, which are 32-bit
  words. Header size, minimum size and alignment of the heaps are parameters; header and minimum
  are multiples of the alignment.
- Clocks, random heights of the skip list (its counter) and callers' choices are parameters.
- Lists the original links through its objects are sequences in the mutex, scheduler, timer, slab
  zone and event models, and linked nodes in the heap, page list and message queue models.

## What the code does that one might not expect

- A mutex ceiling is not applied when a mutex is handed to a waiter (`ReleaseKeepsInvIff`,
  `CeilingLostAtHandOver`): the result holds exactly when the new owner is already that urgent.
- A thread whose take of a mutex timed out, and whose own priority is changed before it runs again,
  can leave the owner of the mutex more urgent than anything it holds asks for
  (`BoostOutlivesTimeout`); `WithdrawKeepsInvIff` says exactly when.
- On several cores, threads that are bound to a CPU and take turns there keep it from every unbound
  thread of the same priority (`OwnListFirst`).
- A periodic timer of period zero keeps the firing loop of `_timer_check` from ending
  (`ZeroPeriodNeverLeaves`, `ZeroPeriodExample`, `NoneExpiredIff`).
- The lock-free list is a stack exactly as long as no dequeue's compare-exchange succeeds on a link
  that has changed since it was read (`RunExactIff`). A single consumer rules that out, and so does
  enqueuing no node that a dequeue in flight has read; with two consumers and early reuse it happens
  (`ReuseBreaks`).
- A small-memory reallocation to a slightly smaller size that leaves too little for a block of its
  own looks for a new block and fails if there is none, although the old block would do
  (`SmallSpec.ReallocFailsIff`, `ShrinkRefused`).
- `rt_schedule` on one core leaves the yield flag of a thread that stays current as it was
  (`YieldOutlives`), so that a thread as urgent displaces it later (`UpScheduling.ScheduleSwitchesIff`).
- A slab reallocation rounds the size up to a chunk size before it asks for memory, so a size just
  below the zone limit can be given whole pages (`PagesForChunkIff`, `RoundedToLimit`).

## Model

| member | source | states |
|---|---|---|
| `PriorityInheritance.RunKeepsInv` | rt-thread/src/ipc.c:1326-1535 | in every state of every run of takes, releases, drops, ceiling changes, sleeps and wake-ups in which no hand-over meets a ceiling the new owner falls short of: each thread runs at the minimum of its own priority and what its mutexes contribute, each mutex has the priority of its first waiter, wait lists are sorted, ownership and wait links agree both ways |
| `PriorityInheritance.RunWithoutCeilings` | rt-thread/src/ipc.c:1078-1715 | in a system that sets no ceiling this holds in every state of every run from the empty system, with no condition on any release |
| `PriorityInheritance.NextKeepsInv` | rt-thread/src/ipc.c:1078-1715 | each single step keeps that invariant |
| `PriorityInheritance.TakeKeepsInv` | rt-thread/src/ipc.c:1326-1535 | a take keeps it in every outcome: new owner, nested hold, hold limit, refusal, blocking with inheritance along the chain |
| `PriorityInheritance.ReleaseKeepsInvIff` | rt-thread/src/ipc.c:1589-1715 | the release of the last hold keeps every priority exact if and only if nobody waits or the first waiter is already as urgent as the ceiling |
| `PriorityInheritance.CeilingLostAtHandOver` | rt-thread/src/ipc.c:1661-1688 | in the state of `CeilingExample` a hand-over leaves the new owner less urgent than the ceiling of the mutex it holds |
| `PriorityInheritance.CeilingExampleReached` | rt-thread/src/ipc.c:1151-1535 | a run of calls from the empty system reaches that state |
| `PriorityInheritance.GiveUpHoldExact` | rt-thread/src/ipc.c:922-943 | the equality test that decides whether the priority is computed again loses nothing: with or without it the thread ends at the minimum over what it still holds |
| `PriorityInheritance.EnqueueReady` | rt-thread/src/ipc.c:1401-1429 | after a thread joined a wait list only the owner can be off, by exactly the newcomer's priority, and only if that undercuts both the mutex and the owner |
| `PriorityInheritance.UnlinkReady` | rt-thread/src/ipc.c:1078-1140 | after a waiter left only the owner can be off, and only if it ran at the waiter's priority: the guard of the recomputation is exact |
| `PriorityInheritance.DropKeepsInv` | rt-thread/src/ipc.c:1078-1140 | dropping a waiter keeps the invariant, also when a chain of owners falls back to less urgent priorities |
| `PriorityInheritance.SetCeilingKeepsInv` | rt-thread/src/ipc.c:1151-1183 | changing a ceiling keeps the invariant |
| `PriorityInheritance.WalkStep` | rt-thread/src/ipc.c:868-920 | one pass of the walk settles everything, or moves to the owner, whose priority strictly moved in the walk's direction and left less room to move |
| `PriorityInheritance.WalkRestoresExactness` | rt-thread/src/ipc.c:868-920 | the inheritance walk ends for every wait graph, cycles included, leaves every priority exact, and changes nothing but priorities and the order of wait lists |
| `PriorityInheritance.OwnerAsUrgent` | rt-thread/src/ipc.c:868-920 | an owner is at least as urgent as every thread blocked behind it through any number of mutexes, and as their ceilings |
| `PriorityInheritance.PriorityIsMostUrgentClaim` | rt-thread/src/ipc.c:845-865 | without deadlock the incrementally kept priority is exactly the most urgent claim in the wait graph, told without reference to any stored priority of a mutex |
| `MutexLaws.TakeAnswer` | rt-thread/src/ipc.c:1326-1535 | what a take answers is determined by owner and holds; it is Ok if and only if the caller owns the mutex afterwards with one hold more than before; a refusal, for no wait or at the hold limit, changes nothing |
| `MutexLaws.TakeOk` | rt-thread/src/ipc.c:1351-1386 | a free mutex enters the caller's list, a nested take leaves it as it is, and no other thread or mutex changes |
| `MutexLaws.BlockedFields` | rt-thread/src/ipc.c:1387-1460 | a blocked caller is suspended and waits for the mutex with all who did; owners, holds and all other threads and mutexes stay, but for priorities |
| `MutexLaws.ReleaseFields` | rt-thread/src/ipc.c:1589-1715 | a release that is not the last takes one hold and nothing else; after the last the caller owns the mutex no more and it is free, or belongs to the first waiter, which is made ready, with one hold and the other waiters in order; all else is unchanged |
| `MutexLaws.DropFields` | rt-thread/src/ipc.c:1078-1140 | a dropped waiter is ready, waits for nothing and is on no list; all others wait on |
| `MutexLaws.CeilingFields` | rt-thread/src/ipc.c:1151-1183 | the mutex has the new ceiling, and nothing but priorities changes besides |
| `MutexLaws.RunAccount` | rt-thread/src/ipc.c:1326-1715 | in every run from the empty system the holds of a thread on a mutex are its takes answered Ok and the hand-overs to it, less its releases answered Ok |
| `MutexLaws.NestedTakes` | rt-thread/src/ipc.c:1351-1715 | a mutex taken n times while nobody waits stays with its owner for n - 1 releases, and the n-th frees it |
| `MutexLaws.CanNest` | rt-thread/src/ipc.c:1351-1362 | the owner can take it as often as the hold limit allows |
| `MutexLaws.StepsAreCalls` | rt-thread/src/ipc.c:1007-1715 | the steps of runs are the calls these laws speak of |
| `MutexTimeouts.ExpireOwes` | rt-thread/src/thread.c:146-178 | when the time limit of a take runs out everything stays exact but for the priority of that mutex, which may be more urgent than its first waiter |
| `MutexTimeouts.AtOnceIsDrop` | rt-thread/src/ipc.c:1447-1520 | if the thread runs on before any other call, its clean-up completes the drop of a waiter, and every priority is exact |
| `MutexTimeouts.WithdrawKeepsInvIff` | rt-thread/src/ipc.c:1460-1520 | a clean-up that comes later makes every priority exact again if and only if nobody owns the mutex, its owner runs at the very priority the thread has now, or the owner is due its priority anyway |
| `MutexTimeouts.SamePriorityIsPutRight` | rt-thread/src/ipc.c:1478-1517 | it does so whenever the thread still has the priority it gave the mutex |
| `MutexTimeouts.BoostOutlivesTimeout` | rt-thread/src/ipc.c:1478-1517 | a thread raised between its timeout and its clean-up leaves the owner of the mutex at priority 5 instead of 10, though nobody waits for it any more |
| `MutexTimeouts.WaitingReached` | rt-thread/src/ipc.c:1326-1445 | a run of calls from the empty system reaches the state before that timeout |
| `PriorityInheritance.EffIsMin` | rt-thread/src/ipc.c:845-865 | the loop over the taken list yields the minimum, and the minimum is attained |
| `PriorityInheritance.InsertPrioSorted` | rt-thread/src/ipc.c:241-285 | insertion by priority keeps a wait list sorted and duplicate-free, and says who is first |
| `MutexKernel.InsertPrioAt` | rt-thread/src/ipc.c:251-276 | the scan that stops at the first less urgent waiter stops where the sorted insertion belongs |
| `MutexKernel.Kernel.constructor` | rt-thread/src/ipc.c:1007-1032 | fresh threads and mutexes satisfy the invariant |
| `MutexKernel.Kernel.MutexUpdatePriority` | rt-thread/src/ipc.c:827-842 | the mutex gets the priority of its first waiter, 0xff without one, and nothing else changes |
| `MutexKernel.Kernel.ThreadGetMutexPriority` | rt-thread/src/ipc.c:845-865 | the loop computes the specified minimum |
| `MutexKernel.Kernel.SuspListEnqueue` | rt-thread/src/ipc.c:241-285 | the code's insertion is the specified one |
| `MutexKernel.Kernel.WalkPass` | rt-thread/src/ipc.c:868-920 | one pass on the objects is one step of the specified walk, with room to move strictly shrinking |
| `MutexKernel.Kernel.ThreadUpdatePriority` | rt-thread/src/ipc.c:868-920 | the loop ends in the state the specified walk ends in |
| `MutexKernel.Kernel.MutexTake` | rt-thread/src/ipc.c:1326-1535 | the code takes all objects to the specified state and result |
| `MutexKernel.Kernel.ThreadTimeout` | rt-thread/src/thread.c:146-178 | the objects reach the specified state |
| `MutexKernel.Kernel.TakeGivesUp` | rt-thread/src/ipc.c:1460-1520 | the code takes all objects to the specified state |
| `MutexKernel.Kernel.LeaveTaken` | rt-thread/src/ipc.c:922-943 | unlinking the mutex and the conditional recomputation act as specified |
| `MutexKernel.Kernel.PassOn` | rt-thread/src/ipc.c:1636-1688 | the first waiter becomes owner with one hold, and the mutex priority follows the rest of the list |
| `MutexKernel.Kernel.MutexRelease` | rt-thread/src/ipc.c:1589-1715 | the code takes all objects to the specified state and result, for a foreign mutex, a nested hold, a free mutex and a hand-over |
| `MutexKernel.Kernel.MutexDropThread` | rt-thread/src/ipc.c:1078-1140 | the code takes all objects to the specified state |
| `MutexKernel.Kernel.MutexSetPrioCeiling` | rt-thread/src/ipc.c:1151-1183 | sets the ceiling as specified and returns the old one, or changes nothing for a priority out of range |
| `SmpScheduling.RunKeepsInv` | rt-thread/src/scheduler_mp.c:272-662 | over every interleaving of the steps of all CPUs the invariant holds and every idle thread stays available |
| `SmpScheduling.RunFromBoot` | rt-thread/src/scheduler_mp.c:403-447 | from the empty tables the idle threads can be made, bound and started one after the other, and in every state of every run from there the invariant holds and every idle thread is available |
| `SmpScheduling.ThreadIsInOnePlace` | rt-thread/src/scheduler_mp.c:272-398 | in every reachable state a thread is the current one of CPU c if and only if it names c, and is in the list of queue q and priority p if and only if it is ready, bound to q and of priority p |
| `SmpScheduling.NextKeepsInv` | rt-thread/src/scheduler_mp.c:272-662 | each single step keeps the invariant: bitmaps exact, lists duplicate-free and holding exactly the ready threads, `oncpu` exact |
| `SmpScheduling.ScheduleRunsTheMostUrgent` | rt-thread/src/scheduler_mp.c:574-662 | with an idle thread available, the thread left on CPU c is running there, may run there, and no ready thread that may run there is strictly more urgent |
| `SmpScheduling.ScheduleSwitchesIff` | rt-thread/src/scheduler_mp.c:574-662 | the current thread is replaced exactly if there is a thread that is ready, may run on the CPU, and displaces the current one: that one cannot run, is bound elsewhere, is less urgent, or as urgent and has yielded |
| `SmpScheduling.SwitchChanges` | rt-thread/src/scheduler_mp.c:574-662 | a switch changes exactly the outgoing and the incoming thread: one is put back in the list its priority and binding name or left suspended, its yield flag cleared if it was put back, the other becomes current |
| `SmpLaws.ScheduleRows` | rt-thread/src/scheduler_mp.c:574-662 | after a switch the new thread, first in its list before, is gone from it; the old one, if it can run, is last in the list of its priority and binding when it has yielded and first when it has not; all else keeps its order, and without a switch everything does |
| `SmpLaws.StayChanges` | rt-thread/src/scheduler_mp.c:574-662 | a thread that keeps its core against a ready one loses its yield request, and nothing else changes |
| `SmpLaws.PickIsFirst` | rt-thread/src/scheduler_mp.c:231-265 | the picked thread is the first of its list, and an unbound one is picked only if the lists of the CPU itself are empty up to its priority |
| `SmpLaws.RoundRobin` | rt-thread/src/scheduler_mp.c:231-662 | on one CPU the thread at place k of the current thread's list is current at every tick from the end of the slices before it to the end of its own, and the list only turns |
| `SmpLaws.SliceEnds` | rt-thread/src/scheduler_comm.c:147-178 | the current thread is current at every tick of the slice it has left, and at its end goes to the back of its list with a new one |
| `SmpLaws.OwnListFirst` | rt-thread/src/scheduler_mp.c:231-265 | as long as only ticks happen, threads bound to a CPU that take turns there keep it from every unbound thread of their priority |
| `SmpLaws.TickIsTicks` | rt-thread/src/scheduler_comm.c:147-178 | n ticks at once are n single ticks while slice is left, and else those that end it |
| `SmpLaws.WakeMoves` | rt-thread/src/scheduler_comm.c:103-145 | a suspended thread is ready, last in its list when it has yielded and else first, or runs on if it is still on a CPU; nothing else changes |
| `SmpLaws.SuspendMoves` | rt-thread/src/thread.c:897-972 | the thread is suspended and gone from its list, which keeps its order; nothing else changes |
| `SmpLaws.CloseMoves` | rt-thread/src/thread.c:424-456 | the thread is closed and in no list; nothing else changes |
| `SmpLaws.PriorityMoves` | rt-thread/src/scheduler_comm.c:183-225 | a ready thread goes from its list to the front of the one of its new priority, any other only gets the priority; nothing else changes |
| `SmpLaws.BindMoves` | rt-thread/src/scheduler_mp.c:1248-1329 | a ready thread goes from its list to the front of the one of its new binding, any other only gets the binding; nothing else changes |
| `SmpLaws.StartMoves` | rt-thread/src/scheduler_mp.c:453-495 | the first thread of a CPU was first in its list and is gone from it |
| `SmpLaws.StepsAreCalls` | rt-thread/src/scheduler_mp.c:231-1329 | the steps of runs are the calls these laws speak of |
| `SmpScheduling.PickIsReady` | rt-thread/src/scheduler_mp.c:231-265 | the picked thread is ready, allowed on the CPU, and of the least priority number among all such threads; none is picked only if there is none |
| `SmpScheduling.RemoveTakesInHand` | rt-thread/src/scheduler_mp.c:357-398 | removal takes the thread out of its one list and clears the bits of an emptied list |
| `SmpScheduling.InsertPutsDown` | rt-thread/src/scheduler_mp.c:272-354 | insertion puts a thread into the one list its binding and priority name, or marks it running if it is on a CPU |
| `SmpScheduling.BindKeepsInv` | rt-thread/src/scheduler_mp.c:1248-1329 | changing the binding moves a ready thread to the right list and keeps the invariant |
| `SmpScheduling.ChangePriorityKeepsInv` | rt-thread/src/scheduler_comm.c:183-225 | changing a priority moves a ready thread to the right list and keeps the invariant |
| `SmpScheduling.WakeKeepsInv` | rt-thread/src/scheduler_comm.c:103-145 | waking keeps the invariant |
| `SmpScheduling.SuspendKeepsInv` | rt-thread/src/thread.c:897-972 | suspending keeps the invariant |
| `SmpScheduling.CloseKeepsInv` | rt-thread/src/thread.c:424-456 | closing keeps the invariant |
| `SmpKernel.Scheduler.constructor` | rt-thread/src/scheduler_mp.c:403-447 | the tables are the initial ones from which `RunFromBoot` starts; they satisfy the invariant |
| `SmpKernel.Scheduler.InsertThreadLocked` | rt-thread/src/scheduler_mp.c:272-354 | the code does what the specification says, last for a thread that has yielded and else first |
| `SmpKernel.Scheduler.RemoveThreadLocked` | rt-thread/src/scheduler_mp.c:357-398 | the code does what the specification says |
| `SmpKernel.Scheduler.ThreadReady` | rt-thread/src/scheduler_comm.c:103-145 | only a suspended thread is made ready; the invariant is kept |
| `SmpKernel.Scheduler.ThreadSuspend` | rt-thread/src/thread.c:897-972 | only a ready or running thread is suspended; the invariant is kept |
| `SmpKernel.Scheduler.ThreadClose` | rt-thread/src/thread.c:424-456 | the thread leaves its queue and is closed; the invariant is kept |
| `SmpKernel.Scheduler.TickIncrease` | rt-thread/src/scheduler_comm.c:147-178 | the slice of the current thread shrinks, and is renewed with a yield request exactly when it is used up |
| `SmpKernel.Scheduler.ThreadBindCpu` | rt-thread/src/scheduler_mp.c:1248-1329 | the code does what the specification says |
| `SmpKernel.Scheduler.ThreadChangePriority` | rt-thread/src/scheduler_comm.c:183-225 | the code does what the specification says |
| `SmpKernel.Scheduler.GetHighestPriorityThread` | rt-thread/src/scheduler_mp.c:231-265 | the two bitmap look-ups find the specified thread and priority |
| `SmpKernel.Scheduler.PrepareContextSwitch` | rt-thread/src/scheduler_mp.c:574-662 | the code makes the specified switch, keeps the invariant, and returns null exactly when the core is kept |
| `ReadyIndex.Index.Highest` | rt-thread/src/scheduler_up.c:89-109 | the one- or two-level look-up gives the least marked priority, and the number of levels if none is marked |
| `ReadyIndex.Index.Mark` | rt-thread/src/scheduler_up.c:407-411 | exactly the bit of that priority is added, and the two levels stay consistent |
| `ReadyIndex.Index.Unmark` | rt-thread/src/scheduler_up.c:438-451 | exactly the bit of that priority is removed, the group bit with the last one of its byte |
| `FindFirstSet.ByTableIsFfs` | rt-thread/src/kservice.c:1083-1106 | the version with one table look-up a byte finds the lowest set bit of every 32-bit word |
| `FindFirstSet.TinyIsFfs` | rt-thread/src/kservice.c:1046-1049 | the version that isolates a bit and looks it up modulo 37 finds the lowest set bit of every 32-bit word |
| `FindFirstSet.IsolatedIs` | rt-thread/src/kservice.c:1046-1049 | value & (value - 1) ^ value leaves the lowest set bit only |
| `UpScheduling.RunKeeps` | rt-thread/src/scheduler_up.c:171-455 | in every state of every run from the start a thread is in the list of priority p exactly once if and only if it is ready at p, the index is exact, and the current thread is in no list |
| `UpScheduling.HandleKeeps` | rt-thread/src/scheduler_comm.c:93-225 | each kernel call of a run, with the rescheduling it causes, keeps that invariant |
| `UpScheduling.ScheduleRunsMostUrgent` | rt-thread/src/scheduler_up.c:201-327 | with the scheduler unlocked and a thread able to run, the thread left running is marked so and no ready thread is strictly more urgent |
| `UpScheduling.ScheduleSwitchesIff` | rt-thread/src/scheduler_up.c:201-327 | the current thread changes if and only if the scheduler is unlocked and there is a ready thread that displaces it: the current one cannot run, is less urgent, or as urgent and has yielded |
| `UpScheduling.YieldOutlives` | rt-thread/src/scheduler_up.c:201-327 | rescheduling clears the yield flag of the current thread exactly if it switches |
| `UpScheduling.StartInv` | rt-thread/src/scheduler_up.c:171-188 | the first thread started is running and the invariant holds |
| `UpScheduling.Burn` | rt-thread/src/scheduler_comm.c:147-178 | while slice is left a tick only uses it up |
| `UpScheduling.SliceEnds` | rt-thread/src/scheduler_comm.c:147-178 | at every tick of the slice left of the current thread it is current, and at its end the first of its queue runs and the queue has turned by one; a thread with no slice left has one tick |
| `UpScheduling.RoundRobin` | rt-thread/src/scheduler_up.c:224-262 | the thread at place k is current at every tick from the end of the remaining slice of the current thread and the slices of the k threads ahead to the end of its own, and the queue has only rotated: with `Burn`, the current thread at every tick of a round, whatever the slices, zero included |
| `UpLaws.ScheduleRows` | rt-thread/src/scheduler_up.c:201-327 | after a switch the new thread, first in its list before, is gone from it; the old one, if it can run, is last in its list when it has yielded and first when it has not; all else keeps its order, and without a switch nothing changes |
| `UpLaws.WakeMoves` | rt-thread/src/scheduler_comm.c:103-145 | a suspended thread is ready, last in its list when it has yielded and else first; nothing else changes |
| `UpLaws.SuspendMoves` | rt-thread/src/thread.c:897-972 | the current thread is suspended if it was running; nothing else changes |
| `UpLaws.CloseMoves` | rt-thread/src/thread.c:424-456 | the thread is closed and in no list; nothing else changes |
| `UpLaws.PriorityMoves` | rt-thread/src/scheduler_comm.c:183-225 | a ready thread goes to the front of the list of its new priority, any other only gets the priority; nothing else changes |
| `UpLaws.TickByIsTicks` | rt-thread/src/scheduler_comm.c:147-178 | n ticks at once are n single ticks while slice is left, and from its end on those that end it |
| `UpLaws.LockedStays` | rt-thread/src/scheduler_up.c:501-551 | after n locks no rescheduling changes anything before n unlocks, and these restore the state |
| `UpLaws.StepsAreCalls` | rt-thread/src/scheduler_up.c:171-455 | the steps of runs are the calls these laws speak of |
| `UpKernel.Scheduler.constructor` | rt-thread/src/scheduler_up.c:171-188 | the scheduler starts in the specified state |
| `UpKernel.Scheduler.InsertThread` | rt-thread/src/scheduler_up.c:373-416 | the code does what the specification says |
| `UpKernel.Scheduler.RemoveThread` | rt-thread/src/scheduler_up.c:425-455 | the code does what the specification says |
| `UpKernel.Scheduler.Reschedule` | rt-thread/src/scheduler_up.c:201-327 | the code makes the specified choice and keeps the invariant |
| `UpKernel.Scheduler.ThreadReady` | rt-thread/src/scheduler_comm.c:103-145 | only a suspended thread is made ready; the invariant is kept |
| `UpKernel.Scheduler.SuspendSelf` | rt-thread/src/thread.c:897-972 | only a running thread is suspended; the invariant is kept |
| `UpKernel.Scheduler.Close` | rt-thread/src/thread.c:424-456 | the thread leaves its list and is closed; the invariant is kept |
| `UpKernel.Scheduler.ThreadYield` | rt-thread/src/scheduler_comm.c:93-101 | the slice is renewed and the yield flag set; the invariant is kept |
| `UpKernel.Scheduler.NewPriority` | rt-thread/src/scheduler_comm.c:183-225 | a ready thread moves to the list of its new priority; the invariant is kept |
| `UpKernel.Scheduler.TickIncrease` | rt-thread/src/scheduler_comm.c:147-178 | the slice shrinks by the ticks passed, and when used up the thread yields and rescheduling follows |
| `Ring.LinkKeepsRing` | rt-thread/include/rtservice.h:61-68 | rt_list_insert_after on a ring of nodes gives the ring with the node behind the given one |
| `Ring.UnlinkKeepsRing` | rt-thread/include/rtservice.h:89-95 | rt_list_remove gives the ring without the node |
| `HeapSpec.RunOk` | rt-thread/src/memheap.c:79-719 | in every state of every run of init, alloc, realloc and free: the blocks tile the pool up to the stub, no two neighbours are free, the free list holds exactly the free blocks, the count of free bytes is the sum of their payloads, and the high-water mark is not below the present use |
| `HeapSpec.AllocTakes` | rt-thread/src/memheap.c:187-347 | a successful allocation keeps the heap in order and hands over part of one free block only: every other block is as before |
| `HeapSpec.AllocFailsIff` | rt-thread/src/memheap.c:204-341 | an allocation fails if and only if the rounded size is not below the free total or no free block is large enough, and then changes nothing |
| `HeapSpec.FreeItems` | rt-thread/src/memheap.c:594-719 | a free changes the freed block and its free neighbours only, which become one free block |
| `HeapSpec.FreeOk` | rt-thread/src/memheap.c:594-719 | a free keeps the heap in order |
| `HeapSpec.FreeOthers` | rt-thread/src/memheap.c:594-719 | a free leaves every other used block where and as large as it is |
| `HeapSpec.ReallocOk` | rt-thread/src/memheap.c:362-585 | a reallocation keeps the heap in order: grown into the next block, shrunk with or without a free neighbour, or moved |
| `HeapSpec.ReallocFailsIff` | rt-thread/src/memheap.c:362-585 | a reallocation fails if and only if it asks for nothing, or for more than the block has while the next block is used or does not give enough and there is no memory for a new one; then nothing changes |
| `HeapSpec.ReallocOthers` | rt-thread/src/memheap.c:362-585 | a reallocation leaves every other used block where and as large as it is |
| `UsedBlocks.UsedDetermine` | rt-thread/src/memheap.c:79-719 | over the same memory the used blocks determine all blocks |
| `HeapLaws.UsedDecide` | rt-thread/src/memheap.c:79-719 | and so the count of free bytes |
| `HeapLaws.AllocGives` | rt-thread/src/memheap.c:204-341 | a success adds exactly one used block, where a free one started, of at least the rounded size and less than a header and the least payload more; just these bytes, and the header of a rest, are no longer free; the high-water mark follows |
| `HeapLaws.AllocFirstFit` | rt-thread/src/memheap.c:213-341 | it is the first block of the free list that is large enough; a rest goes to the front and the others keep their order |
| `HeapLaws.FreeGives` | rt-thread/src/memheap.c:594-719 | a free removes exactly that used block |
| `HeapLaws.FreedServesNext` | rt-thread/src/memheap.c:664-719 | a freed block is the first to be tried for the next request |
| `HeapLaws.ReallocGives` | rt-thread/src/memheap.c:362-585 | a block that is answered has at least the rounded size and at most a header and the least payload more, and replaces the old one among the used blocks; in place it has just the rounded size if it grew or was cut; a new one is what an allocation would give |
| `HeapLaws.ReallocInPlace` | rt-thread/src/memheap.c:393-541 | the free bytes change by exactly what the block gained or gave |
| `HeapLaws.StaysIff` | rt-thread/src/memheap.c:411-484 | a block grows in place if and only if the next one is free and both have more than the rounded size and the least payload |
| `HeapLaws.ReallocToNothing` | rt-thread/src/memheap.c:372-377 | a reallocation to no bytes is a free |
| `HeapLaws.RunHeld` | rt-thread/src/memheap.c:79-719 | in every state of every run the used blocks are exactly those that callers were given and have not given back |
| `HeapSpec.AllocThenFree` | rt-thread/src/memheap.c:187-719 | an allocation followed by a free of its result restores the blocks and the count of free bytes |
| `HeapSpec.InitOk` | rt-thread/src/memheap.c:79-154 | a new heap is in order |
| `MemHeap.MemHeap.constructor` | rt-thread/src/memheap.c:79-154 | the two rings and the counters of a new heap stand for the specified one |
| `MemHeap.MemHeap.Alloc` | rt-thread/src/memheap.c:187-347 | the code on the two rings does exactly what the specification says, and changes no byte of a used block |
| `MemHeap.MemHeap.Search` | rt-thread/src/memheap.c:221-232 | the walk of the free ring stops at the first block that is large enough |
| `MemHeap.MemHeap.AbsorbNext` | rt-thread/src/memheap.c:46-54 | the block behind leaves the address-ordered ring, which stays one ring |
| `MemHeap.MemHeap.Free` | rt-thread/src/memheap.c:594-719 | the code does exactly what the specification says and changes no byte; the null pointer is ignored |
| `MemHeap.MemHeap.Grow` | rt-thread/src/memheap.c:403-484 | growing in place keeps the contents and every byte of other used blocks |
| `MemHeap.MemHeap.Shrink` | rt-thread/src/memheap.c:520-585 | shrinking in place keeps the contents that remain and every byte of other used blocks |
| `MemHeap.MemHeap.MoveTo` | rt-thread/src/memheap.c:493-501 | moving keeps the contents and every byte of other used blocks; a failed move changes nothing |
| `MemHeap.MemHeap.Realloc` | rt-thread/src/memheap.c:362-585 | the code does exactly what the specification says; the first min(old, new) bytes are kept, and a refusal changes no byte; with the null pointer it is the allocation of the request, and with size 0 a free |
| `SystemHeap.AllocAny` | rt-thread/src/memheap.c:773-808 | a request is served by the default heap or else by the first other heap that can serve it, and by none if and only if all refuse; no other heap changes |
| `SystemHeap.ReallocAny` | rt-thread/src/memheap.c:821-860 | a block is resized in its own heap, or if that cannot be done goes to the first other heap that can hold it with its first min(old, new) bytes and is freed behind; it is refused only if every heap refuses the size, and then nothing changes anywhere; the null pointer is an allocation and size 0 a free |
| `SystemHeap.ReallocRefused` | rt-thread/src/memheap.c:836-839 | a reallocation is refused if and only if the block is too small, cannot grow in place, and an allocation of as many bytes is refused |
| `SmallSpec.RunOk` | rt-thread/src/mem.c:170-539 | in every state of every run: the blocks tile the heap, no two neighbours are free, `lfree` is the lowest free block or the end, and `used` is the bytes of the used blocks with their headers |
| `SmallSpec.AllocOk` | rt-thread/src/mem.c:271-389 | an allocation keeps the heap in order |
| `SmallSpec.AllocFailsIff` | rt-thread/src/mem.c:271-389 | an allocation fails if and only if it asks for nothing or no free block anywhere is large enough |
| `SmallSpec.AllocOthers` | rt-thread/src/mem.c:271-389 | an allocation leaves every used block as it is and takes one that was free |
| `SmallSpec.FreeOk` | rt-thread/src/mem.c:497-539 | a free keeps the heap in order |
| `SmallSpec.ReallocOk` | rt-thread/src/mem.c:403-488 | a reallocation keeps the heap in order |
| `SmallSpec.ReallocFailsIff` | rt-thread/src/mem.c:403-488 | a reallocation fails if and only if it asks for nothing, or the block has neither the very size asked for nor enough to spare to be cut and no free block is large enough; then nothing changes. A smaller size can so be refused |
| `SmallSpec.ShrinkRefused` | rt-thread/src/mem.c:449-486 | in a heap of 32 bytes, all given out by one allocation, making that block 24 bytes is refused |
| `SmallLaws.UsedDecide` | rt-thread/src/mem.c:170-539 | the used blocks determine all blocks, the lowest free one and the used bytes |
| `SmallLaws.AllocGives` | rt-thread/src/mem.c:271-389 | a success adds exactly one used block, at the lowest address of a free one that is large enough, of at least the rounded size and less than a header and the least payload more |
| `SmallLaws.FreeGives` | rt-thread/src/mem.c:497-539 | a free removes exactly that used block, and its bytes from the count |
| `SmallLaws.ReallocGives` | rt-thread/src/mem.c:403-488 | a block that is answered has at least the aligned size and replaces the old one among the used blocks; it stays in place if and only if it had the size or enough to spare to be cut to it; a new one is what an allocation would give |
| `SmallLaws.ReallocToNothing` | rt-thread/src/mem.c:424-428 | a reallocation to no bytes is a free |
| `SmallLaws.RunHeld` | rt-thread/src/mem.c:170-539 | in every state of every run the used blocks are exactly those that callers were given and have not given back |
| `SmallSpec.AllocThenFree` | rt-thread/src/mem.c:271-539 | an allocation followed by a free of its result restores the whole heap but its high-water mark |
| `SmallMem.NoneAbove` | rt-thread/src/mem.c:299-301 | the cut-off of the scan is exact: nothing at or behind the limit can hold the request |
| `SmallMem.SmallMem.constructor` | rt-thread/src/mem.c:170-234 | the two headers of a new heap stand for one free block |
| `SmallMem.SmallMem.PlugHoles` | rt-thread/src/mem.c:119-157 | the two merges give the block list with the freed block and its free neighbours as one |
| `SmallMem.SmallMem.Scan` | rt-thread/src/mem.c:299-301 | the scan from the lowest free block with its cut-off finds the same block as first fit from the start of the heap |
| `SmallMem.SmallMem.Alloc` | rt-thread/src/mem.c:271-389 | the code does exactly what first fit from the start would, and changes no byte of a used block |
| `SmallMem.SmallMem.SkipUsed` | rt-thread/src/mem.c:367-376 | the pointer moves on to the lowest free block that is left |
| `SmallMem.SmallMem.Free` | rt-thread/src/mem.c:497-539 | the code does exactly what the specification says and changes no byte; the null pointer is ignored |
| `SmallMem.SmallMem.Shrink` | rt-thread/src/mem.c:449-477 | shrinking in place keeps the contents that remain and every byte of other used blocks |
| `SmallMem.SmallMem.Realloc` | rt-thread/src/mem.c:403-488 | the code does exactly what the specification says; the first min(old, new) bytes are kept, and a refusal changes no byte; with the null pointer it is the allocation of the request |
| `PageRuns.Unique` | rt-thread/src/slab.c:257-299 | a sorted, disjoint, fully joined page list is determined by the set of its pages |
| `PageRuns.FindIsLowest` | rt-thread/src/slab.c:216-246 | the pages taken are the lowest n consecutive free ones, and the search fails if and only if there are none |
| `PageRuns.TakePages` | rt-thread/src/slab.c:216-246 | the list stays canonical and loses exactly the pages taken |
| `PageRuns.GivePages` | rt-thread/src/slab.c:257-299 | the list stays canonical and gains exactly the pages given |
| `PageRuns.TakeThenGive` | rt-thread/src/slab.c:216-299 | taking pages and giving them back leaves the identical list |
| `PageList.GiveIsPlaced` | rt-thread/src/slab.c:257-299 | the edit at the one place where the walk stops is the joining of the pages with the runs they touch |
| `PageList.PageList.constructor` | rt-thread/src/slab.c:304-311 | one run of all pages |
| `PageList.PageList.Alloc` | rt-thread/src/slab.c:216-246 | the linked nodes stand for the list without the pages, or for the same list if no run is large enough |
| `PageList.PageList.Free` | rt-thread/src/slab.c:257-299 | the linked nodes stand for the list with the pages joined in |
| `ZoneIndex.ClassIsSmallest` | rt-thread/src/slab.c:411-469 | a request gets the smallest of all chunk sizes that holds it, at that size's index |
| `ZoneIndex.ClassOfChunk` | rt-thread/src/slab.c:411-469 | chunk sizes and the indices 0 to 71 correspond one to one, and every index is reached |
| `ZoneIndex.SizesGrow` | rt-thread/src/slab.c:411-469 | chunk sizes grow strictly with the index |
| `ZoneIndex.Waste` | rt-thread/src/slab.c:411-469 | less than an eighth is wasted from 128 bytes on, less than 8 bytes below |
| `SlabSpec.LiveCount` | rt-thread/src/slab.c:143-159 | `z_nmax - z_nfree` is the number of chunks that are handed out |
| `SlabSpec.TakeChunkOk` | rt-thread/src/slab.c:560-572 | the chunk taken was not handed out before and is afterwards; all others stay as they are |
| `SlabSpec.NewZoneOk` | rt-thread/src/slab.c:620-643 | a new zone fits its pages, has at least two chunks, and its first is the only one handed out |
| `SlabSpec.AllocChunkOk` | rt-thread/src/slab.c:543-579 | taking a chunk keeps the invariant: free counts and lists, the list of zones with room, the page table, and `used` as the sum of live bytes |
| `SlabSpec.FetchZoneOk` | rt-thread/src/slab.c:598-618 | pages for a zone belong to nobody else and are entered in the page table; the invariant is kept |
| `SlabSpec.UseZoneOk` | rt-thread/src/slab.c:592-651 | a spare zone becomes a zone of the class; the invariant is kept |
| `SlabSpec.AllocLargeOk` | rt-thread/src/slab.c:506-528 | a large piece has its own pages and page table entry; the invariant is kept |
| `SlabSpec.FreeChunkOk` | rt-thread/src/slab.c:786-800 | giving back a chunk keeps the invariant |
| `SlabSpec.RetireOk` | rt-thread/src/slab.c:808-828 | an empty zone becomes a spare one; the invariant is kept |
| `SlabSpec.ReleaseOk` | rt-thread/src/slab.c:831-851 | a spare zone gives its pages back; the invariant is kept |
| `SlabSpec.FreeLargeOk` | rt-thread/src/slab.c:762-779 | giving back a large piece keeps the invariant |
| `SlabCalls.RunOk` | rt-thread/src/slab.c:490-853 | in every state of every run of alloc, realloc and free the invariant holds and at most two zones are kept in reserve |
| `SlabCalls.AllocOk` | rt-thread/src/slab.c:490-655 | a request is refused if and only if there is no room, changing nothing; else it gets one new piece that is large enough, all others staying where and as large as they are, and `used` grows by its size |
| `SlabCalls.FreeOk` | rt-thread/src/slab.c:738-853 | exactly the piece is gone, `used` falls by its size, and no more than two zones are kept in reserve |
| `SlabCalls.ReallocOk` | rt-thread/src/slab.c:669-727 | the answer is large enough and replaces the old piece; a refusal keeps the old piece and changes nothing |
| `SlabCalls.PagesForChunkIff` | rt-thread/src/slab.c:702-724 | a chunk is replaced by whole pages if and only if it has not the chunk size of the request and that size is not below the zone limit, while an allocation takes pages exactly if the request itself is not below it |
| `SlabCalls.RoundedToLimit` | rt-thread/src/slab.c:411-469 | below the zone limit these two differ exactly for the last sixteenth of the sizes |
| `SlabCalls.Disjoint` | rt-thread/src/slab.c:490-655 | no two pieces handed out overlap |
| `SlabCalls.PointerFound` | rt-thread/src/slab.c:760-786 | a pointer leads through the page table back to its own zone and chunk, or large piece |
| `SlabCalls.InitOk` | rt-thread/src/slab.c:324-383 | a new allocator satisfies the invariant and has handed out nothing |
| `SlabLaws.RefusedIff` | rt-thread/src/slab.c:490-655 | a request is refused if and only if it asks for nothing, is large and finds too few free pages in a row, or is small and there is no free chunk of its size, no zone in reserve, and too few free pages in a row for a new one |
| `SlabLaws.AllocPages` | rt-thread/src/slab.c:490-655 | pages are taken only when that is needed, and then the lowest free ones in a row |
| `SlabLaws.ZoneIsFull` | rt-thread/src/slab.c:620-643 | a zone is cut into as many chunks as fit behind its header, aligned to their size if that is a power of two |
| `SlabLaws.ChunkOrder` | rt-thread/src/slab.c:560-572 | chunks never used come first, then the one freed last |
| `SlabLaws.FreedZone` | rt-thread/src/slab.c:786-851 | a zone whose last chunk is given back while another of its size has room goes into reserve, or gives its pages back if two are in reserve; else it stays in use |
| `SlabLaws.FreedPages` | rt-thread/src/slab.c:762-779 | a large piece gives back exactly its pages |
| `SlabLaws.RunKeepsPages` | rt-thread/src/slab.c:490-853 | in every state of every run each page of the memory is free or belongs to a zone or a large piece |
| `Slab.Slab.constructor` | rt-thread/src/slab.c:324-383 | zone size, limit and page list are set up as specified |
| `Slab.Slab.Alloc` | rt-thread/src/slab.c:490-655 | the code does exactly what the specification says and returns the pointer of the specified piece |
| `Slab.Slab.Free` | rt-thread/src/slab.c:738-853 | from the pointer alone the code does exactly what the specification says |
| `Slab.Slab.Realloc` | rt-thread/src/slab.c:669-727 | from the pointer alone the code does exactly what the specification says; the first min(old, new) bytes go along, no byte of another piece changes, and a refusal changes no byte |
| `TimerQueue.LaterIff` | rt-thread/src/timer.c:442-449 | inside a window narrower than half the tick range the wrapped comparison is the comparison of unbounded deadlines |
| `TimerQueue.OrderLostAtHalf` | rt-thread/src/timer.c:442-449 | half the tick range apart the later deadline reads as earlier: the window is the widest possible |
| `TimerQueue.ExpiredIff` | rt-thread/src/timer.c:509-513 | the wrapped expiry test says whether the deadline has passed |
| `TimerQueue.InsertAt` | rt-thread/src/timer.c:426-463 | insertion is at one place, behind all deadlines no later: equal deadlines keep start order |
| `TimerQueue.InsertSorted` | rt-thread/src/timer.c:426-463 | insertion keeps the queue sorted |
| `TimerQueue.RemoveInserted` | rt-thread/src/timer.c:191-199 | removing a timer just inserted restores the queue |
| `TimerQueue.InsertBelow` | rt-thread/src/timer.c:462-474 | an upper row stays a sublist of the row below when the timer enters only the lower |
| `TimerQueue.InsertBoth` | rt-thread/src/timer.c:462-474 | an upper row stays a sublist of the row below when the timer enters both |
| `TimerQueue.CheckOutcome` | rt-thread/src/timer.c:488-553 | a check fires exactly the expired timers, each once, in deadline then start order; the rest stay and the periodic ones fired are due one period from now |
| `TimerQueue.NoneExpiredIff` | rt-thread/src/timer.c:488-553 | once every expired timer has fired, nothing queued is expired if and only if no expired periodic timer has period zero |
| `TimerQueue.ZeroPeriodNeverLeaves` | rt-thread/src/timer.c:513-548 | an expired periodic timer of period zero is expired and queued after every round: the firing loop cannot end |
| `TimerQueue.ZeroPeriodExample` | rt-thread/src/timer.c:513-548 | a queue of one such timer is left exactly as it was by each round |
| `TimerQueue.NextRound` | rt-thread/src/timer.c:501-551 | each round of the firing loop takes the next expired timer of the queue the check began with |
| `TimerQueue.RunStaysAhead` | rt-thread/src/timer.c:409-553 | if the list is checked at every tick, every queued deadline is now or later and less than half the tick range ahead, whatever timers are started, with 0 ticks too, and stopped |
| `TimerLaws.FiresOnTime` | rt-thread/src/timer.c:409-553 | a timer started with n ticks and left alone fires at the n-th tick from then, the first if n is 0, and at none before |
| `TimerLaws.TickFires` | rt-thread/src/timer.c:488-553 | a tick fires a timer if and only if it is queued and due; a periodic one is then due one period later, any other no longer queued, and all others stay as they were |
| `TimerLaws.CallsDo` | rt-thread/src/timer.c:409-653 | a start queues the timer with its new deadline, a stop takes it out, and all others stay as they were |
| `TimerLaws.SilentUntilStarted` | rt-thread/src/timer.c:626-653 | a timer that is not queued does not fire until it is started |
| `SkipList.RunMeetsWindow` | rt-thread/src/timer.c:409-553 | hence every start and every check of such a run finds its deadlines in one window |
| `SkipList.InsertedOk` | rt-thread/src/timer.c:409-479 | whatever the height drawn, every row stays sorted and a sublist of the row below, and the bottom row is the sorted insertion |
| `SkipList.RemovedOk` | rt-thread/src/timer.c:191-199 | removal from all rows keeps them in order, and the bottom row is the one without the timer |
| `SkipList.Scan` | rt-thread/src/timer.c:428-450 | the search of one row by wrapped ticks stops behind all deadlines no later |
| `SkipList.Search` | rt-thread/src/timer.c:425-453 | searching down from each row's stopping place finds the place in every row |
| `SkipList.Link` | rt-thread/src/timer.c:459-474 | the timer is linked into the bottom row and one more for each group of zero bits the counter ends in, and into no other |
| `SkipList.TimerList.Start` | rt-thread/src/timer.c:409-479 | starting a timer on wrapped ticks is sorted insertion by unbounded deadlines |
| `SkipList.TimerList.Stop` | rt-thread/src/timer.c:626-653 | stopping an active timer removes it, and an inactive one is refused |
| `SkipList.TimerList.Check` | rt-thread/src/timer.c:488-553 | the firing loop ends, fires exactly the specified timers in order and leaves the specified queue, if no expired periodic timer has period zero |
| `LockFreeList.StepOk` | rt-thread/include/rtatomic.h:243-264 | if no node is enqueued that a dequeue in flight has seen, every atomic step of any thread is exact in the sense of `StepExactIff` |
| `LockFreeList.StepExactIff` | rt-thread/include/rtatomic.h:243-264 | one atomic step of any thread keeps the list well formed and acts on it as one push, one pop or not at all if and only if it is not a compare-exchange that succeeds on a link that has changed since it was read |
| `LockFreeList.RunExactIff` | rt-thread/include/rtatomic.h:243-264 | a run has the results of a stack up to every point if and only if no compare-exchange of it has succeeded on a stale link |
| `LockFreeList.RunIsStack` | rt-thread/include/rtatomic.h:243-264 | every interleaving without early reuse is linearizable to a stack: no node is lost or returned twice |
| `LockFreeList.OneConsumerStep` | rt-thread/include/rtatomic.h:253-264 | with a single consumer the condition on reuse holds of itself |
| `LockFreeList.SwapExactIff` | rt-thread/include/rtatomic.h:257-261 | the compare-exchange of a dequeue leaves the list in order if and only if the link it read is still the one in the node |
| `LockFreeList.ReuseBreaks` | rt-thread/include/rtatomic.h:243-264 | from the empty list an interleaving of two consumers with early reuse of a node reaches a state in which such a stale compare-exchange succeeds and the list is no stack |
| `LockFreeLaws.EnqueueTakesEffectOnce` | rt-thread/include/rtatomic.h:243-249 | in every interleaving an enqueue pushes its node exactly once, at the step that ends it |
| `LockFreeLaws.DequeueTakesEffectOnce` | rt-thread/include/rtatomic.h:253-264 | a dequeue pops exactly one node, at the step that ends it, or finds the list empty exactly once |
| `LockFreeLaws.StepEffect` | rt-thread/include/rtatomic.h:243-264 | what each step of a call does to the list and to the thread's place in the call |
| `Mailbox.PutLast` | rt-thread/src/ipc.c:2660-2670 | storing at the in offset appends to the queue the ring stands for, and the offset goes round |
| `Mailbox.PutFirst` | rt-thread/src/ipc.c:2786-2800 | stepping the out offset back and storing there prepends |
| `Mailbox.TakeFirst` | rt-thread/src/ipc.c:2940-2952 | stepping the out offset on takes the oldest mail |
| `Mailbox.Mailbox.Send` | rt-thread/src/ipc.c:2563-2692 | appends, waits or is refused by the free room, and wakes the first waiting receiver; says exactly who waits and who is woken and has not run yet; the ring and the wake-up invariant are kept |
| `Mailbox.Mailbox.Urgent` | rt-thread/src/ipc.c:2768-2816 | prepends or is refused, and wakes the first waiting receiver; says exactly who waits and who is woken |
| `Mailbox.Mailbox.Recv` | rt-thread/src/ipc.c:2845-2972 | takes the first mail, waits or is refused, and wakes the first waiting sender; says exactly who waits and who is woken |
| `Mailbox.Mailbox.NobodyForgotten` | rt-thread/src/ipc.c:2563-2972 | once every woken thread has run no receiver waits while there is mail and no sender while there is room |
| `WaitLists.WokenOk` | rt-thread/src/ipc.c:2678-2681 | with one more item a waiter is woken if there is one, so items never outnumber the threads woken for them while somebody waits |
| `MessageSteps.PrioInsertStable` | rt-thread/src/ipc.c:3500-3525 | insertion by priority keeps the queue descending and goes behind all of its own priority |
| `MessageSteps.NodesAddUp` | rt-thread/src/ipc.c:3376-3918 | each node is in exactly one place, so the three counts add up to the number of messages |
| `MessageSteps.RunOk` | rt-thread/src/ipc.c:3376-3918 | in every state of every interleaving of the sections of all senders and receivers, with copies in flight outside the lock: each node is in exactly one place, nobody waits in vain, every message linked, queued or being read is byte for byte what its sender filled in, and as a multiset what was linked is what was received, what is queued and what resets dropped |
| `MessageSteps.RunIsFifo` | rt-thread/src/ipc.c:3527-3544 | without priorities, urgent messages and resets, what was linked is, in order, what was received followed by what is queued |
| `MessageSteps.RunIsDescending` | rt-thread/src/ipc.c:3500-3525 | with priorities and without urgent messages the queue is in descending order at every moment, so each receive takes the most urgent message |
| `MessageLaws.TakeFreeAnswers` | rt-thread/src/ipc.c:3404-3486 | a sender gets a node if and only if one is free, waits at its place or is refused, and counts as having run; nothing else changes |
| `MessageLaws.TakeFirstAnswers` | rt-thread/src/ipc.c:3758-3880 | a receiver gets the first message if and only if there is one, waits at its place or is refused, and counts as having run; nothing else changes |
| `MessageLaws.LinkWakes` | rt-thread/src/ipc.c:3498-3566 | linking, also in front, wakes the first waiting receiver and no other |
| `MessageLaws.LinkPlaces` | rt-thread/src/ipc.c:3500-3525 | a message linked by priority stands behind all as urgent and before all less urgent |
| `MessageLaws.GiveWakes` | rt-thread/src/ipc.c:3894-3911 | a node given back is free and the first waiting sender is woken |
| `MessageLaws.ResetFrees` | rt-thread/src/ipc.c:3980-4028 | a reset frees exactly the queued nodes and leaves nobody waiting |
| `MessageLaws.TimeoutLeaves` | rt-thread/src/thread.c:146-178 | a thread whose time runs out leaves its list, the others keep their order |
| `MessageQueue.MessageQueue.constructor` | rt-thread/src/ipc.c:3092-3151 | all nodes are free, nobody waits, and nobody is woken: the start of the runs above |
| `MessageQueue.MessageQueue.TakeFree` | rt-thread/src/ipc.c:3404-3486 | the linked nodes and counters make exactly the specified step: a free node passes to the sender, or the sender waits or is refused |
| `MessageQueue.MessageQueue.Fill` | rt-thread/src/ipc.c:3490-3496 | exactly the specified step: the copy outside the lock touches this node only |
| `MessageQueue.MessageQueue.LinkLast` | rt-thread/src/ipc.c:3527-3544 | the message is queued last, as specified; nodes in other hands stay as they are |
| `MessageQueue.MessageQueue.LinkByPriority` | rt-thread/src/ipc.c:3500-3525 | the message is queued at its place by priority, as specified; nodes in other hands stay as they are |
| `MessageQueue.MessageQueue.Link` | rt-thread/src/ipc.c:3498-3566 | exactly the specified step: the message is queued and the first waiting receiver woken |
| `MessageQueue.MessageQueue.LinkFirst` | rt-thread/src/ipc.c:3651-3725 | exactly the specified step: the message is queued first and the first waiting receiver woken |
| `MessageQueue.MessageQueue.TakeFirst` | rt-thread/src/ipc.c:3758-3880 | exactly the specified step: the first message passes to the receiver, or the receiver waits or is refused |
| `MessageQueue.MessageQueue.GiveBack` | rt-thread/src/ipc.c:3894-3911 | exactly the specified step: the node is free again and the first waiting sender woken |
| `MessageQueue.MessageQueue.Reset` | rt-thread/src/ipc.c:3980-4028 | exactly the specified step: the queue is empty, its nodes are free, every waiter is made ready, and nodes being copied stay with their threads |
| `MessageQueue.MessageQueue.ReceiverTimesOut` | rt-thread/src/thread.c:146-178 | exactly the specified step: the receiver leaves the list, and no wake-up is lost by that |
| `MessageQueue.MessageQueue.SenderTimesOut` | rt-thread/src/thread.c:146-178 | exactly the specified step for a sender |
| `MessageSteps.NobodyForgotten` | rt-thread/src/ipc.c:3376-3918 | once every woken thread has run no receiver waits while there is a message and no sender while a node is free |
| `MessageQueue.FindPlace` | rt-thread/src/ipc.c:3505-3525 | the walk finds the node before which, or behind which, the message belongs |
| `EventFlags.SplitByFlags` | rt-thread/src/ipc.c:1985-2045 | a send wakes exactly the waiters satisfied by the new set, all judged by the same set, and keeps the others in order |
| `EventFlags.ClearedIff` | rt-thread/src/ipc.c:2031-2049 | a bit is cleared if and only if some woken waiter that asked for clearing received it |
| `EventFlags.SendKeeps` | rt-thread/src/ipc.c:1964-2060 | no waiter a send leaves behind is satisfied by the set it leaves |
| `EventFlags.MetMeans` | rt-thread/src/ipc.c:2000-2025 | a waiter for all is satisfied if none of its flags is missing, one for any if one is there |
| `EventFlags.InListOrder` | rt-thread/src/ipc.c:1985-2045 | woken and kept waiters are in the order in which they waited |
| `EventFlags.GotMeans` | rt-thread/src/ipc.c:2001-2019 | a woken thread finds the flags it asked for that were set |
| `EventFlags.Event.constructor` | rt-thread/src/ipc.c:1786-1806 | no flags and no waiters |
| `EventFlags.Event.Send` | rt-thread/src/ipc.c:1964-2060 | the code wakes, keeps and clears as said, and in every state nobody waits for what is there |
| `EventFlags.Event.Recv` | rt-thread/src/ipc.c:2096-2220 | a request that is satisfied receives what it asked for and clears it if told to; else it waits or is refused |
| `EventFlags.Event.TimesOut` | rt-thread/src/thread.c:146-178 | the waiter leaves the list and nothing else changes |

## Left out

- MutexKernel.Kernel.MutexTake: runs (PriorityInheritance.RunKeepsInv) take a time limit that runs out as one step, a drop; what other calls do between the timeout and the clean-up is covered as far as MutexTimeouts.WithdrawKeepsInvIff says.
- Mutex deletion and detach, and changes of the priority of a waiting thread by `rt_thread_control`.
- `thread.error` codes, object names, hooks, debug checks, and reference counting of objects.
- The retry loop of `rt_mutex_release` for a waiter whose timer fires at that moment.
- SmpScheduling.ScheduleRunsTheMostUrgent: assumes an idle thread of the CPU that is ready or running, which the initialisation of the system provides.
- Critical-section nesting, inter-processor interrupts, signals, and the context switch itself in the multi-core scheduler.
- MutexKernel.Kernel.MutexDropThread: one step, although the source closes the thread first and drops it afterwards.
- UpKernel: thread control blocks are a map of records from thread numbers, not objects.
- Skip-list rows are sequences; Ring.dfy proves the node operations they stand for. The soft-timer wake test and the next-timeout tick are not modelled.
- SkipList.TimerList.Check: callbacks that start or stop timers, or run long enough for the tick to change, are not modelled; it asks that no expired timer is periodic with period zero; without that the loop does not end (TimerQueue.ZeroPeriodNeverLeaves).
- Heap locks, memory tracing, best-fit mode, and sizes so near to 2 to the 32nd that rounding them overflows.
- MemHeap.MemHeap.Alloc: headers are kept in maps beside the payload bytes; that a header write stays clear of live payloads is proved on addresses.
- Slab.Slab.Alloc: the magic word of a zone is not modelled, and zone headers and free chunks' links are kept beside the bytes of the pieces; the test for a power of two is modelled by its meaning.
- Slab.Slab.Free: takes the piece as a ghost parameter to say which pointer it is; the code finds it from the pointer alone.
- Mailbox, message queue and event work on thread numbers; deletion, detach and interruptible waits are left out, and so is the overflow of the entry counter, which no queue of that size can reach.
- MessageQueue.MessageQueue.Fill: the refusal of messages longer than the queue's message size, which comes before everything else, is not modelled.
- Semaphores and memory pools, which would add easier forms of the same properties.
