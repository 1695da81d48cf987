# FreeRTOS kernel, CRC and line cleaner: a verified model

This project models the parts of the repository that hold its hardest state and arithmetic, and proves what they are
for: the FreeRTOS V10.2.0 kernel (scheduler and time, lists, queues, mutexes, stream and message buffers, event groups,
software timers), the CRC-32/MPEG-2 of the flash records, and the normaliser of command lines. `dafny verify
dfyconfig.toml` checks everything.

## How it is built

| module | what it models |
|---|---|
| `Rings`, `KernelList` | `list.c`: the circular list with its cursor as a value, and the heap nodes that refine it |
| `ReadyBitmap` | the ready-priority word of the port and its count of leading zeros |
| `TaskLists`, `TaskMachine`, `TaskRuns` | the scheduler without caches, as a state machine with a clock that never wraps, and its properties over every run |
| `TaskCards` | what each step of the scheduler does to each task and to time, stated without the functions that define the steps |
| `TaskTurns`, `WakeOrder` | tasks of one priority take turns, over every run, beginning in the order in which they became due |
| `EventOrder` | the order of the event lists that queues use, over every run |
| `Scheduler` | `tasks.c` as it is: 32-bit tick, two swapped delayed lists, cached unblock time, bitmap, counters; a class whose methods refine the machine |
| `QueueRing` | the storage ring of `queue.c` in bytes, refining a bounded double-ended queue |
| `QueueProtocol` | the blocking protocol of `queue.c`: each critical section or interrupt is one step, the scheduler lock and the two queue locks are part of the state |
| `QueueOutcomes` | how calls on a queue end and whom they wake, over every interleaving |
| `MutexProtocol` | taking, timing out on and giving mutexes, with inheritance, as one state machine over `queue.c` and `tasks.c` |
| `MutexOutcomes` | how attempts to take a mutex end, over every interleaving |
| `MutexBitmap` | the ready bitmap of the scheduler under the discipline of `MutexProtocol`, and the agreement of both on priorities |
| `Scenarios` | runs of the scheduler, from its start, to the states in which it does not keep what one would expect |
| `StreamFrames`, `StreamBuffer` | the ring, the two-block copies and the framing of `stream_buffer.c`, one call at a time |
| `StreamInterleave` | one writer and one reader interleaved at every load and store of head and tail and every byte |
| `StreamOutcomes` | what one send and one receive do, whatever the other side does meanwhile |
| `EventBits`, `EventGroup`, `Barrier` | waiting for any or all of some bits, the releasing walk, and the rendezvous over unbounded rounds |
| `TimeOuts` | `xTaskCheckForTimeOut` and `vTaskDelayUntil` against a clock that never wraps |
| `Timers` | timer placement in wrapped time and the catch-up loop at a wrap |
| `TimerLife` | one auto-reload timer through lists, catch-up and start commands, over any number of wraps |
| `Crc` | the nibble-table CRC against the bit-serial register, and what it detects |
| `LineCleaner` | the in-place passes over a command line against the words of the line |
| `Words`, `Bytes` | 32-bit arithmetic written out, byte copies, the length word |

The scheduler is refined in two steps. `TaskMachine` has wrapped wake times and two lists but no caches; `TickIsExact`,
`SleepWakesAfter` and `BlocksExactly` relate it to true, unbounded time. `Scheduler.Kernel` has the caches; each method
ends in the state the machine's step gives, with the caches right, and `StaysValid` closes the circle. Words whose bits
matter are sets of bit positions (bitmap, event bits) or sequences of bits (CRC); `|`, `&` and `& ~` are union,
intersection and difference.

A step function and the method that refines it could both be wrong in the same way. So what each operation is for is
also stated without them: the cards of `TaskCards` say where every task is, when it wakes and what its control block says
after each step, in terms of the state before; the modules of outcomes say over whole runs how a call can end.

Configuration as in `FreeRTOS/Inc/FreeRTOSConfig.h`: preemption (:30), the port's selection (:31), no tickless idle
(:32), 7 priorities (:35), 32-bit ticks (:38), mutexes (:41), no queue sets (:45), no time slicing (:46), suspension
(:155), no abort-delay (:166). Timers are compiled out there (:79); their code is modelled all the same.

## What the code does not promise

These stronger statements are false of the code. Each has a lemma with a concrete instance and a condition under which
the code does meet it.

- `vTaskPriorityDisinheritAfterTimeout` resets the bitmap bit of the priority the holder gets, not of the one it leaves
  (tasks.c:4161, :4184). `PriorityDisinheritAfterTimeout` states the bitmap is exact if and only if the holder was not
  alone on the ready list it leaves; `AStaleBitIsReached` is a run from the start that gets there; by `ReadyPeerRemains`
  and `TimeOutKeepsTheBitmap` tasks which hold one mutex at a time and keep their priorities never do.
- The comment at queue.c:1498-1500 says that a taker which is out of ticks never caused an inheritance, and the
  assertion after it checks this. `TimedOutLenderMeetsAHeldMutex` is a run in which it fails, `AssertionFailsIff` says
  for all runs when, and `FailsOnlyAfterATimeOut` that it takes a wait that used up its ticks.
- The queue lock counts are 8-bit: `LockCountIsExact`, `LockCountWraps`.
- `xQueueGenericReset` frees every slot and wakes one sender: `ResetIsExact`, `ResetForgetsASender`.
- A receive that is too small for the next message publishes the tail past the length word and then puts it back:
  `SamplingIsSafeIff`, `SamplingDuringARefusalOverruns`.
- A priority changed while its task waits on a sorted event list does not move the task (tasks.c:1638-1640, :3968-3970):
  `PriorityChangeKeepsOrderIff`, `AWaiterIsLeftBehind`; the comment at tasks.c:3099-3101, that the first on the list has
  the highest priority, is `FirstIsHighest` with that condition at every step.
- `xTaskCheckForTimeOut` and `vTaskDelayUntil` called too late work with elapsed time modulo 2^32:
  `CheckIsWrongIff`, `ALateCheckIsWrong`, `DelayUntilIsRightIff`, `ALateCallDelays`.

## Model

| member | source | states |
|---|---|---|
| KernelList.List.constructor | FreeRTOS/Source/list.c:37-59 | a new list is the end marker alone, linked to itself, with the cursor on it |
| KernelList.List.InsertEnd | FreeRTOS/Source/list.c:74-100 | relinking the heap nodes puts the item immediately before the cursor and changes the order of nothing else |
| KernelList.List.Insert | FreeRTOS/Source/list.c:103-167 | stable sorted insertion on the heap: every item up to the new one is no larger, the next one is larger; the search ends for every value, portMAX_DELAY included |
| KernelList.List.LinkAfter | FreeRTOS/Source/list.c:157-167 | the four link writes insert at exactly that place and leave the cursor on its item |
| KernelList.List.Unlink | FreeRTOS/Source/list.c:170-196 | unlinking keeps the order of the other items, and a cursor on the removed item falls back to its predecessor |
| KernelList.List.Remove | FreeRTOS/Source/list.c:170-196 | removal is the removal of the value, clears the container, and returns how many items are left |
| KernelList.List.OwnerOfNextEntry | FreeRTOS/Source/include/list.h:277-288 | the cursor moves to the next item, never to the end marker, and that item is chosen |
| Rings.SortedInsertIsStable | FreeRTOS/Source/list.c:103-167 | a sorted list stays sorted and the new item follows exactly the items that are not larger |
| Rings.RemoveOk | FreeRTOS/Source/list.c:170-196 | removal keeps the cursor in the ring and every other item |
| Rings.InsertEndOk | FreeRTOS/Source/list.c:74-100 | insertion adds one item and loses none |
| Rings.SelectTakesTheLeader | FreeRTOS/Source/include/list.h:277-288 | a selection takes the item the cursor reaches next, which then has all others before it |
| Rings.AheadIsPickedFirst | FreeRTOS/Source/include/list.h:277-288 | an item ahead of another is selected before it, whatever is inserted or removed meanwhile |
| Rings.NobodyIsPickedTwiceInARow | FreeRTOS/Source/tasks.c:169-177 | under arbitrary insertions and removals, between two selections of one item every item that stayed is selected |
| Rings.AppendGoesLast | FreeRTOS/Source/list.c:74-100 | an item inserted at the end is selected after all others, but for the one selected last |
| ReadyBitmap.LeadingZerosStopAtTheTop | FreeRTOS/Source/portable/GCC/ARM_CM4F/portmacro.h:131-137 | the count of leading zeros leads to a set bit that no other set bit exceeds |
| ReadyBitmap.HighestIsHighest | FreeRTOS/Source/portable/GCC/ARM_CM4F/portmacro.h:145-149 | 31 minus the leading zeros is a recorded priority, and no recorded priority is higher |
| TaskLists.TakeOk | FreeRTOS/Source/list.c:170-196 | taking an item off keeps containers and lists in agreement and touches no other list |
| TaskLists.PutEndOk | FreeRTOS/Source/list.c:74-100 | the same for insertion at the end |
| TaskLists.PutSortedOk | FreeRTOS/Source/list.c:103-167 | the same for sorted insertion |
| TaskLists.PutSortedSorts | FreeRTOS/Source/list.c:103-167 | sorted insertion into a list sorted by item value keeps it sorted |
| TaskLists.PutSortedComesLast | FreeRTOS/Source/list.c:103-167 | the new item comes after every item of no larger value: first in, first out among equals |
| TaskLists.LengthsCountTasks | FreeRTOS/Source/tasks.c:367 | the lengths of distinct lists add up to the number of tasks on them |
| TaskMachine.SleepOk | FreeRTOS/Source/tasks.c:5080-5175 | blocking keeps both delayed lists sorted, wake times of this epoch in one and of the next epoch in the other |
| TaskMachine.SleepWakesAfter | FreeRTOS/Source/tasks.c:5080-5175 | the wrapped value and the choice of list encode a true wake time of now plus n, or never for an indefinite wait |
| TaskMachine.AdvanceOk | FreeRTOS/Source/tasks.c:198-210 | at every wrap the delayed list is empty, as the assertion there says, and swapping the lists changes nobody's true wake time |
| TaskMachine.DueIsExact | FreeRTOS/Source/tasks.c:2697-2773 | the prefix of the sorted list the tick takes off is exactly the set of tasks whose time has come |
| TaskMachine.TickIsExact | FreeRTOS/Source/tasks.c:2664-2773 | one tick readies exactly the tasks whose true wake time it reaches and moves no other |
| TaskMachine.TicksAreExact | FreeRTOS/Source/tasks.c:2232-2250 | n pended ticks together ready exactly the tasks whose true wake time lies within them |
| TaskMachine.ResumeOk | FreeRTOS/Source/tasks.c:2173-2280 | after the outermost resume nothing is pended, the pending-ready list is empty and the clock has caught up |
| TaskMachine.ResumeIsExact | FreeRTOS/Source/tasks.c:2173-2280 | a task readied meanwhile is ready, moved before a pended tick could time it out; of the others exactly the due ones are woken |
| TaskRuns.StartOk | FreeRTOS/Source/tasks.c:1967-2085 | the started scheduler with the idle task satisfies the invariant |
| TaskRuns.StepKeepsInv | FreeRTOS/Source/tasks.c:2664-5175 | every one of the 21 kinds of step keeps the whole invariant: lists and containers agree, ready tasks are in the list of their priority, epochs and order of the delayed lists, only blocked tasks on event lists, nothing held back while the scheduler runs |
| TaskRuns.RunKeepsInv | FreeRTOS/Source/tasks.c:2664-5175 | so does every run |
| TaskRuns.StepWakesOnTime | FreeRTOS/Source/tasks.c:2664-2773 | a step that does not touch a sleeping task readies it exactly when it brings the processed time to its wake time |
| TaskRuns.SleepsUntilItsTime | FreeRTOS/Source/tasks.c:2664-2773 | until then it stays asleep through every run, over any number of tick wraps |
| TaskRuns.BlockingSetsTheTime | FreeRTOS/Source/tasks.c:5080-5175 | a delay and a wait with a time limit of n ticks both set the true wake time to now plus n |
| TaskRuns.BlocksExactly | FreeRTOS/Source/tasks.c:1333-1352 | a task that blocks at true time T for n ticks, in a delay or on an event, and is not readied otherwise is readied exactly by the step that brings the processed time to T + n |
| TaskRuns.TimeOnlyAdvances | FreeRTOS/Source/tasks.c:2664-2773 | the processed time never goes back |
| TaskRuns.TicksAreConserved | FreeRTOS/Source/tasks.c:2804-2808 | over any nesting of suspensions processed time plus pended ticks counts the tick interrupts, and none is pended while the scheduler runs |
| TaskRuns.ClockShowsTheTime | FreeRTOS/Source/tasks.c:2664-2693 | in every run from the start the tick count and the overflow count are the rest and the quotient of the true time by 2^32 |
| TaskRuns.ListsPartitionTheTasks | FreeRTOS/Source/tasks.c:340-356 | each existing task is on exactly one list and the list lengths add up to the number of tasks |
| TaskRuns.PopulationChangesOnlyByCreationAndDeletion | FreeRTOS/Source/tasks.c:1072-1226 | a task comes into existence only by creation, and ceases only by deletion by another or by the idle task |
| TaskRuns.StepPopulation | FreeRTOS/Source/tasks.c:1072-1226 | the size of the population changes by exactly what each step says |
| TaskRuns.StepKeepsCounted | FreeRTOS/Source/tasks.c:3577-3603 | the two counters keep counting the tasks and the deleted tasks that wait to be freed |
| TaskRuns.FreeingIsReaping | FreeRTOS/Source/tasks.c:3577-3603 | freeing n deleted tasks is n steps that each find a task at the head, and leaves n tasks fewer |
| TaskRuns.SwitchPicksTheHighest | FreeRTOS/Source/tasks.c:2946-3000 | a context switch runs a ready task, and no ready task has a higher priority |
| TaskCards.TickCard | FreeRTOS/Source/tasks.c:2664-2808 | a tick readies the tasks whose true wake time it reaches, off their event lists, and changes nothing else of anybody; with the scheduler suspended it is only counted |
| TaskCards.SuspendAllCard | FreeRTOS/Source/tasks.c:2100-2107 | only the nesting of suspensions changes |
| TaskCards.ResumeAllCard | FreeRTOS/Source/tasks.c:2173-2280 | the outermost resume readies the tasks held back and those whose wake time lies within the pended ticks, at their priorities, and leaves every other task as it was; an inner one moves nobody |
| TaskCards.ResumeAllRest | FreeRTOS/Source/tasks.c:2173-2280 | the outermost resume moves the true time on by the pended ticks, of which none is left; the running task stays |
| TaskCards.ResumeYieldsIff | FreeRTOS/Source/tasks.c:2203-2250 | after the outermost resume a yield is pending if and only if one was before, or the resume readied a task of at least the running task's priority, held back or due within the pended ticks |
| TaskCards.TicksYield | FreeRTOS/Source/tasks.c:2232-2250 | over any number of pended ticks a yield is pending if and only if one was before, or a task of at least the running task's priority had its wake time within them |
| TaskCards.DuePreemptsIff | FreeRTOS/Source/tasks.c:2755-2773 | one tick asks for a switch if and only if it reaches the wake time of a task of at least the running task's priority |
| TaskCards.SwitchContextCard | FreeRTOS/Source/tasks.c:2946-3000 | a switch moves nobody and runs a ready task of the highest priority there is; with the scheduler suspended it is only remembered |
| TaskCards.DelayCard | FreeRTOS/Source/tasks.c:1333-1352 | the running task is blocked until now plus n; nothing else of it, and nothing of any other task, changes |
| TaskCards.WaitOnCard | FreeRTOS/Source/tasks.c:3019-3033 | the running task is on the event list and blocked until now plus n, or without a limit for the largest n; nobody else changes |
| TaskCards.WaitUnorderedCard | FreeRTOS/Source/tasks.c:3036-3057 | the same, with the given value in its event item: the low 31 bits kept, the top bit set to mark it in use |
| TaskCards.WakeFirstCard | FreeRTOS/Source/tasks.c:3093-3158 | the first of the event list is readied, or held back while the scheduler is suspended; a yield becomes pending if it outranks the running task; nobody else changes |
| TaskCards.WakeOneCard | FreeRTOS/Source/tasks.c:3161-3192 | the given task is readied with the given value, marked in use; a yield becomes pending if it outranks the running task; nobody else changes |
| TaskCards.SuspendCard | FreeRTOS/Source/tasks.c:1696-1760 | the suspended task is on the suspended list, waits for nothing and is woken at no time; nobody else changes |
| TaskCards.ResumeCard | FreeRTOS/Source/tasks.c:1843-1890 | a task is readied at its priority if and only if it is on the suspended list, waits for nothing and is not the running one; nobody else changes |
| TaskCards.ResumeFromISRCard | FreeRTOS/Source/tasks.c:1897-1960 | a suspended task is readied, or held back while the scheduler is suspended; nobody else changes |
| TaskCards.SuspendedUntilResumed | FreeRTOS/Source/tasks.c:1696-1760 | over every run: from its suspension on a task is never ready, held back, waiting or to be woken by any time, until it is resumed by a task or from an interrupt |
| TaskCards.CreateCard | FreeRTOS/Source/tasks.c:1072-1150 | a new task is ready at its priority, or at the highest there is if it asks for more, holds no mutex and waits for nothing; nobody else changes |
| TaskCards.DeleteCard | FreeRTOS/Source/tasks.c:1157-1226 | a deleted task is on no list, or on the termination list if it is the running one, and waits for nothing; nobody else changes |
| TaskCards.ReapCard | FreeRTOS/Source/tasks.c:3577-3603 | the first task on the termination list ceases to exist; nobody else changes |
| TaskCards.SetPriorityCard | FreeRTOS/Source/tasks.c:1532-1690 | the base priority is the one set, clipped; the priority in use follows unless it is inherited; a ready task moves to the list of its priority, a free event value follows, a value in use stays |
| TaskCards.TakeMutexCard | FreeRTOS/Source/tasks.c:4548-4560 | the running task holds one mutex more; nothing else changes |
| TaskCards.ResetEventValueCard | FreeRTOS/Source/tasks.c:4532-4544 | the event value of the running task is that of its priority; nothing else changes |
| TaskCards.InheritCard | FreeRTOS/Source/tasks.c:3950-4035 | a holder below the running task gets its priority, ready there if it was ready, and a free event value follows; its base and everybody else stay |
| TaskCards.DisinheritCard | FreeRTOS/Source/tasks.c:4037-4112 | the running task holds one mutex fewer; if none is left it has its base priority, is on the ready list of it, and its event value is that of the base if it was raised; otherwise priority, list and value stay; nobody else changes |
| TaskCards.DisinheritAfterTimeoutCard | FreeRTOS/Source/tasks.c:4117-4212 | a holder of one mutex gets its base priority or that of the highest remaining waiter, whichever is higher, on the ready list of it if ready; otherwise nothing changes |
| TaskTurns.StepKeepsTurns | FreeRTOS/Source/tasks.c:169-222 | no step changes the order in which two ready tasks of one priority take their turns, except to select the first of them |
| TaskTurns.ReadiedComesLast | FreeRTOS/Source/tasks.c:214-222 | a task that is readied takes its turn after all others of its priority, but for the one selected last |
| TaskTurns.EverybodyGetsATurn | FreeRTOS/Source/tasks.c:169-177 | in every run, between two selections of one task every other that stays ready at its priority is selected |
| WakeOrder.TickReadiesInOrder | FreeRTOS/Source/tasks.c:2697-2773 | of two tasks of one priority that a tick readies, the one that is first on the delayed list takes its turn first |
| WakeOrder.ResumeReadiesInOrder | FreeRTOS/Source/tasks.c:2197-2250 | of two tasks of one priority that the outermost resume readies, those held back take their turns first, in the order in which they were held back, then the sleepers by wake time, and with one wake time by their place on the delayed list, over any number of pended ticks and wraps |
| EventOrder.StepKeepsOrder | FreeRTOS/Source/tasks.c:2664-5175 | every kind of step that meets the conditions on the use of an event list keeps it sorted and keeps free event values in step with the priorities |
| EventOrder.FirstIsHighest | FreeRTOS/Source/tasks.c:3093-3105 | in every run from the start in which only queues use an event list, and a priority given to a waiter fits where it waits, the list is sorted by priority, highest first, so the next task woken outranks or equals all that wait, as the comment there claims |
| EventOrder.PriorityChangeKeepsOrderIff | FreeRTOS/Source/tasks.c:1634-1660 | setting, inheriting or disinheriting the priority of a task on a sorted event list does not move it: the list stays sorted if and only if the new value fits between its neighbours |
| Scenarios.AWaiterIsLeftBehind | FreeRTOS/Source/tasks.c:1634-1660 | a run from the start after which a waiter that is raised stays behind one of lower priority |
| Scenarios.AStaleBitIsReached | FreeRTOS/Source/tasks.c:4161-4200 | a run from the start, with a lent priority, a raised waiter and a time-out, after which the disinheritance leaves a bit set for an empty ready list |
| MutexBitmap.PeerKeepsTheBit | FreeRTOS/Source/tasks.c:4161-4200 | with another ready task at the priority the holder leaves, the disinheritance after a time-out leaves the bitmap exact |
| MutexBitmap.TimeOutKeepsTheBitmap | FreeRTOS/Source/tasks.c:4161-4200 | in every run of the mutex protocol the disinheritance after a time-out leaves the bitmap of any scheduler state that agrees with it exact |
| MutexBitmap.DisinheritAgrees | FreeRTOS/Source/tasks.c:4037-4112 | the scheduler and the mutex protocol give a priority back alike: every task has the same priority, base priority and number of mutexes in both afterwards |
| MutexBitmap.InheritAgrees | FreeRTOS/Source/tasks.c:3950-4035 | both raise the holder alike |
| MutexBitmap.DisinheritAfterTimeoutAgrees | FreeRTOS/Source/tasks.c:4117-4212 | both lower the holder alike after a time-out |
| Scheduler.Kernel.constructor | FreeRTOS/Source/tasks.c:1967-2085 | the concrete state at the start represents the machine's start, caches right |
| Scheduler.Kernel.AddToReadyList | FreeRTOS/Source/tasks.c:214-222 | the bit is recorded with the insertion, so an exact bitmap stays exact |
| Scheduler.Kernel.RemoveFromItsList | FreeRTOS/Source/tasks.c:1708-1715 | the bit is reset exactly when the removal emptied the ready list |
| Scheduler.Kernel.RemoveFromReadyList | FreeRTOS/Source/tasks.c:5094-5106 | a task leaves a ready list: its bit is reset exactly when the list is then empty |
| Scheduler.Kernel.Unblock | FreeRTOS/Source/tasks.c:2735-2752 | from a delayed list to the ready list of its priority, off its event list, bitmap exact |
| Scheduler.Kernel.ResetNextTaskUnblockTime | FreeRTOS/Source/tasks.c:3879-3900 | the cached time is no later than the wake time of the head |
| Scheduler.Kernel.AdvanceTick | FreeRTOS/Source/tasks.c:198-210 | the wrapped increment with the swap of the lists is the machine's advance of a clock that does not wrap |
| Scheduler.Kernel.UnblockDueTasks | FreeRTOS/Source/tasks.c:2697-2773 | the unblocking loop wakes the due tasks in order, leaves the cached time right, and asks for a switch iff one of them has at least the running task's priority |
| Scheduler.Kernel.IncrementTick | FreeRTOS/Source/tasks.c:2664-2830 | with its early exit on the cached time the tick does what the cacheless machine does; it asks for a switch if and only if a yield is pending, or the scheduler runs and the tick reaches the wake time of a task of at least the running task's priority |
| Scheduler.Kernel.SuspendAll | FreeRTOS/Source/tasks.c:2100-2107 | only the nesting count changes |
| Scheduler.Kernel.DrainPendingReady | FreeRTOS/Source/tasks.c:2197-2214 | the loop readies the pending tasks in order |
| Scheduler.Kernel.CatchUpPendedTicks | FreeRTOS/Source/tasks.c:2232-2250 | the loop processes exactly the pended ticks; a yield is pending afterwards if and only if one was before, or the wake time of a task of at least the running task's priority lies within them |
| Scheduler.Kernel.ResumeAll | FreeRTOS/Source/tasks.c:2173-2280 | the outermost resume is the machine's: pending tasks first, then the pended ticks; it reports a yield if and only if it is the outermost and one was pending or it readied a task of at least the running task's priority |
| Scheduler.Kernel.SelectHighestPriorityTask | FreeRTOS/Source/tasks.c:169-177 | the bit found is the highest non-empty ready list, whose next entry becomes the running task |
| Scheduler.Kernel.SwitchContext | FreeRTOS/Source/tasks.c:2946-3000 | switching, or remembering to, is the machine's step |
| Scheduler.Kernel.FileCurrentByTime | FreeRTOS/Source/tasks.c:5121-5150 | filing by wrapped wake time keeps the cached unblock time right |
| Scheduler.Kernel.AddCurrentTaskToDelayedList | FreeRTOS/Source/tasks.c:5080-5175 | blocking the running task is the machine's sleep, caches right |
| Scheduler.Kernel.Delay | FreeRTOS/Source/tasks.c:1333-1352 | the body of the delay is the machine's step |
| Scheduler.Kernel.PlaceOnEventList | FreeRTOS/Source/tasks.c:3019-3033 | sorted event list and delayed list together are the machine's step |
| Scheduler.Kernel.PlaceOnUnorderedEventList | FreeRTOS/Source/tasks.c:3036-3057 | the same for an unsorted event list with the value marked in use |
| Scheduler.Kernel.RemoveFromEventList | FreeRTOS/Source/tasks.c:3093-3158 | the head goes to its ready list or, with the scheduler suspended, to the pending-ready list; the result says whether it outranks the running task |
| Scheduler.Kernel.RemoveFromUnorderedEventList | FreeRTOS/Source/tasks.c:3161-3192 | the given task is readied with the given value |
| Scheduler.Kernel.SuspendTask | FreeRTOS/Source/tasks.c:1696-1760 | the task is on the suspended list and on no event list; bitmap and cached time right |
| Scheduler.Kernel.ResumeTask | FreeRTOS/Source/tasks.c:1843-1890 | only a suspended task other than the running one is resumed |
| Scheduler.Kernel.ResumeTaskFromISR | FreeRTOS/Source/tasks.c:1897-1960 | a suspended task goes to its ready list or the pending-ready list; the yield flag is exact |
| Scheduler.Kernel.CreateTask | FreeRTOS/Source/tasks.c:1072-1150 | a new task is ready at its clipped priority and counted |
| Scheduler.Kernel.DeleteTask | FreeRTOS/Source/tasks.c:1157-1226 | another task ceases at once, the running one waits for the idle task; the counters follow |
| Scheduler.Kernel.CheckTasksWaitingTermination | FreeRTOS/Source/tasks.c:3577-3603 | the loop frees exactly the waiting tasks, never reads an empty list, and leaves the counter at 0 |
| Scheduler.Kernel.PrioritySet | FreeRTOS/Source/tasks.c:1532-1690 | base priority, inherited priority, event value and ready list change as the machine's do; the yield flag is exact |
| Scheduler.Kernel.IncrementMutexHeldCount | FreeRTOS/Source/tasks.c:4548-4560 | one more mutex is counted as held |
| Scheduler.Kernel.ResetEventItemValue | FreeRTOS/Source/tasks.c:4532-4544 | the running task gets the value of its event item, which then follows its priority again |
| Scheduler.Kernel.PriorityInherit | FreeRTOS/Source/tasks.c:3950-4035 | the holder is raised iff the running task outranks it; the result says whether an inheritance occurred |
| Scheduler.Kernel.PriorityDisinherit | FreeRTOS/Source/tasks.c:4037-4112 | one mutex fewer is held; with none left the task has its base priority and is on the ready list of it; a switch is asked for iff a raised priority was given back |
| Scheduler.Kernel.RequeueByNewPriority | FreeRTOS/Source/tasks.c:4161-4200 | resetting the bit of the new priority leaves the bit of the old one set, right only if another ready task remains there |
| Scheduler.Kernel.PriorityDisinheritAfterTimeout | FreeRTOS/Source/tasks.c:4117-4212 | the machine's step; the bitmap stays exact if and only if the holder was not alone on the ready list it leaves |
| Scheduler.HighestBit | FreeRTOS/Source/tasks.c:169-177 | an exact bitmap gives the highest non-empty ready list |
| Scheduler.NothingDue | FreeRTOS/Source/tasks.c:2697 | before the cached time nobody is due |
| Scheduler.StaysValid | FreeRTOS/Source/tasks.c:2664-5175 | what each operation establishes is what the next one needs, so the refinement holds over whole runs |
| QueueRing.BackAppends | FreeRTOS/Source/queue.c:2096-2107 | writing the slot after the last item appends |
| QueueRing.FrontPrepends | FreeRTOS/Source/queue.c:2109-2120 | writing the slot before the first item and stepping back prepends |
| QueueRing.ReadPops | FreeRTOS/Source/queue.c:2149-2164 | stepping the read position on takes the first item off |
| QueueRing.StoreSlot | FreeRTOS/Source/queue.c:2098-2111 | the bytes copied for one slot leave the other slots as they were, for every length and item size |
| QueueRing.StepForward | FreeRTOS/Source/queue.c:2099-2107 | comparing the offset with the tail is stepping the slot number cyclically |
| QueueRing.Queue.constructor | FreeRTOS/Source/queue.c:429-467 | a new queue is empty |
| QueueRing.Queue.Reset | FreeRTOS/Source/queue.c:255-268 | a reset queue is empty |
| QueueRing.Queue.CopyDataToQueue | FreeRTOS/Source/queue.c:2070-2146 | back appends, front prepends, overwrite replaces the item of a queue of length 1 |
| QueueRing.Queue.CopyDataFromQueue | FreeRTOS/Source/queue.c:2149-2164 | the first item is copied out and the read offset steps on |
| QueueRing.Queue.Send | FreeRTOS/Source/queue.c:768-860 | a send succeeds iff there is room or it overwrites; otherwise nothing changes |
| QueueRing.Queue.TakeFirst | FreeRTOS/Source/queue.c:1299-1312 | the first item leaves, the others stay in order, the write position stays |
| QueueRing.Queue.Receive | FreeRTOS/Source/queue.c:1299-1345 | a receive takes the first item iff there is one |
| QueueRing.Queue.Peek | FreeRTOS/Source/queue.c:1659-1700 | a peek returns the first item and changes nothing, the read offset included |
| QueueProtocol.StepKeepsInv | FreeRTOS/Source/queue.c:747-954 | every critical section, every interrupt and every tick keeps the accounting of waiting, woken and locked |
| QueueProtocol.RunKeepsInv | FreeRTOS/Source/queue.c:747-954 | so does every interleaving |
| QueueProtocol.NoLostWakeup | FreeRTOS/Source/queue.c:1273-1411 | in every reachable state a waiting receiver has every message accounted for by a woken receiver or the lock count, and symmetrically for senders and free slots; nobody sleeps on an unlocked queue with work to do |
| QueueProtocol.WakeCounts | FreeRTOS/Source/queue.c:2167-2284 | every task taken off the event list is counted as woken, once |
| QueueProtocol.Unlock | FreeRTOS/Source/queue.c:2167-2284 | the drain loop wakes as many waiters as the lock count and unlocks |
| QueueProtocol.LockCountIsExact | FreeRTOS/Source/queue.c:990-1092 | k posts from interrupts in one locked window, to a queue that held any number of messages, leave nobody forgotten if and only if the 8-bit count did not wrap, or everybody was woken after it came round, or the tasks woken before make up for it |
| QueueProtocol.LockCountWraps | FreeRTOS/Source/queue.c:115-116 | after 128 posts in one window a receiver stays blocked on 128 messages |
| QueueProtocol.ResetIsExact | FreeRTOS/Source/queue.c:270-303 | a reset keeps the guarantee if and only if at most one sender waits or the woken senders fill the queue |
| QueueProtocol.ResetForgetsASender | FreeRTOS/Source/queue.c:270-286 | a run in which two senders block on a full queue, after which a reset leaves one of them blocked on a free slot |
| QueueOutcomes.CallEndsServedOrTimedOut | FreeRTOS/Source/queue.c:768-954 | in every run a call ends only in one of three ways: at a check at which the queue served it, with the count changed as the call must; at a check that found nothing, without time to wait; or after its latest examination of the time found it expired, a reader after looking once more at an empty queue |
| QueueOutcomes.InTimeCallTriesAgain | FreeRTOS/Source/queue.c:908-941 | in every run a call whose time runs does not end before its next check, and when it comes to it the queue had something at its test or it has been on its event list |
| QueueOutcomes.TimedOutCallDoesNotWait | FreeRTOS/Source/queue.c:1394-1411 | in every run a call whose time has expired does not wait again before its next check: it is on its way out or out, or a reader that looked again found messages |
| QueueOutcomes.EveryTurnExaminesTheTime | FreeRTOS/Source/queue.c:905-911 | in every run a task whose check found nothing comes neither to its next check nor to the end of its call before it has examined its time |
| QueueOutcomes.CheckServesOrWaits | FreeRTOS/Source/queue.c:768-904 | a check serves the call and ends it if and only if there is something for it; otherwise it changes no count and ends the call iff it may not wait |
| QueueOutcomes.MessagesAreConserved | FreeRTOS/Source/queue.c:768-1312 | over every run the number of messages is what was put into slots less what was taken out, and between zero and the length |
| QueueOutcomes.TheFirstAreWoken | FreeRTOS/Source/queue.c:2167-2284 | each event list loses exactly its first tasks, in order, as many as there is work for: one for a message or slot while the queue is not locked, at the unlocking as many as came in the window |
| QueueOutcomes.LocksCount | FreeRTOS/Source/queue.c:990-1092 | each lock count starts at zero with the locking, counts the interrupts of its side, and ends with the unlocking |
| QueueOutcomes.JoiningAndLeaving | FreeRTOS/Source/queue.c:908-941 | a task that joins a list, or leaves it when its time comes, changes the place of no other, and nobody is woken |
| MutexProtocol.StepKeepsInv | FreeRTOS/Source/queue.c:1414-1622 | every step of taking, timing out and giving keeps the eight parts of the invariant |
| MutexProtocol.RunKeepsInv | FreeRTOS/Source/queue.c:1414-1622 | so does every run |
| MutexProtocol.NoPriorityInversion | FreeRTOS/Source/tasks.c:3950-4212 | in every run no task waits for a mutex whose holder has a lower priority, timeouts and changes of holder included |
| MutexProtocol.RaisedOnlyWhileLent | FreeRTOS/Source/tasks.c:4117-4212 | a raised priority is that of a task still trying to take the mutex, which will account for it |
| MutexProtocol.ReadyPeerRemains | FreeRTOS/Source/tasks.c:4161-4200 | under the same discipline the holder that is lowered always leaves another ready task at its old priority, so the bitmap update is right |
| MutexProtocol.AssertionFailsIff | FreeRTOS/Source/queue.c:1500-1505 | over all runs: the assertion fails at a check if and only if the mutex is held there and the task's step before was to find it free after its wait, with an inheritance on record, had used up its ticks |
| MutexProtocol.FailsOnlyAfterATimeOut | FreeRTOS/Source/queue.c:1500-1505 | a task none of whose waits has used up its ticks never fails the assertion |
| MutexProtocol.TimedOutLenderMeetsAHeldMutex | FreeRTOS/Source/queue.c:1500-1505 | a run in which such a taker meets a held mutex, so the assertion there can fail |
| MutexOutcomes.TakeEndsHeldOrOutOfTime | FreeRTOS/Source/queue.c:1414-1622 | in every run an attempt to take a mutex ends only with the mutex, found free at a check, or without it after its time has run out, with the mutex held at its last look |
| MutexOutcomes.InTimeTakeTriesAgain | FreeRTOS/Source/queue.c:1538-1590 | in every run a task in time found the mutex free or joined those that wait for it, and until its next check it is at that check or waits, with time left |
| MutexOutcomes.CheckDecides | FreeRTOS/Source/queue.c:1443-1537 | at a check the task gets a free mutex; otherwise it goes on to wait iff it has time, and gives up iff not; nobody else moves |
| MutexOutcomes.CallWithoutTimeDoesNotWait | FreeRTOS/Source/queue.c:1495-1512 | in every run a call without time to wait is over after its first check, with the mutex iff it was free |
| MutexOutcomes.HeldMeansOwner | FreeRTOS/Source/tasks.c:4548-4560 | in every run a task counts one mutex as held exactly while it owns one, and has its base priority when it holds none |
| MutexOutcomes.GiveHandsOn | FreeRTOS/Source/queue.c:2085-2092 | a mutex that is given is free, its holder is back at its base priority, the first that waits is at its check, and nobody else moves or changes priority |
| StreamFrames.SpacePlusBytes | FreeRTOS/Source/stream_buffer.c:470-491 | space and bytes add up to the length minus 1 for every head and tail, in wrapping arithmetic |
| StreamFrames.BytesUnique | FreeRTOS/Source/stream_buffer.c:1189-1206 | the wrapped distance is the number of bytes stored |
| StreamFrames.WindowInBlocks | FreeRTOS/Source/stream_buffer.c:1145-1166 | the bytes from the tail on are one block up to the end of the storage and one from its start |
| StreamFrames.TakeOff | FreeRTOS/Source/stream_buffer.c:1166-1176 | moving the tail on, with the wrap, takes exactly those bytes off the front |
| StreamFrames.FramesAppend | FreeRTOS/Source/stream_buffer.c:691-702 | a frame sent goes after the frames already there |
| StreamFrames.FramesHead | FreeRTOS/Source/stream_buffer.c:925-962 | the first bytes of the stored frames are the length of the first message, then the message, then the other frames |
| Bytes.DecodeEncode | FreeRTOS/Source/stream_buffer.c:691 | the length word read back is the length written |
| Words.Modular | FreeRTOS/Source/stream_buffer.c:470-491 | the written-out 32-bit additions and subtractions are those modulo 2^32 |
| StreamBuffer.Buffer.constructor | FreeRTOS/Source/stream_buffer.c:1209-1231 | a new buffer is empty |
| StreamBuffer.Buffer.SpacesAvailable | FreeRTOS/Source/stream_buffer.c:470-491 | the capacity minus the bytes stored |
| StreamBuffer.Buffer.BytesInBuffer | FreeRTOS/Source/stream_buffer.c:1189-1206 | the number of bytes stored |
| StreamBuffer.Buffer.WriteBytes | FreeRTOS/Source/stream_buffer.c:1088-1131 | two block copies and one head update append the bytes, across the wrap |
| StreamBuffer.Buffer.ReadBytes | FreeRTOS/Source/stream_buffer.c:1134-1186 | the smaller of wanted and available bytes is taken off the front, across the wrap |
| StreamBuffer.Buffer.WriteMessage | FreeRTOS/Source/stream_buffer.c:661-710 | a message goes in whole or not at all; a stream takes what fits |
| StreamBuffer.Buffer.Send | FreeRTOS/Source/stream_buffer.c:575-584 | a message buffer appends the message iff its frame fits; otherwise nothing changes |
| StreamBuffer.Buffer.ReadMessage | FreeRTOS/Source/stream_buffer.c:918-967 | the first message comes out whole, or the tail is put back |
| StreamBuffer.Buffer.Receive | FreeRTOS/Source/stream_buffer.c:787-795 | messages come out whole and in order; a receive that is too small or finds nothing changes nothing |
| StreamBuffer.Buffer.NextMessageLength | FreeRTOS/Source/stream_buffer.c:817-860 | the length of the first message, and the tail as it was |
| StreamInterleave.StepKeepsInv | FreeRTOS/Source/stream_buffer.c:1088-1186 | every load, byte copied and store of head or tail keeps ring, writer, reader and framing consistent |
| StreamInterleave.RunKeepsInv | FreeRTOS/Source/stream_buffer.c:1088-1186 | so does every interleaving of the writer and the reader |
| StreamInterleave.NextIsComplete | FreeRTOS/Source/stream_buffer.c:788-795 | more than a length word available means the whole message is there, also between the publication of its length and of its bytes |
| StreamInterleave.NothingIsLostOrTorn | FreeRTOS/Source/stream_buffer.c:575-584 | in every interleaving the bytes received are a prefix of those sent, messages are whole and in order, and a stale sample only underestimates |
| StreamInterleave.RefusalInflatesTheSpace | FreeRTOS/Source/stream_buffer.c:933-949 | while a too-small receive has the tail past the length word the space looks larger by exactly that word |
| StreamInterleave.SamplingIsSafeIff | FreeRTOS/Source/stream_buffer.c:933-949 | a message accepted at that moment fits if and only if its frame fits without the borrowed word or it is too long to be accepted |
| StreamInterleave.SamplingDuringARefusalOverruns | FreeRTOS/Source/stream_buffer.c:933-949 | a run to a refusal in which the sender samples then and accepts more than fits |
| StreamOutcomes.SendPutsInWhatFits | FreeRTOS/Source/stream_buffer.c:504-610 | in every interleaving a finished send has put in exactly the whole frame if there was room for it when the sender looked, else nothing; or as much of a stream as there was room for |
| StreamOutcomes.ReceiveTakesWhatIsThere | FreeRTOS/Source/stream_buffer.c:714-812 | in every interleaving a finished receive from a stream has taken off the front exactly the smaller of what it asked for and what was there when it counted |
| StreamOutcomes.ReceiveHandsOverWhatFits | FreeRTOS/Source/stream_buffer.c:714-812 | in every interleaving a finished receive from a message buffer that held more than a length word has handed over the whole next message if it fits the receiver's buffer, and otherwise has taken nothing |
| StreamOutcomes.SendAccepts | FreeRTOS/Source/stream_buffer.c:661-702 | the sender decides by the true room: it begins the whole frame, as much of a stream as fits, or nothing |
| StreamOutcomes.MessageReceiveBegins | FreeRTOS/Source/stream_buffer.c:781-795 | a receive from a message buffer begins if and only if more than a length word is there, and then for the next message |
| EventBits.PackIsReadable | FreeRTOS/Source/event_groups.c:47-62 | bits and control flags stored in a list-item value can be read back |
| EventBits.ConditionMeans | FreeRTOS/Source/event_groups.c:671-703 | waiting for all: every wanted bit is set; waiting for any: some wanted bit is |
| EventBits.ReleaseIsReadable | FreeRTOS/Source/event_groups.c:588-594 | a released task can tell that it was the bits that released it, and which were set |
| EventBits.FewerBits | FreeRTOS/Source/event_groups.c:671-703 | clearing bits makes no wait condition true |
| EventGroup.KeptAreUnsatisfied | FreeRTOS/Source/event_groups.c:550-601 | exactly the unsatisfied waiters stay, so none is overlooked |
| EventGroup.ReleasedAreSatisfied | FreeRTOS/Source/event_groups.c:550-601 | exactly the satisfied waiters are released, all judged by the same value, none lost or doubled |
| EventGroup.ClearedBits | FreeRTOS/Source/event_groups.c:580-605 | a bit is cleared if and only if some released waiter that clears on exit waited for it |
| EventGroup.WalkJoins | FreeRTOS/Source/event_groups.c:545-601 | walking two lists one after the other keeps, releases and clears what walking each does, in order |
| EventGroup.MatchFound | FreeRTOS/Source/event_groups.c:550-572 | the walk's own test is the wait condition |
| EventGroup.Group.ReleaseSatisfied | FreeRTOS/Source/event_groups.c:545-606 | the walk that unlinks as it goes releases the satisfied waiters in order and keeps the rest in order |
| EventGroup.Group.SetBits | FreeRTOS/Source/event_groups.c:519-610 | satisfied waiters are released, then exactly the union of the bits of those that clear on exit is cleared; nobody satisfied stays blocked |
| EventGroup.Group.ClearBits | FreeRTOS/Source/event_groups.c:461-490 | the old bits are returned, the given ones cleared, and nobody satisfied stays blocked |
| EventGroup.Group.WaitBits | FreeRTOS/Source/event_groups.c:311-370 | returns at once iff the condition is true, else blocks at the end of the list or times out |
| EventGroup.Group.AfterBlocking | FreeRTOS/Source/event_groups.c:372-440 | released by bits: those bits are returned; timed out: the condition is judged again |
| EventGroup.Group.TimeOut | FreeRTOS/Source/event_groups.c:372-397 | a waiter that times out leaves nobody satisfied blocked |
| EventGroup.Group.Sync | FreeRTOS/Source/event_groups.c:191-260 | set, release, then return with the bits cleared iff all are set, else block or time out |
| Barrier.Meet | FreeRTOS/Source/event_groups.c:191-260 | one call on a real event group does what the machine of the rendezvous does |
| Barrier.LastArrives | FreeRTOS/Source/event_groups.c:191-260 | the last to arrive releases everybody and leaves the bits clear |
| Barrier.RunKeepsInv | FreeRTOS/Source/event_groups.c:191-308 | in every state of every run the arrived tasks, and only they, have their bits set, and all have returned from the same round |
| Barrier.NobodyPassesEarly | FreeRTOS/Source/event_groups.c:191-308 | no task returns from its k-th call before all have entered theirs, for any number of tasks and rounds; every round starts with the bits clear |
| TimeOuts.TimeOut.CheckForTimeOut | FreeRTOS/Source/tasks.c:3215-3275 | whatever true times the base and the present are, soon enough after each other: timed out iff the wait has truly elapsed, with nothing left to wait unless 2^32 ticks have passed, else based at the present with the rest to go; an endless wait never times out |
| TimeOuts.CheckIsExact | FreeRTOS/Source/tasks.c:3215-3275 | within one overflow of the base the answer is whether the true elapsed time has reached the wait, and the base moves with the remainder |
| TimeOuts.TimedOutLeaves | FreeRTOS/Source/tasks.c:3240-3262 | on a time-out the base stays and nothing is left to wait; only if 2^32 ticks or more have passed the whole wait is left |
| TimeOuts.EndlessWait | FreeRTOS/Source/tasks.c:3228-3237 | a wait without a limit never times out and is not changed |
| TimeOuts.CheckIsWrongIff | FreeRTOS/Source/tasks.c:3215-3275 | for any call, however late: wrong if and only if 2^32 ticks or more have passed, the ticks beyond the last whole turn are fewer than the wait, and the overflow count does not show the last turn or has itself come round |
| TimeOuts.ALateCheckIsWrong | FreeRTOS/Source/tasks.c:3215-3275 | a wait of 10 ticks that counts as not yet over after 2^32 + 7 ticks |
| TimeOuts.RebasingIsExact | FreeRTOS/Source/tasks.c:3215-3275 | across any sequence of timely calls the first true answer comes at the first call at which the whole wait has elapsed |
| TimeOuts.Period.NextDelay | FreeRTOS/Source/tasks.c:1258-1313 | whatever true times the previous wake time and the present are: the wake time is one period on, and within 2^32 ticks the task delays iff it is still to come, until exactly then |
| TimeOuts.DelayUntilIsExact | FreeRTOS/Source/tasks.c:1258-1313 | within 2^32 ticks the task delays iff its true wake time is to come, and until exactly that time |
| TimeOuts.DelayUntilIsRightIff | FreeRTOS/Source/tasks.c:1258-1313 | for any later call, exactly when the answer is right |
| TimeOuts.ALateCallDelays | FreeRTOS/Source/tasks.c:1258-1313 | a call 2^32 + 3 ticks late that delays although its wake time has passed |
| TimeOuts.NeverDrifts | FreeRTOS/Source/tasks.c:1258-1313 | after k calls, however late, the wake time is k periods on |
| Timers.PlacementIsExact | FreeRTOS/Source/timers.c:668-706 | process now iff the period has truly elapsed, else the current list iff the expiry is in the same epoch as now |
| Timers.ReloadLeavesTheRest | FreeRTOS/Source/timers.c:880-895 | a reload leaves exactly the remaining callbacks of the timer to be made |
| Timers.CallbacksAreTheExpiries | FreeRTOS/Source/timers.c:862-910 | an auto-reload timer with expiry v and period p has exactly floor((2^32 - 1 - v) / p) + 1 expiries before the wrap, at v, v + p and so on |
| Timers.LastCallback | FreeRTOS/Source/timers.c:895-908 | a timer that cannot be reloaded below the wrap has had its last callback, and a start command if it reloads |
| Timers.TurnOk | FreeRTOS/Source/timers.c:862-910 | one turn of the loop makes one callback and keeps the account of all the others |
| Timers.Service.CatchUpHead | FreeRTOS/Source/timers.c:862-910 | one turn: the head's callback, then reload in place, a start command, or nothing |
| Timers.Service.SwitchTimerLists | FreeRTOS/Source/timers.c:857-914 | terminates; calls each timer back exactly at each of its expiries before the wrap, in order of time, sends one start command for each auto-reload timer, empties the old list and swaps |
| Timers.Service.SampleTimeNow | FreeRTOS/Source/timers.c:645-665 | the lists are switched iff the tick count went back, and only then |
| Timers.Service.InsertTimerInActiveList | FreeRTOS/Source/timers.c:668-706 | the timer goes, in order, to the list the placement says, or to none |
| Timers.Service.ProcessExpiredTimer | FreeRTOS/Source/timers.c:482-520 | the head leaves its list, is reloaded or restarted if it reloads, and is called back |
| TimerLife.CatchUpAmongOthers | FreeRTOS/Source/timers.c:857-914 | for one timer among others on the old list the catch-up makes each of its expiries before the wrap once, and one start command from the last of them |
| TimerLife.PlacedRight | FreeRTOS/Source/timers.c:668-706 | a command handled in time puts the timer on the list of the epoch of its expiry, or finds that it has passed |
| TimerLife.StepStands | FreeRTOS/Source/timers.c:645-790 | every step of the timer task, sample, switch with catch-up, expiry and start command, leaves the timer standing for its next expiry, with all earlier ones called in order |
| TimerLife.EveryExpiryIsCalledOnce | FreeRTOS/Source/timers.c:645-914 | an auto-reload timer started at true time s with period p is called for s + p, s + 2p, s + 3p and so on, each once, in order, none early, over any number of wraps; when the timer task is at rest none up to its last sample is missing |
| Crc.RowAt | HAL-Extension/Src/dvStorage.c:300-309 | each of the 16 constants is the sum of the polynomial shifted by the places of the index's ones |
| Crc.LookupFeeds | HAL-Extension/Src/dvStorage.c:322-330 | one table look-up is four steps of the shift register |
| Crc.CrcMpeg2 | HAL-Extension/Src/dvStorage.c:311-342 | the two look-ups a byte compute the bit-serial CRC-32/MPEG-2 of the bytes in the range |
| Crc.ZeroMeansIntact | HAL-Extension/Src/dvStorage.c:289-299 | four bytes after a message bring the register to zero if and only if they are its CRC, most significant byte first |
| Crc.BurstsAreDetected | HAL-Extension/Src/dvStorage.c:289-299 | two messages of one length that differ only within 32 consecutive bits have different CRCs |
| Crc.AllBitsInjective | HAL-Extension/Src/dvStorage.c:289-299 | different messages have different bits |
| LineCleaner.FindNull | Application/Src/CommandInterface.cpp:451-453 | the first null, or the end of the range |
| LineCleaner.RemoveInvalid | Application/Src/CommandInterface.cpp:457 | the valid characters, in order, in place |
| LineCleaner.UniqueSpaces | Application/Src/CommandInterface.cpp:460-461 | runs of spaces shrink to one, in place |
| LineCleaner.MoveLeft | Application/Src/CommandInterface.cpp:464-466 | everything after the first character moves one place left |
| LineCleaner.TrimEnd | Application/Src/CommandInterface.cpp:469-475 | a space before the terminator is overwritten by it |
| LineCleaner.SqueezedIsWords | Application/Src/CommandInterface.cpp:456-466 | after the first three passes the line is its words joined by single spaces, with at most one more space at its end |
| LineCleaner.KeptJoins | Application/Src/CommandInterface.cpp:430-434 | each character is kept or dropped by itself: the printable ones of ASCII and the null stay, in order |
| LineCleaner.WordsAroundASpace | Application/Src/CommandInterface.cpp:436-442 | a space ends a word and starts none, and a string without a space is one word |
| LineCleaner.PassesClean | Application/Src/CommandInterface.cpp:456-475 | the four passes together leave the joined words and the null |
| LineCleaner.CleanLineBuffer | Application/Src/CommandInterface.cpp:443-478 | an unterminated range is left alone and gives its start; otherwise the words joined by single spaces and the null take its place, the result is just past the null, and nothing outside changes |
| LineCleaner.WordsOfJoined | Application/Src/CommandInterface.cpp:436-442 | splitting the joined words gives the words back |
| LineCleaner.CleanIsIdempotent | Application/Src/CommandInterface.cpp:436-442 | what is left is printable and ends at the same null, and cleaning it again changes nothing |

## Left out

- Scheduler.Kernel.constructor: starts after `vTaskStartScheduler` with the idle task only; tasks created before the start are created afterwards here.
- Scheduler.Kernel.IncrementTick: the number of pended ticks is unbounded; its wrap after 2^32 ticks in one suspension is not modelled. Lists are values of module Rings; the heap nodes behind one list are the subject of KernelList, and that an item is on one list at most is the agreement of lists and container pointers.
- Scheduler.Kernel.CreateTask: names, stacks, task numbers and the choice of the first running task are not modelled; allocation is an oracle, so a creation that fails is a step that does not happen.
- QueueProtocol.NoLostWakeup: at most 127 interrupt posts in one locked window, no reset, and no woken waiter is deleted or suspended before it is back at its check; outside the first two the exact conditions are LockCountIsExact and ResetIsExact.
- QueueProtocol.RunKeepsInv: the event lists are ordered by insertion at any position, so the order in which priorities put waiters does not matter to the result.
- MutexProtocol.NoPriorityInversion: each task holds at most one mutex, takes one only while holding none, never with the scheduler suspended, and its priority is not set explicitly; the stretch in which the taker has suspended the scheduler is one step, because no interrupt touches a mutex; and by preemption a task takes a mutex only if no higher task just woken for it is ready to run.
- StreamInterleave.NothingIsLostOrTorn: the sender does not sample the space while a too-small receive is being refused; SamplingIsSafeIff says what happens if it does.
- StreamFrames.SpacePlusBytes: buffers of at most half the address space, so that `xLength + xHead` does not overflow size_t.
- StreamBuffer.Buffer.Send: zero-length writes are excluded by the assertion at stream_buffer.c:1092; the blocking loop, trigger levels and the notifications that wake the other side are left out.
- QueueRing.Queue.Send: items of at least one byte; for queues without storage the count alone matters, and mutexes are modelled in MutexProtocol.
- EventGroup.Group.SetBits: the value returned after the scheduler has resumed is that of the moment of returning and is not modelled; task numbers stand for list items.
- EventGroup.Group.Sync: the part after blocking is that of AfterBlocking with clear-on-exit and all bits.
- Timers.Service.SwitchTimerLists: callbacks do not touch the lists and the command queue has room; the active flag of a timer, commands other than start, and blocking for the next expiry are left out.
- TimerLife.EveryExpiryIsCalledOnce: one timer that is started once and runs alone in its commands, and a timer task that is not late: it samples at least once in 2^32 ticks while the timer is on a list and handles each start command less than 2^32 ticks after its time.
- TaskTurns.EverybodyGetsATurn: the priorities of the two tasks are not set meanwhile; setting a base priority that an inherited one covers moves a ready task to the end of its list, where it would lose its turn.
- StreamOutcomes.SendPutsInWhatFits: the same proviso as StreamInterleave.NothingIsLostOrTorn.
- EventOrder.FirstIsHighest: event lists used both by queues and by event groups, by tasks that wait with an event value still in use, and a base priority set below an inherited one, are excluded from the runs it covers.
- MutexBitmap.TimeOutKeepsTheBitmap: the two machines are related by agreement on priorities, held mutexes and readiness, which the operations on priorities keep (DisinheritAgrees and its neighbours), but are not run in lockstep; a task inside a call is not suspended or deleted by another.
- Crc.CrcMpeg2: the mask with 0xFF and the casts of uint_fast8_t are the identity on bytes, and are not written.
- LineCleaner.CleanLineBuffer: `std::find`, `remove_if`, `unique` and `move` are written out as the loops the standard specifies; what they leave behind the new end is not said.
- The heap, the port layer, stacks, newlib, MPU, tracing and statistics: hardware or debugging.
- Task notifications, queue sets, co-routines, recursive and counting semaphores, abort-delay, tickless idle: switched off, or easy beside the rest.
- `xStreamBufferNextMessageLengthBytes` between the two publications of a message: its assertion assumes that a length word is never visible alone.
- Drivers, USB, sensors, network, credentials, logging, command dispatch and response formatting: input and output, or wrappers over libraries.
