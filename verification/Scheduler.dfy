/** The scheduler of tasks.c as it is: list items with container pointers, two delayed
  * lists swapped when the 32-bit tick count wraps, a cached next-unblock time, a bitmap of
  * the ready priorities, and counters.  Every operation is proved to do what the machine of
  * module TaskMachine does, which has none of these, and to keep the caches right. */
module Scheduler {
  import Rings
  import opened ReadyBitmap
  import opened TaskLists
  import opened Words
  import opened M = TaskMachine
  import TaskCards
  import TaskRuns

  class Kernel {
    var state: Filing<ListId>
    var delayed: ListId
    var overflow: ListId
    var event: Filing<EventId>
    var tcb: Tcbs
    var current: Task
    var tick: int
    var overflows: int
    var suspended: nat
    var pended: nat
    var yieldPending: bool
    var topReady: Bitmap
    var nextUnblock: int
    var deletedWaiting: int
    var taskCount: int
    ghost var start: int

    /** The state without the caches. */
    ghost function Abs(): Core
      reads this
    {
      Core(start, tick, overflows, state, delayed, overflow, event, tcb, suspended, pended, yieldPending, current)
    }

    /** Bit p is set iff ready list p is not empty. */
    ghost predicate BitmapExact()
      reads this
    {
      forall p :: p in topReady <==> 0 <= p < M.MAX_PRIORITIES && state.at(Ready(p)).items != []
    }

    /** No sleeper of this epoch wakes before the cached time. */
    ghost predicate UnblockTimeOk()
      reads this
    {
      && 0 <= nextUnblock < WRAP
      && (state.at(delayed).items != [] ==> nextUnblock <= tcb.value(state.at(delayed).items[0]))
    }

    /** uxDeletedTasksWaitingCleanUp and uxCurrentNumberOfTasks */
    ghost function Counts(): (int, int)
      reads this
    {
      (deletedWaiting, taskCount)
    }

    ghost predicate Caches()
      reads this
    {
      BitmapExact() && UnblockTimeOk()
    }

    ghost predicate Valid()
      reads this
    {
      Inv(Abs()) && Caches()
    }

    /** `vTaskStartScheduler` with only the idle task. */
    constructor (idle: Task)
      ensures Valid() && Abs() == TaskRuns.Start(idle)
    {
      state := TaskRuns.Start(idle).state;
      event := TaskRuns.Start(idle).event;
      tcb := TaskRuns.Start(idle).tcb;
      delayed, overflow, current := Delayed1, Delayed2, idle;
      start, tick, overflows, suspended, pended, yieldPending := 0, 0, 0, 0, 0, false;
      topReady, nextUnblock := {0}, MAX_DELAY;
      deletedWaiting, taskCount := 0, 1;
      new;
      TaskRuns.StartOk(idle);
    }

    // -------------------------------------------------------------------------
    // List operations on the two items of a task.
    // -------------------------------------------------------------------------

    /** `uxListRemove` on the state item: the number of items left on its list. */
    method RemoveState(t: Task) returns (left: nat)
      requires Filed(state) && state.home(t).In?
      modifies `state
      ensures state == Take(old(state), t)
      ensures left == |state.at(old(state.home(t).list)).items|
    {
      var l := state.home(t).list;
      assert t in state.at(l).items;
      state := Filing(Set(state.at, l, Rings.Remove(state.at(l), t)), Set(state.home, t, Nowhere));
      left := |state.at(l).items|;
    }

    method RemoveEvent(t: Task)
      requires Filed(event) && event.home(t).In?
      modifies `event
      ensures event == Take(old(event), t)
    {
      var l := event.home(t).list;
      assert t in event.at(l).items;
      event := Filing(Set(event.at, l, Rings.Remove(event.at(l), t)), Set(event.home, t, Nowhere));
    }

    /** `vListInsertEnd` on the state item */
    method InsertStateEnd(l: ListId, t: Task)
      requires Filed(state)
      modifies `state
      ensures state == PutEnd(old(state), l, t)
    {
      assert Rings.Ok(state.at(l));
      state := Filing(Set(state.at, l, Rings.InsertEnd(state.at(l), t)), Set(state.home, t, In(l)));
    }

    method InsertEventEnd(l: EventId, t: Task)
      requires Filed(event)
      modifies `event
      ensures event == PutEnd(old(event), l, t)
    {
      assert Rings.Ok(event.at(l));
      event := Filing(Set(event.at, l, Rings.InsertEnd(event.at(l), t)), Set(event.home, t, In(l)));
    }

    /** prvAddTaskToReadyList */
    method AddToReadyList(t: Task)
      requires Filed(state) && state.home(t) == Nowhere && 0 <= tcb.prio(t) < M.MAX_PRIORITIES
      modifies `state, `topReady
      ensures state == PutEnd(old(state), Ready(tcb.prio(t)), t)
      ensures old(BitmapExact()) ==> BitmapExact()
    {
      topReady := Record(topReady, tcb.prio(t));
      PutEndOk(state, Ready(tcb.prio(t)), t);
      InsertStateEnd(Ready(tcb.prio(t)), t);
      assert t in state.at(Ready(tcb.prio(t))).items;
    }

    /** uxListRemove followed by taskRESET_READY_PRIORITY when the list is now empty. */
    method RemoveFromItsList(t: Task)
      requires Filed(state) && state.home(t).In? && 0 <= tcb.prio(t) < M.MAX_PRIORITIES
      requires state.home(t).list.Ready? ==> state.home(t).list == Ready(tcb.prio(t))
      modifies `state, `topReady
      ensures state == Take(old(state), t)
      ensures old(BitmapExact()) ==> BitmapExact()
    {
      ghost var l := state.home(t).list;
      var left := RemoveState(t);
      TakeOk(old(state), t);
      if left == 0 {
        if |state.at(Ready(tcb.prio(t))).items| == 0 {
          topReady := Reset(topReady, tcb.prio(t));
        }
      }
    }

    /** A task leaves ready list p; the port's reset is called directly. */
    method RemoveFromReadyList(t: Task, p: int)
      requires Filed(state) && state.home(t) == In(Ready(p)) && 0 <= p < M.MAX_PRIORITIES && BitmapExact()
      modifies `state, `topReady
      ensures state == Take(old(state), t) && BitmapExact()
    {
      TakeOk(state, t);
      var left := RemoveState(t);
      if left == 0 {
        topReady := Reset(topReady, p);
      }
    }

    /** From a list that is not a ready list to the ready list of the task's priority. */
    method Unblock(t: Task)
      requires Filed(state) && Filed(event) && BitmapExact()
      requires state.home(t).In? && !state.home(t).list.Ready? && 0 <= tcb.prio(t) < M.MAX_PRIORITIES
      modifies `state, `event, `topReady
      ensures state == PutEnd(Take(old(state), t), Ready(tcb.prio(t)), t)
      ensures event == Take(old(event), t)
      ensures BitmapExact()
    {
      TakeOk(state, t);
      var left := RemoveState(t);
      assert BitmapExact();
      if event.home(t).In? {
        RemoveEvent(t);
      }
      AddToReadyList(t);
    }

    /** prvResetNextTaskUnblockTime */
    method ResetNextTaskUnblockTime()
      requires forall t :: t in state.at(delayed).items ==> 0 <= tcb.value(t) < WRAP
      modifies `nextUnblock
      ensures UnblockTimeOk()
    {
      if |state.at(delayed).items| == 0 {
        nextUnblock := MAX_DELAY;
      } else {
        var head := state.at(delayed).items[0];
        assert head in state.at(delayed).items;
        nextUnblock := tcb.value(head);
      }
    }

    /** Advances the tick count; taskSWITCH_DELAYED_LISTS when it wraps. */
    method AdvanceTick()
      requires Good(Abs(), 1) && UnblockTimeOk()
      modifies `tick, `start, `overflows, `delayed, `overflow, `nextUnblock
      ensures Abs() == Advance(old(Abs())) && UnblockTimeOk()
    {
      AdvanceOk(Abs());
      ghost var a := Advance(Abs());
      tick := Plus(tick, 1);
      if tick == 0 {
        start := start + WRAP;
        overflows := (overflows + 1) % WRAP;
        delayed, overflow := overflow, delayed;
        assert Abs() == a;
        ResetNextTaskUnblockTime();
      }
    }

    /** i tasks off the front of the delayed list of c have been woken, and nothing else has changed. */
    ghost predicate Woken(c: Core, i: nat)
      reads this
    {
      var items := c.state.at(c.delayed).items;
      && i <= |items| && state == ReadyAll(c.state, c.tcb.prio, items[..i]) && event == TakeAll(c.event, items[..i])
      && tcb == c.tcb && delayed == c.delayed && tick == c.tick && current == c.current && BitmapExact()
    }

    /** The task at the head of the delayed list is due. */
    method UnblockOneDue(ghost c: Core, ghost i: nat, t: Task)
      requires Good(c, 0) && M.Waiting(c) && Woken(c, i)
      requires i < |c.state.at(c.delayed).items| && t == c.state.at(c.delayed).items[i]
      modifies `state, `event, `topReady
      ensures Woken(c, i + 1)
    {
      WakeOneMore(c, i);
      Unblock(t);
    }

    /** One turn of the loop of `xTaskIncrementTick`: wake the task at the head of the delayed list, or
      * remember its time if it is not due. */
    method UnblockNext(ghost c: Core, ghost i: nat) returns (woken: bool, preempts: bool)
      requires Good(c, 0) && M.Waiting(c) && Woken(c, i) && i <= |Due(c)|
      modifies `state, `event, `topReady, `nextUnblock
      ensures woken ==> i < |Due(c)| && Woken(c, i + 1)
      ensures !woken ==> Woken(c, i) && c.state.at(c.delayed).items[..i] == Due(c) && UnblockTimeOk()
      ensures preempts <==> woken && tcb.prio(c.state.at(c.delayed).items[i]) >= tcb.prio(current)
    {
      DueSoFar(c, i);
      RestIsLeft(c, i);
      woken, preempts := false, false;
      if |state.at(delayed).items| == 0 {
        nextUnblock := MAX_DELAY;
      } else {
        var t := state.at(delayed).items[0];
        if tick < tcb.value(t) {
          nextUnblock := tcb.value(t);
        } else {
          UnblockOneDue(c, i, t);
          woken, preempts := true, tcb.prio(t) >= tcb.prio(current);
        }
      }
    }

    /** The loop of `xTaskIncrementTick`: wake tasks off the front of the delayed list until
      * the first that is not due. */
    method UnblockWhileDue(ghost c: Core) returns (switchRequired: bool)
      requires Good(c, 0) && M.Waiting(c) && BitmapExact() && c == Abs()
      modifies `state, `event, `topReady, `nextUnblock
      ensures state == ReadyAll(c.state, c.tcb.prio, Due(c)) && event == TakeAll(c.event, Due(c))
      ensures BitmapExact() && UnblockTimeOk()
      ensures switchRequired <==> Preempting(c, Due(c))
    {
      ghost var items, i := state.at(delayed).items, 0;
      switchRequired := false;
      while true
        invariant Woken(c, i) && i <= |Due(c)| && (switchRequired <==> Preempting(c, items[..i]))
        decreases |Due(c)| - i
      {
        var woken, preempts := UnblockNext(c, i);
        if !woken {
          break;
        }
        PreemptingGrows(c, items, i);
        switchRequired := switchRequired || preempts;
        i := i + 1;
      }
    }

    method UnblockDueTasks() returns (switchRequired: bool)
      requires Good(Abs(), 0) && M.Waiting(Abs()) && BitmapExact()
      modifies `state, `event, `topReady, `nextUnblock
      ensures Abs() == WakeAll(old(Abs()), Due(old(Abs()))) && BitmapExact() && UnblockTimeOk()
      ensures switchRequired <==> Preempting(old(Abs()), Due(old(Abs())))
    {
      switchRequired := UnblockWhileDue(Abs());
    }

    /** The part of `xTaskIncrementTick` that runs when the scheduler is not suspended. */
    method TickAndUnblock() returns (switchRequired: bool)
      requires Good(Abs(), 1) && M.Waiting(Abs()) && Caches()
      modifies this
      ensures Caches() && Abs() == TickNow(old(Abs())) && Counts() == old(Counts())
      ensures switchRequired <==> Preempting(old(Abs()), Due(Advance(old(Abs()))))
    {
      switchRequired := false;
      AdvanceOk(Abs());
      AdvanceTick();
      ghost var a := Abs();
      if tick >= nextUnblock {
        switchRequired := UnblockDueTasks();
      } else {
        NothingDue(a, nextUnblock);
      }
    }

    /** `xTaskIncrementTick` */
    method IncrementTick() returns (switchRequired: bool)
      requires Good(Abs(), 1) && M.Waiting(Abs()) && Caches()
      modifies this
      ensures Caches() && Abs() == Apply(old(Abs()), Tick) && Counts() == old(Counts())
      ensures switchRequired <==>
              old(yieldPending) || (old(suspended) == 0 && Preempting(old(Abs()), Due(Advance(old(Abs())))))
      ensures switchRequired <==>
              old(yieldPending) ||
              (old(suspended) == 0 &&
               exists t :: tcb.prio(t) >= tcb.prio(current) && WakeOf(old(Abs()), t) == At(Now(old(Abs())) + 1))
    {
      switchRequired := false;
      if suspended == 0 {
        TaskCards.DuePreemptsIff(Abs());
        switchRequired := TickAndUnblock();
      } else {
        pended := pended + 1;
      }
      if yieldPending {
        switchRequired := true;
      }
    }

    /** `vTaskSuspendAll` */
    method SuspendAll()
      requires Valid()
      modifies `suspended
      ensures Caches() && Abs() == Apply(old(Abs()), M.SuspendAll)
    {
      suspended := suspended + 1;
    }

    /** i tasks off the front of the pending-ready list have been moved. */
    ghost predicate Flushed(c: Core, i: nat)
      reads this
    {
      var items := c.event.at(PendingReady).items;
      && i <= |items| && event.at(PendingReady).items == items[i..]
      && state == ReadyAll(c.state, c.tcb.prio, items[..i]) && event == TakeAll(c.event, items[..i])
      && (yieldPending <==> c.yieldPending || Preempting(c, items[..i]))
    }

    method MoveOnePending(ghost c: Core, ghost i: nat)
      requires Good(c, 1) && M.Waiting(c) && BitmapExact() && tcb.prio == c.tcb.prio && current == c.current
      requires Flushed(c, i) && |event.at(PendingReady).items| > 0
      modifies `state, `event, `topReady, `yieldPending
      ensures Flushed(c, i + 1) && BitmapExact()
    {
      var t := event.at(PendingReady).items[0];
      FlushOneMore(c, i);
      Unblock(t);
      if tcb.prio(t) >= tcb.prio(current) {
        yieldPending := true;
      }
    }

    /** The pending-ready loop of `xTaskResumeAll`. */
    method DrainPendingReady() returns (moved: bool)
      requires Good(Abs(), 1) && M.Waiting(Abs()) && BitmapExact()
      modifies `state, `event, `topReady, `yieldPending
      ensures Abs() == Flush(old(Abs())) && BitmapExact()
      ensures !moved ==> Abs() == old(Abs())
    {
      ghost var c, i := Abs(), 0;
      moved := false;
      while |event.at(PendingReady).items| != 0
        invariant Flushed(c, i) && BitmapExact() && (!moved ==> i == 0)
        decreases |event.at(PendingReady).items|
      {
        MoveOnePending(c, i);
        i, moved := i + 1, true;
      }
      assert c.event.at(PendingReady).items[..i] == c.event.at(PendingReady).items;
    }

    method MovePendingReady()
      requires Good(Abs(), 1) && M.Waiting(Abs()) && Caches()
      modifies `state, `event, `topReady, `nextUnblock, `yieldPending
      ensures Abs() == Flush(old(Abs())) && Caches()
    {
      FlushOk(Abs());
      var moved := DrainPendingReady();
      if moved {
        ResetNextTaskUnblockTime();
      }
    }

    /** The first n of the ticks pended in c have been caught up. */
    ghost predicate CaughtUp(c: Core, n: nat)
      reads this
    {
      Abs() == TicksNow(c, n) && Caches() && suspended == 0
    }

    /** The tick after the first n that were pended. */
    method CatchUpOneTick(ghost c: Core, ghost n: nat)
      requires Good(c, 1) && M.Waiting(c) && c.event.at(PendingReady).items == [] && CaughtUp(c, n)
      modifies this
      ensures CaughtUp(c, n + 1) && Counts() == old(Counts())
    {
      TicksOk(c, n);
      var switchRequired := IncrementTick();
      yieldPending := yieldPending || switchRequired;
    }

    method CatchUpPendedTicks()
      requires Good(Abs(), 1) && M.Waiting(Abs()) && Caches() && suspended == 0 && event.at(PendingReady).items == []
      modifies this
      ensures Abs() == TicksNow(old(Abs()), old(pended)) && Caches() && suspended == 0 && Counts() == old(Counts())
      ensures yieldPending <==>
              old(yieldPending) || TaskCards.SomebodyOutranksBy(old(Abs()), Now(old(Abs())) + old(pended))
    {
      TaskCards.TicksYield(Abs(), pended);
      CatchUpTicks();
    }

    method CatchUpTicks()
      requires Good(Abs(), 1) && M.Waiting(Abs()) && Caches() && suspended == 0 && event.at(PendingReady).items == []
      modifies this
      ensures Abs() == TicksNow(old(Abs()), old(pended)) && Caches() && suspended == 0 && Counts() == old(Counts())
    {
      ghost var c, n: nat := Abs(), 0;
      var pendedCounts := pended;
      while pendedCounts > 0
        invariant n + pendedCounts == c.pended && CaughtUp(c, n) && Counts() == old(Counts())
      {
        CatchUpOneTick(c, n);
        pendedCounts, n := pendedCounts - 1, n + 1;
      }
    }

    /** `xTaskResumeAll` */
    method ResumeAll() returns (alreadyYielded: bool)
      requires Valid() && suspended > 0
      modifies this
      ensures Caches() && Abs() == Apply(old(Abs()), M.ResumeAll) && Counts() == old(Counts())
      ensures alreadyYielded <==> suspended == 0 && yieldPending
      ensures var c := old(Abs());
              alreadyYielded <==>
                c.suspended == 1 && (c.yieldPending || exists t :: TaskCards.OutranksAndReadied(c, t))
    {
      ghost var c := Abs();
      if c.suspended == 1 { TaskCards.ResumeYields(c); }
      suspended := suspended - 1;
      alreadyYielded := false;
      if suspended == 0 {
        FinishResume();
        alreadyYielded := yieldPending;
      }
    }

    /** The last of the nested resumes. */
    method FinishResume()
      requires Good(Abs(), 1) && M.Waiting(Abs()) && Caches() && suspended == 0
      modifies this
      ensures Caches() && Abs() == ResumeNow(old(Abs())) && Counts() == old(Counts()) && suspended == 0
    {
      FlushOk(Abs());
      MovePendingReady();
      CatchUpPendedTicks();
      pended := 0;
    }

    /** taskSELECT_HIGHEST_PRIORITY_TASK */
    method SelectHighestPriorityTask() returns (l: ListId)
      requires Valid() && HighestReady(Abs(), M.MAX_PRIORITIES - 1) >= 0
      modifies `state, `current
      ensures l == Ready(HighestReady(old(Abs()), M.MAX_PRIORITIES - 1))
      ensures state == old(state).(at := Set(old(state.at), l, Rings.Advance(old(state.at(l)))))
      ensures current == Rings.Selected(state.at(l))
    {
      HighestBit(topReady, Abs());
      l := Ready(Highest(topReady));
      state := state.(at := Set(state.at, l, Rings.Advance(state.at(l))));
      current := Rings.Selected(state.at(l));
    }

    /** `vTaskSwitchContext`: the next task of the highest ready list, found in the bitmap. */
    method SwitchContext()
      requires Valid() && Enabled(Abs(), M.SwitchContext)
      modifies `yieldPending, `state, `current
      ensures Caches() && Abs() == Apply(old(Abs()), M.SwitchContext)
    {
      if suspended != 0 {
        yieldPending := true;
      } else {
        var l := SelectHighestPriorityTask();
        yieldPending := false;
      }
    }

    // -------------------------------------------------------------------------
    // Blocking.
    // -------------------------------------------------------------------------

    /** `vListInsert` on the state item */
    method InsertStateSorted(l: ListId, t: Task)
      modifies `state
      ensures state == PutSorted(old(state), l, t, tcb.value)
    {
      var k := Rings.SortedSlot(Values(state.at(l).items, tcb.value), tcb.value(t));
      state := Filing(Set(state.at, l, Rings.InsertAt(state.at(l), k, t)), Set(state.home, t, In(l)));
    }

    /** `vListInsert` on the event item */
    method InsertEventSorted(l: EventId, t: Task)
      modifies `event
      ensures event == PutSorted(old(event), l, t, tcb.eventValue)
    {
      var k := Rings.SortedSlot(Values(event.at(l).items, tcb.eventValue), tcb.eventValue(t));
      event := Filing(Set(event.at, l, Rings.InsertAt(event.at(l), k, t)), Set(event.home, t, In(l)));
    }

    /** The running task gets a wake time and goes to one of the two delayed lists. */
    method FileCurrent(wake: int, l: ListId)
      requires Filed(state) && state.home(current) == Nowhere && !l.Ready? && BitmapExact()
      modifies `state, `tcb
      ensures tcb == old(tcb).(value := Set(old(tcb.value), current, wake)) && BitmapExact()
      ensures state == PutSorted(old(state), l, current, tcb.value)
    {
      tcb := tcb.(value := Set(tcb.value, current, wake));
      InsertStateSorted(l, current);
    }

    /** The timed half of `prvAddCurrentTaskToDelayedList`. */
    method FileCurrentByTime(wake: int)
      requires Filed(state) && state.home(current) == Nowhere && 0 <= wake < WRAP && Caches()
      requires !delayed.Ready? && !overflow.Ready? && delayed != overflow
      modifies `state, `tcb, `nextUnblock
      ensures Abs() == FileByTime(old(Abs()), current, wake) && Caches()
    {
      if wake < tick {
        HeadStays(state, delayed, overflow, current, tcb.value, wake);
        FileCurrent(wake, overflow);
      } else {
        HeadAfterInsert(state, delayed, current, tcb.value, wake);
        FileCurrent(wake, delayed);
        if wake < nextUnblock {
          nextUnblock := wake;
        }
      }
    }

    /** `prvAddCurrentTaskToDelayedList` */
    method AddCurrentTaskToDelayedList(ticksToWait: int, canBlockIndefinitely: bool)
      requires Filed(state) && IsReady(Abs(), current) && 0 <= tcb.prio(current) < M.MAX_PRIORITIES && 0 <= tick < WRAP && Caches()
      requires 0 < ticksToWait <= MAX_DELAY && !delayed.Ready? && !overflow.Ready? && delayed != overflow && delayed != SuspendedTasks
      modifies `state, `topReady, `tcb, `nextUnblock
      ensures Abs() == Sleep(old(Abs()), ticksToWait, canBlockIndefinitely) && Caches()
    {
      ghost var c := Abs();
      LeaveReadyList();
      assert Abs() == c.(state := Take(c.state, c.current));
      if ticksToWait == MAX_DELAY && canBlockIndefinitely {
        InsertStateEnd(SuspendedTasks, current);
      } else {
        FileCurrentByTime(Plus(tick, ticksToWait));
      }
    }

    /** The running task leaves its ready list. */
    method LeaveReadyList()
      requires Filed(state) && IsReady(Abs(), current) && 0 <= tcb.prio(current) < M.MAX_PRIORITIES && Caches() && !delayed.Ready?
      modifies `state, `topReady
      ensures Abs() == old(Abs()).(state := Take(old(state), current)) && Caches() && Filed(state) && state.home(current) == Nowhere
    {
      TakeOk(state, current);
      RemoveFromReadyList(current, tcb.prio(current));
    }

    method Delay(ticksToDelay: int)
      requires Valid() && Enabled(Abs(), M.Delay(ticksToDelay))
      modifies `state, `topReady, `tcb, `nextUnblock
      ensures Caches() && Abs() == Apply(old(Abs()), M.Delay(ticksToDelay))
    {
      AddCurrentTaskToDelayedList(ticksToDelay, false);
    }

    /** `vTaskPlaceOnEventList` */
    method PlaceOnEventList(e: nat, ticksToWait: int)
      requires Valid() && Enabled(Abs(), WaitOn(e, ticksToWait))
      modifies `state, `event, `topReady, `tcb, `nextUnblock
      ensures Caches() && Abs() == Apply(old(Abs()), WaitOn(e, ticksToWait))
    {
      PutSortedOk(event, EventList(e), current, tcb.eventValue);
      InsertEventSorted(EventList(e), current);
      AddCurrentTaskToDelayedList(ticksToWait, true);
    }

    /** `vTaskPlaceOnUnorderedEventList` */
    method PlaceOnUnorderedEventList(e: nat, itemValue: int, ticksToWait: int)
      requires Valid() && Enabled(Abs(), WaitUnordered(e, itemValue, ticksToWait))
      modifies `state, `event, `tcb, `topReady, `tcb, `nextUnblock
      ensures Caches() && Abs() == Apply(old(Abs()), WaitUnordered(e, itemValue, ticksToWait))
    {
      PutEndOk(event, EventList(e), current);
      tcb := tcb.(eventValue := Set(tcb.eventValue, current, InUse(itemValue)));
      InsertEventEnd(EventList(e), current);
      AddCurrentTaskToDelayedList(ticksToWait, true);
    }

    // -------------------------------------------------------------------------
    // Waking by an event.
    // -------------------------------------------------------------------------

    /** The state item moves to the ready list; the event item is dealt with elsewhere. */
    method MoveToReady(t: Task)
      requires Filed(state) && Caches() && Blocked(state.home(t)) && 0 <= tcb.prio(t) < M.MAX_PRIORITIES
      requires !delayed.Ready? && SortedBy(state.at(delayed).items, tcb.value)
      modifies `state, `topReady
      ensures state == PutEnd(Take(old(state), t), Ready(tcb.prio(t)), t) && Caches()
    {
      HeadsOnlyGrow(state, t, Ready(tcb.prio(t)), delayed, tcb.value);
      TakeOk(state, t);
      var left := RemoveState(t);
      assert BitmapExact();
      AddToReadyList(t);
    }

    /** Off the event list and into the ready list. */
    method WakeByEvent(t: Task)
      requires Filed(event) && event.home(t).In?
      requires Filed(state) && Caches() && Blocked(state.home(t)) && 0 <= tcb.prio(t) < M.MAX_PRIORITIES
      requires !delayed.Ready? && SortedBy(state.at(delayed).items, tcb.value)
      modifies `state, `event, `topReady
      ensures state == ToReady(old(state), tcb.prio, t) && event == Take(old(event), t) && Caches()
    {
      RemoveEvent(t);
      MoveToReady(t);
    }

    /** Ready at once, or held back while the scheduler is suspended. */
    method WakeOrHold(t: Task)
      requires Filed(event) && event.home(t).In?
      requires Filed(state) && Caches() && Blocked(state.home(t)) && 0 <= tcb.prio(t) < M.MAX_PRIORITIES
      requires !delayed.Ready? && SortedBy(state.at(delayed).items, tcb.value)
      modifies `state, `event, `topReady
      ensures Caches()
      ensures suspended == 0 ==> state == ToReady(old(state), tcb.prio, t) && event == Take(old(event), t)
      ensures suspended > 0 ==> state == old(state) && event == PutEnd(Take(old(event), t), PendingReady, t)
    {
      if suspended == 0 {
        WakeByEvent(t);
      } else {
        TakeOk(event, t);
        RemoveEvent(t);
        InsertEventEnd(PendingReady, t);
      }
    }

    /** Woken or held back, and the switch that may be due remembered. */
    method WakeAndYield(t: Task) returns (higherPriorityWoken: bool)
      requires Filed(event) && event.home(t).In?
      requires Filed(state) && Caches() && Blocked(state.home(t)) && 0 <= tcb.prio(t) < M.MAX_PRIORITIES
      requires !delayed.Ready? && SortedBy(state.at(delayed).items, tcb.value)
      modifies `state, `event, `topReady, `yieldPending
      ensures Caches() && (higherPriorityWoken <==> tcb.prio(t) > tcb.prio(current))
      ensures var c := old(Abs());
              Abs() == (if suspended == 0 then WakeTask(c, t) else c.(event := PutEnd(Take(c.event, t), PendingReady, t)))
                       .(yieldPending := Yields(c, t))
    {
      WakeOrHold(t);
      higherPriorityWoken := tcb.prio(t) > tcb.prio(current);
      if higherPriorityWoken {
        yieldPending := true;
      }
    }

    /** `xTaskRemoveFromEventList` */
    method RemoveFromEventList(e: nat) returns (higherPriorityWoken: bool)
      requires Valid() && Enabled(Abs(), WakeFirst(e))
      modifies `state, `event, `topReady, `yieldPending
      ensures Caches() && Abs() == Apply(old(Abs()), WakeFirst(e))
      ensures higherPriorityWoken <==> tcb.prio(old(event.at(EventList(e)).items[0])) > tcb.prio(current)
    {
      var t := event.at(EventList(e)).items[0];
      TakeHead(event, EventList(e));
      higherPriorityWoken := WakeAndYield(t);
    }

    /** The same, leaving a value in the event item. */
    method WakeWithValue(t: Task, v: int)
      requires Filed(event) && event.home(t).In?
      requires Filed(state) && Caches() && Blocked(state.home(t)) && 0 <= tcb.prio(t) < M.MAX_PRIORITIES
      requires !delayed.Ready? && SortedBy(state.at(delayed).items, tcb.value)
      modifies `state, `event, `tcb, `topReady, `yieldPending
      ensures Caches()
      ensures Abs() == WakeTask(old(Abs()), t).(tcb := tcb, yieldPending := yieldPending)
      ensures tcb == old(tcb).(eventValue := Set(old(tcb.eventValue), t, v)) && yieldPending == Yields(old(Abs()), t)
    {
      WakeByEvent(t);
      tcb := tcb.(eventValue := Set(tcb.eventValue, t, v));
      if tcb.prio(t) > tcb.prio(current) {
        yieldPending := true;
      }
    }

    /** `vTaskRemoveFromUnorderedEventList` */
    method RemoveFromUnorderedEventList(t: Task, itemValue: int)
      requires Valid() && Enabled(Abs(), WakeOne(t, itemValue))
      modifies `state, `event, `tcb, `topReady, `yieldPending
      ensures Caches() && Abs() == Apply(old(Abs()), WakeOne(t, itemValue))
    {
      WakeWithValue(t, InUse(itemValue));
    }

    // -------------------------------------------------------------------------
    // Suspending and resuming, creating and deleting.
    // -------------------------------------------------------------------------

    method DropEventItem(t: Task)
      requires Filed(event)
      modifies `event
      ensures event == Take(old(event), t)
    {
      if event.home(t).In? {
        RemoveEvent(t);
      }
    }

    /** Off its list, its ready bit and its event list, and to the end of another list. */
    method Relocate(t: Task, l: ListId)
      requires Filed(state) && Filed(event) && state.home(t).In? && 0 <= tcb.prio(t) < M.MAX_PRIORITIES && !l.Ready? && BitmapExact()
      requires state.home(t).list.Ready? ==> state.home(t).list == Ready(tcb.prio(t))
      modifies `state, `event, `topReady
      ensures state == PutEnd(Take(old(state), t), l, t) && event == Take(old(event), t) && BitmapExact()
    {
      TakeOk(state, t);
      RemoveFromItsList(t);
      DropEventItem(t);
      InsertStateEnd(l, t);
    }

    method MoveToSuspended(t: Task)
      requires Valid() && Alive(Abs(), t)
      modifies `state, `event, `topReady, `nextUnblock
      ensures state == PutEnd(Take(old(state), t), SuspendedTasks, t) && event == Take(old(event), t) && Caches()
    {
      MoveOk(Abs(), t, SuspendedTasks, 1);
      Relocate(t, SuspendedTasks);
      ResetNextTaskUnblockTime();
    }

    /** `vTaskSuspend` */
    method SuspendTask(t: Task)
      requires Valid() && Enabled(Abs(), M.Suspend(t))
      modifies `state, `event, `topReady, `nextUnblock
      ensures Caches() && Abs() == Apply(old(Abs()), M.Suspend(t))
      ensures state.home(t) == In(SuspendedTasks) && event.home(t) == Nowhere
    {
      TaskCards.SuspendCard(Abs(), t, t);
      MoveToSuspended(t);
    }

    /** `vTaskResume` */
    method ResumeTask(t: Task)
      requires Valid()
      modifies `state, `topReady
      ensures Caches() && Abs() == Apply(old(Abs()), M.Resume(t))
    {
      if t != current && state.home(t) == In(SuspendedTasks) && event.home(t) == Nowhere {
        MoveToReady(t);
      }
    }

    /** `xTaskResumeFromISR` */
    method ResumeTaskFromISR(t: Task) returns (yieldRequired: bool)
      requires Valid()
      modifies `state, `event, `topReady
      ensures Caches() && Abs() == Apply(old(Abs()), M.ResumeFromISR(t))
      ensures yieldRequired <==> old(IsSuspended(Abs(), t)) && suspended == 0 && tcb.prio(t) >= tcb.prio(current)
    {
      yieldRequired := false;
      if state.home(t) == In(SuspendedTasks) && event.home(t) == Nowhere {
        if suspended == 0 {
          yieldRequired := tcb.prio(t) >= tcb.prio(current);
          MoveToReady(t);
        } else {
          InsertEventEnd(PendingReady, t);
        }
      }
    }

    /** The fields prvInitialiseNewTask sets, and the ready list. */
    method EnlistTask(t: Task, p: int)
      requires Filed(state) && state.home(t) == Nowhere && 0 <= p < M.MAX_PRIORITIES && Caches() && !delayed.Ready?
      modifies `state, `topReady, `tcb
      ensures Caches()
      ensures var c := old(Abs());
              Abs() == c.(tcb := c.tcb.(prio := Set(c.tcb.prio, t, p), base := Set(c.tcb.base, t, p), held := Set(c.tcb.held, t, 0),
                                        eventValue := Set(c.tcb.eventValue, t, M.MAX_PRIORITIES - p)),
                          state := PutEnd(c.state, Ready(p), t))
    {
      tcb := tcb.(prio := Set(tcb.prio, t, p), base := Set(tcb.base, t, p), held := Set(tcb.held, t, 0),
                  eventValue := Set(tcb.eventValue, t, M.MAX_PRIORITIES - p));
      assert UnblockTimeOk();
      AddToReadyList(t);
    }

    /** prvAddNewTaskToReadyList */
    method CreateTask(t: Task, priority: int)
      requires Valid() && Enabled(Abs(), Create(t, priority))
      modifies `state, `topReady, `tcb, `taskCount
      ensures Caches() && Abs() == Apply(old(Abs()), Create(t, priority))
      ensures Counts() == Counted(old(Counts()), old(Abs()), Create(t, priority))
    {
      taskCount := taskCount + 1;
      EnlistTask(t, Clip(priority));
    }

    /** Off its list and its event list; the running task goes to the list of deleted tasks. */
    method DelistTask(t: Task)
      requires Valid() && Enabled(Abs(), Delete(t))
      modifies `state, `event, `topReady, `nextUnblock
      ensures Caches() && Abs() == Apply(old(Abs()), Delete(t))
    {
      if t == current {
        DelistCurrent();
      } else {
        DelistOther(t);
      }
    }

    /** `vTaskDelete`: a task that deletes itself waits for the idle task to be freed. */
    method DeleteTask(t: Task)
      requires Valid() && Enabled(Abs(), Delete(t))
      modifies `state, `event, `topReady, `nextUnblock, `taskCount, `deletedWaiting
      ensures Caches() && Abs() == Apply(old(Abs()), Delete(t))
      ensures Counts() == Counted(old(Counts()), old(Abs()), Delete(t))
    {
      DelistTask(t);
      CountDeletion(t == current);
    }

    method CountDeletion(own: bool)
      modifies `taskCount, `deletedWaiting
      ensures deletedWaiting == old(deletedWaiting) + (if own then 1 else 0) && taskCount == old(taskCount) - if own then 0 else 1
    {
      if own {
        deletedWaiting := deletedWaiting + 1;
      } else {
        taskCount := taskCount - 1;
      }
    }

    method DelistOther(t: Task)
      requires Valid() && Alive(Abs(), t)
      modifies `state, `event, `topReady, `nextUnblock
      ensures state == Take(old(state), t) && event == Take(old(event), t) && Caches()
    {
      LiftOk(Abs(), t);
      RemoveFromItsList(t);
      DropEventItem(t);
      ResetNextTaskUnblockTime();
    }

    method DelistCurrent()
      requires Filed(state) && Filed(event) && state.home(current).In? && 0 <= tcb.prio(current) < M.MAX_PRIORITIES && Caches()
      requires state.home(current).list.Ready? ==> state.home(current).list == Ready(tcb.prio(current))
      requires !delayed.Ready? && delayed != Termination && SortedBy(state.at(delayed).items, tcb.value)
      modifies `state, `event, `topReady
      ensures state == PutEnd(Take(old(state), current), Termination, current) && event == Take(old(event), current) && Caches()
    {
      HeadsOnlyGrow(state, current, Termination, delayed, tcb.value);
      Relocate(current, Termination);
    }

    /** One turn of the loop of prvCheckTasksWaitingTermination. */
    method FreeOneTask()
      requires Filed(state) && Caches() && !delayed.Ready? && delayed != Termination && state.at(Termination).items != []
      modifies `state, `taskCount, `deletedWaiting
      ensures state == Take(old(state), old(state.at(Termination).items[0])) && Caches()
      ensures taskCount == old(taskCount) - 1 && deletedWaiting == old(deletedWaiting) - 1
    {
      var t := state.at(Termination).items[0];
      TakeHead(state, Termination);
      TakeOk(state, t);
      var left := RemoveState(t);
      taskCount := taskCount - 1;
      deletedWaiting := deletedWaiting - 1;
    }

    method FreeDeletedTasks()
      requires Filed(state) && Caches() && !delayed.Ready? && delayed != Termination
      requires deletedWaiting == |state.at(Termination).items|
      modifies `state, `taskCount, `deletedWaiting
      ensures state == TakeAll(old(state), old(state.at(Termination).items)) && Caches()
      ensures deletedWaiting == 0 && taskCount == old(taskCount) - old(deletedWaiting)
    {
      ghost var f, items, n := state, state.at(Termination).items, 0;
      while deletedWaiting > 0
        invariant 0 <= n <= |items| && deletedWaiting == |items| - n && taskCount == old(taskCount) - n
        invariant state == TakeAll(f, items[..n]) && Caches()
      {
        TakeFront(f, Termination, n);
        TakeFront(f, Termination, n + 1);
        FreeOneTask();
        n := n + 1;
      }
      assert items[..n] == items;
    }

    /** prvCheckTasksWaitingTermination: the counter never lets it read an empty list. */
    method CheckTasksWaitingTermination()
      requires Valid() && TaskRuns.Counted(Abs(), deletedWaiting, taskCount)
      modifies `state, `taskCount, `deletedWaiting
      ensures Abs() == TaskRuns.Freed(old(Abs()), old(deletedWaiting)) && Caches()
      ensures deletedWaiting == 0 && taskCount == old(taskCount) - old(deletedWaiting)
    {
      ghost var items := state.at(Termination).items;
      assert items[..deletedWaiting] == items;
      FreeDeletedTasks();
    }

    // -------------------------------------------------------------------------
    // Priorities.
    // -------------------------------------------------------------------------

    /** A ready task whose priority was changed moves from the list of its old priority. */
    method Requeue(t: Task, usedOnEntry: int)
      requires Filed(state) && state.home(t) == In(Ready(usedOnEntry))
      requires 0 <= usedOnEntry < M.MAX_PRIORITIES && 0 <= tcb.prio(t) < M.MAX_PRIORITIES && Caches() && !delayed.Ready?
      modifies `state, `topReady
      ensures Abs() == old(Abs()).(state := PutEnd(Take(old(state), t), Ready(tcb.prio(t)), t)) && Caches()
    {
      TakeOk(state, t);
      MoveEndOk(state, t, Ready(tcb.prio(t)));
      RemoveFromReadyList(t, usedOnEntry);
      AddToReadyList(t);
    }

    /** The new priority, and the ready list that goes with it. */
    method ChangePriority(t: Task, p: int)
      requires Filed(state) && 0 <= tcb.prio(t) < M.MAX_PRIORITIES && 0 <= p < M.MAX_PRIORITIES && Caches() && !delayed.Ready?
      modifies `state, `topReady, `tcb
      ensures Abs() == Reprioritise(old(Abs()), t, p) && Caches()
    {
      ghost var c := Abs();
      var usedOnEntry := tcb.prio(t);
      tcb := tcb.(prio := Set(tcb.prio, t, p));
      assert Caches() && Abs() == c.(tcb := tcb);
      if state.home(t) == In(Ready(usedOnEntry)) {
        Requeue(t, usedOnEntry);
      }
    }

    /** The base priority, the event item's value if it is free, and the priority in use. */
    method SetBasePriority(t: Task, p: int, used: int)
      requires Filed(state) && 0 <= tcb.prio(t) < M.MAX_PRIORITIES && 0 <= used < M.MAX_PRIORITIES && Caches() && !delayed.Ready?
      modifies `state, `topReady, `tcb
      ensures var c := old(Abs()); Abs() == Reprioritise(c.(tcb := c.tcb.(base := Set(c.tcb.base, t, p), eventValue := Follow(c.tcb, t, p))), t, used)
      ensures Caches()
    {
      tcb := tcb.(base := Set(tcb.base, t, p), eventValue := Follow(tcb, t, p));
      ChangePriority(t, used);
    }

    /** `vTaskPrioritySet` */
    method PrioritySet(t: Task, priority: int) returns (yieldRequired: bool)
      requires Valid() && Enabled(Abs(), SetPriority(t, priority))
      modifies `state, `topReady, `tcb
      ensures Caches() && Abs() == Apply(old(Abs()), SetPriority(t, priority))
      ensures var p, b := Clip(priority), old(tcb.base(t));
              yieldRequired <==> (p > b && t != current && p >= old(tcb.prio(current))) || (p < b && t == current)
    {
      var p, b := Clip(priority), tcb.base(t);
      yieldRequired := if p > b then t != current && p >= tcb.prio(current) else p < b && t == current;
      if b != p {
        SetBasePriority(t, p, if b == tcb.prio(t) then p else tcb.prio(t));
      }
    }

    /** pvTaskIncrementMutexHeldCount */
    method IncrementMutexHeldCount()
      requires Valid()
      modifies `tcb
      ensures Caches() && Abs() == Apply(old(Abs()), TakeMutex)
    {
      tcb := tcb.(held := Set(tcb.held, current, tcb.held(current) + 1));
    }

    /** `uxTaskResetEventItemValue`: what the running task finds in its event item; the value then
      * follows its priority again. */
    method ResetEventItemValue() returns (value: int)
      requires Valid() && Enabled(Abs(), ResetEventValue)
      modifies `tcb
      ensures Caches() && Abs() == Apply(old(Abs()), ResetEventValue) && value == old(tcb.eventValue(current))
    {
      value := tcb.eventValue(current);
      tcb := tcb.(eventValue := Set(tcb.eventValue, current, M.MAX_PRIORITIES - tcb.prio(current)));
    }

    /** A priority and the value of the event item that goes with it. */
    method ChangePriorityAndValue(t: Task, p: int, eventValue: Task -> int)
      requires Filed(state) && 0 <= tcb.prio(t) < M.MAX_PRIORITIES && 0 <= p < M.MAX_PRIORITIES && Caches() && !delayed.Ready?
      modifies `state, `topReady, `tcb
      ensures var c := old(Abs()); Abs() == Reprioritise(c.(tcb := c.tcb.(eventValue := eventValue)), t, p)
      ensures Caches()
    {
      tcb := tcb.(eventValue := eventValue);
      ChangePriority(t, p);
    }

    /** `xTaskPriorityInherit` */
    method PriorityInherit(holder: Task) returns (inherited: bool)
      requires Valid() && Enabled(Abs(), Inherit(holder))
      modifies `state, `topReady, `tcb
      ensures Caches() && Abs() == Apply(old(Abs()), Inherit(holder))
      ensures inherited <==> old(tcb.prio(holder) < tcb.prio(current) || tcb.base(holder) < tcb.prio(current))
    {
      var p := tcb.prio(current);
      inherited := tcb.base(holder) < p;
      if tcb.prio(holder) < p {
        ChangePriorityAndValue(holder, p, Follow(tcb, holder, p));
        inherited := true;
      }
    }

    /** `xTaskPriorityDisinherit` by the running holder: what it does to the control block and the lists. */
    method GiveBackPriority() returns (switchRequired: bool)
      requires Valid() && Enabled(Abs(), Disinherit)
      modifies `state, `topReady, `tcb
      ensures Caches() && Abs() == Apply(old(Abs()), Disinherit)
      ensures switchRequired <==> old(tcb.prio(current) != tcb.base(current) && tcb.held(current) == 1)
    {
      switchRequired := tcb.prio(current) != tcb.base(current) && tcb.held(current) == 1;
      tcb := tcb.(held := Set(tcb.held, current, tcb.held(current) - 1));
      assert Caches();
      if switchRequired {
        ChangePriorityAndValue(current, tcb.base(current), Set(tcb.eventValue, current, M.MAX_PRIORITIES - tcb.base(current)));
      }
    }

    /** The same: a task that has given its last mutex is back at its base priority, and ready there. */
    method PriorityDisinherit() returns (switchRequired: bool)
      requires Valid() && Enabled(Abs(), Disinherit)
      modifies `state, `topReady, `tcb
      ensures Caches() && Abs() == Apply(old(Abs()), Disinherit)
      ensures switchRequired <==> old(tcb.prio(current) != tcb.base(current) && tcb.held(current) == 1)
      ensures tcb.held(current) == old(tcb.held(current)) - 1
      ensures tcb.held(current) == 0 ==> tcb.prio(current) == tcb.base(current) && state.home(current) == In(Ready(tcb.base(current)))
    {
      ghost var c := Abs();
      switchRequired := GiveBackPriority();
      TaskCards.DisinheritCard(c, current);
    }

    /** The second half of `vTaskPriorityDisinheritAfterTimeout`: the priority has already been
      * changed, and that is the one whose bit is reset when the old ready list becomes empty. */
    method RequeueByNewPriority(t: Task, usedOnEntry: int)
      requires Filed(state) && state.home(t) == In(Ready(usedOnEntry)) && usedOnEntry != tcb.prio(t)
      requires 0 <= usedOnEntry < M.MAX_PRIORITIES && 0 <= tcb.prio(t) < M.MAX_PRIORITIES && BitmapExact()
      modifies `state, `topReady
      ensures state == PutEnd(Take(old(state), t), Ready(tcb.prio(t)), t)
      ensures forall p :: p != usedOnEntry ==> (p in topReady <==> 0 <= p < M.MAX_PRIORITIES && state.at(Ready(p)).items != [])
      ensures usedOnEntry in topReady
      ensures state.at(Ready(usedOnEntry)).items == [] <==> old(|state.at(Ready(usedOnEntry)).items|) == 1
    {
      var p := tcb.prio(t);
      TakeOk(state, t);
      Rings.RemoveOk(state.at(Ready(usedOnEntry)), t);
      var left := RemoveState(t);
      if left == 0 {
        if |state.at(Ready(p)).items| == 0 {
          topReady := Reset(topReady, p);
        }
      }
      topReady := Record(topReady, p);
      PutEndOk(state, Ready(p), t);
      InsertStateEnd(Ready(p), t);
      assert t in state.at(Ready(p)).items;
    }

    /** The priority is changed before the ready lists are. */
    method LowerPriority(t: Task, p: int)
      requires Filed(state) && 0 <= tcb.prio(t) < M.MAX_PRIORITIES && 0 <= p < M.MAX_PRIORITIES && p != tcb.prio(t) && BitmapExact()
      modifies `state, `topReady, `tcb
      ensures tcb == old(tcb).(eventValue := Follow(old(tcb), t, p), prio := Set(old(tcb.prio), t, p))
      ensures state == if old(state.home(t) == In(Ready(tcb.prio(t)))) then PutEnd(Take(old(state), t), Ready(p), t) else old(state)
      ensures BitmapExact() <==>
              !(old(state.home(t) == In(Ready(tcb.prio(t)))) && old(|state.at(Ready(tcb.prio(t))).items|) == 1)
    {
      var usedOnEntry := tcb.prio(t);
      tcb := tcb.(eventValue := Follow(tcb, t, p), prio := Set(tcb.prio, t, p));
      if state.home(t) == In(Ready(usedOnEntry)) {
        RequeueByNewPriority(t, usedOnEntry);
      }
    }

    /** Only a task that holds no other mutex is lowered. */
    method LowerIfLastMutex(t: Task, p: int)
      requires Filed(state) && 0 <= tcb.prio(t) < M.MAX_PRIORITIES && 0 <= p < M.MAX_PRIORITIES && Caches() && !delayed.Ready?
      modifies `state, `topReady, `tcb
      ensures var c := old(Abs());
              && UnblockTimeOk()
              && Abs() == (if Lowers(c, t, p) then Reprioritise(c.(tcb := c.tcb.(eventValue := Follow(c.tcb, t, p))), t, p) else c)
              && (BitmapExact() <==> !(Lowers(c, t, p) && IsReady(c, t) && |c.state.at(Ready(c.tcb.prio(t))).items| == 1))
    {
      MoveEndOk(state, t, Ready(p));
      if tcb.prio(t) != p && tcb.held(t) == 1 {
        LowerPriority(t, p);
      }
    }

    /** `vTaskPriorityDisinheritAfterTimeout`: the bitmap stays exact if and only if the
      * holder was not moved away from a ready list on which it was alone. */
    method PriorityDisinheritAfterTimeout(holder: Task, highestWaiting: int)
      requires Valid() && Enabled(Abs(), DisinheritAfterTimeout(holder, highestWaiting))
      modifies `state, `topReady, `tcb
      ensures UnblockTimeOk() && Abs() == Apply(old(Abs()), DisinheritAfterTimeout(holder, highestWaiting))
      ensures BitmapExact() <==> !LeavesAStaleBit(old(Abs()), holder, highestWaiting)
    {
      LowerIfLastMutex(holder, if tcb.base(holder) < highestWaiting then highestWaiting else tcb.base(holder));
    }
  }

  predicate Lowers(c: Core, t: Task, p: int) {
    c.tcb.prio(t) != p && c.tcb.held(t) == 1
  }

  /** The holder is lowered, and was the only ready task of the priority it leaves. */
  predicate LeavesAStaleBit(c: Core, holder: Task, highestWaiting: int) {
    && Lowers(c, holder, if c.tcb.base(holder) < highestWaiting then highestWaiting else c.tcb.base(holder))
    && IsReady(c, holder) && |c.state.at(Ready(c.tcb.prio(holder))).items| == 1
  }

  /** How the two counters are to move. */
  function Counted(counts: (int, int), c: Core, step: Step): (int, int) {
    (counts.0 + TaskRuns.TerminationChange(c, step), counts.1 + TaskRuns.PopulationChange(c, step))
  }

  /** Moving a task elsewhere can only make the head of a sorted list later. */
  lemma HeadsOnlyGrow(f: Filing<ListId>, t: Task, l: ListId, m: ListId, value: Task -> int)
    requires Filed(f) && l != m && SortedBy(f.at(m).items, value)
    ensures var before, after := f.at(m).items, PutEnd(Take(f, t), l, t).at(m).items;
            after != [] ==> before != [] && value(before[0]) <= value(after[0])
  {
    TakeOk(f, t);
    PutEndOk(Take(f, t), l, t);
    if f.home(t) == In(m) {
      assert t in f.at(m).items;
    }
  }

  /** A sorted insertion changes the head of the list at most to the new item. */
  lemma HeadAfterInsert(f: Filing<ListId>, l: ListId, t: Task, value: Task -> int, wake: int)
    requires Filed(f) && f.home(t) == Nowhere
    ensures var v := Set(value, t, wake); var before, after := f.at(l).items, PutSorted(f, l, t, v).at(l).items;
            after != [] && (v(after[0]) == wake || (before != [] && v(after[0]) == value(before[0])))
  {
    assert t !in f.at(l).items;
  }

  /** An insertion elsewhere does not change the head or its value. */
  lemma HeadStays(f: Filing<ListId>, l: ListId, m: ListId, t: Task, value: Task -> int, wake: int)
    requires Filed(f) && f.home(t) == Nowhere && l != m
    ensures PutSorted(f, m, t, Set(value, t, wake)).at(l) == f.at(l)
    ensures f.at(l).items != [] ==> Set(value, t, wake)(f.at(l).items[0]) == value(f.at(l).items[0])
  {
    assert t !in f.at(l).items;
  }

  lemma FlushOneMore(c: Core, i: nat)
    requires Good(c, 1) && M.Waiting(c) && i < |c.event.at(PendingReady).items|
    ensures var items := c.event.at(PendingReady).items;
            var s, e, t := ReadyAll(c.state, c.tcb.prio, items[..i]), TakeAll(c.event, items[..i]), items[i];
            Filed(s) && Filed(e) && Blocked(s.home(t)) && Take(e, t).at(PendingReady).items == items[i + 1..] &&
            ReadyAll(c.state, c.tcb.prio, items[..i + 1]) == PutEnd(Take(s, t), Ready(c.tcb.prio(t)), t) &&
            TakeAll(c.event, items[..i + 1]) == Take(e, t)
    ensures var items := c.event.at(PendingReady).items;
            Preempting(c, items[..i + 1]) <==> Preempting(c, items[..i]) || c.tcb.prio(items[i]) >= c.tcb.prio(c.current)
  {
    var items := c.event.at(PendingReady).items;
    PreemptingGrows(c, items, i);
    FlushPrefixLeavesRest(c, i, 1);
    FlushPrefixLeavesRest(c, i + 1, 1);
    WakeAllOk(c, items[..i], 1);
    TakeHead(TakeAll(c.event, items[..i]), PendingReady);
  }

  /** The highest recorded bit is the highest ready priority. */
  lemma HighestBit(b: Bitmap, c: Core)
    requires forall p :: p in b <==> 0 <= p < M.MAX_PRIORITIES && c.state.at(Ready(p)).items != []
    requires HighestReady(c, M.MAX_PRIORITIES - 1) >= 0
    ensures Highest(b) == HighestReady(c, M.MAX_PRIORITIES - 1)
  {
    HighestIsHighest(b, HighestReady(c, M.MAX_PRIORITIES - 1));
  }

  lemma PreemptingGrows(c: Core, items: seq<Task>, i: nat)
    requires i < |items|
    ensures items[..i + 1][..i] == items[..i]
    ensures Preempting(c, items[..i + 1]) <==> Preempting(c, items[..i]) || c.tcb.prio(items[i]) >= c.tcb.prio(c.current)
  {
    assert items[..i + 1] == items[..i] + [items[i]];
  }

  lemma WakeOneMore(c: Core, i: nat)
    requires Good(c, 0) && M.Waiting(c) && i <= |c.state.at(c.delayed).items|
    ensures var items := c.state.at(c.delayed).items;
            var s, e := ReadyAll(c.state, c.tcb.prio, items[..i]), TakeAll(c.event, items[..i]);
            Filed(s) && Filed(e) && s.at(c.delayed).items == items[i..]
    ensures var items := c.state.at(c.delayed).items;
            i < |items| ==>
              var s, e, t := ReadyAll(c.state, c.tcb.prio, items[..i]), TakeAll(c.event, items[..i]), items[i];
              s.home(t) == In(c.delayed) && c.tcb.value(t) < WRAP &&
              ReadyAll(c.state, c.tcb.prio, items[..i + 1]) == PutEnd(Take(s, t), Ready(c.tcb.prio(t)), t) &&
              TakeAll(c.event, items[..i + 1]) == Take(e, t)
    ensures var items := c.state.at(c.delayed).items;
            i < |items| ==> (Preempting(c, items[..i + 1]) <==> Preempting(c, items[..i]) || c.tcb.prio(items[i]) >= c.tcb.prio(c.current))
  {
    var items := c.state.at(c.delayed).items;
    WakePrefixLeavesRest(c, i, 0);
    WakeAllOk(c, items[..i], 0);
    if i < |items| {
      PreemptingGrows(c, items, i);
      TakeHead(ReadyAll(c.state, c.tcb.prio, items[..i]), c.delayed);
      assert items[i] in items;
    }
  }

  lemma RestIsLeft(c: Core, i: nat)
    requires Good(c, 0) && M.Waiting(c) && i <= |c.state.at(c.delayed).items|
    ensures var items := c.state.at(c.delayed).items;
            ReadyAll(c.state, c.tcb.prio, items[..i]).at(c.delayed).items == items[i..] && (i < |items| ==> 0 <= c.tcb.value(items[i]) < WRAP)
  {
    var items := c.state.at(c.delayed).items;
    WakePrefixLeavesRest(c, i, 0);
    assert i < |items| ==> items[i] in items;
  }

  /** The front of the delayed list is due up to the first task that is not. */
  lemma DueSoFar(c: Core, i: nat)
    requires i <= |Due(c)|
    ensures var items := c.state.at(c.delayed).items;
            i <= |items| && if i < |items| && c.tcb.value(items[i]) <= c.tick then i < |Due(c)| else items[..i] == Due(c)
  {
    FrontIsPrefix(c.state.at(c.delayed).items, c.tcb.value, c.tick);
  }

  /** A tick before the cached unblock time wakes nobody. */
  lemma NothingDue(a: Core, nextUnblock: int)
    requires a.tick < nextUnblock
    requires var items := a.state.at(a.delayed).items; items != [] ==> nextUnblock <= a.tcb.value(items[0])
    ensures Due(a) == []
  {
  }

  /** What every operation establishes is what the next one needs. */
  lemma StaysValid(k: Kernel, c: Core, step: Step)
    requires Inv(c) && Enabled(c, step) && k.Abs() == Apply(c, step) && k.Caches()
    ensures k.Valid()
  {
    TaskRuns.StepKeepsInv(c, step);
  }
}
