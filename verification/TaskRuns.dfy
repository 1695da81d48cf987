/** Properties of every run of the scheduler: the invariant, the partition of the tasks
  * over the lists, exact timed wake-up, and conservation of ticks. */
module TaskRuns {
  import Rings
  import opened TaskLists
  import opened Words
  import opened TaskMachine

  // ---------------------------------------------------------------------------
  // Every step keeps the invariant.
  // ---------------------------------------------------------------------------

  lemma ReprioritiseOk(c: Core, t: Task, p: int)
    requires Inv(c) && 0 <= p < MAX_PRIORITIES
    ensures Inv(Reprioritise(c, t, p))
    ensures var d := Reprioritise(c, t, p); forall u :: u != t ==> d.state.home(u) == c.state.home(u)
  {
    if IsReady(c, t) {
      MoveOk(c.(tcb := c.tcb.(prio := Set(c.tcb.prio, t, p))), t, Ready(p), 1);
    }
  }

  lemma SetPriorityOk(c: Core, step: Step)
    requires Inv(c) && Enabled(c, step) && step.SetPriority?
    ensures Inv(Apply(c, step))
  {
    var SetPriority(t, p) := step;
    if c.tcb.base(t) != Clip(p) {
      var d := c.(tcb := c.tcb.(base := Set(c.tcb.base, t, Clip(p)), eventValue := Follow(c.tcb, t, Clip(p))));
      ReprioritiseOk(d, t, if c.tcb.base(t) == c.tcb.prio(t) then Clip(p) else c.tcb.prio(t));
    }
  }

  lemma InheritOk(c: Core, step: Step)
    requires Inv(c) && Enabled(c, step) && step.Inherit?
    ensures Inv(Apply(c, step))
  {
    var p := c.tcb.prio(c.current);
    if c.tcb.prio(step.t) < p {
      ReprioritiseOk(c.(tcb := c.tcb.(eventValue := Follow(c.tcb, step.t, p))), step.t, p);
    }
  }

  /** The number of mutexes held and the values of event items do not matter. */
  lemma FieldsKeepInv(c: Core, held: Task -> int, eventValue: Task -> int)
    requires Inv(c)
    ensures Inv(c.(tcb := c.tcb.(held := held, eventValue := eventValue)))
  {
  }

  lemma DisinheritOk(c: Core, step: Step)
    requires Inv(c) && Enabled(c, step) && step.Disinherit?
    ensures Inv(ApplyPriorities(c, step))
  {
    var t := c.current;
    var held := Set(c.tcb.held, t, c.tcb.held(t) - 1);
    var eventValue := Set(c.tcb.eventValue, t, MAX_PRIORITIES - c.tcb.base(t));
    if c.tcb.prio(t) != c.tcb.base(t) && c.tcb.held(t) == 1 {
      FieldsKeepInv(c, held, eventValue);
      ReprioritiseOk(c.(tcb := c.tcb.(held := held, eventValue := eventValue)), t, c.tcb.base(t));
    } else {
      FieldsKeepInv(c, held, c.tcb.eventValue);
    }
  }

  lemma DisinheritAfterTimeoutOk(c: Core, step: Step)
    requires Inv(c) && Enabled(c, step) && step.DisinheritAfterTimeout?
    ensures Inv(Apply(c, step))
  {
    var DisinheritAfterTimeout(t, highest) := step;
    var p := if c.tcb.base(t) < highest then highest else c.tcb.base(t);
    if c.tcb.prio(t) != p && c.tcb.held(t) == 1 {
      ReprioritiseOk(c.(tcb := c.tcb.(eventValue := Follow(c.tcb, t, p))), t, p);
    }
  }

  lemma WaitOnOk(c: Core, step: Step)
    requires Inv(c) && Enabled(c, step) && step.WaitOn?
    ensures Inv(Apply(c, step))
  {
    PutSortedOk(c.event, EventList(step.e), c.current, c.tcb.eventValue);
    SleepOk(Queued(c, step.e), step.n, true);
  }

  lemma WaitUnorderedOk(c: Core, step: Step)
    requires Inv(c) && Enabled(c, step) && step.WaitUnordered?
    ensures Inv(Apply(c, step))
  {
    var t := c.current;
    PutEndOk(c.event, EventList(step.e), t);
    SleepOk(Appended(c, step.e, step.v), step.n, true);
  }

  lemma WakeFirstOk(c: Core, step: Step)
    requires Inv(c) && Enabled(c, step) && step.WakeFirst?
    ensures Inv(Apply(c, step))
    ensures var t := c.event.at(EventList(step.e)).items[0]; var d := Apply(c, step);
            (forall u :: u != t ==> d.state.home(u) == c.state.home(u) && d.event.home(u) == c.event.home(u)) &&
            (if c.suspended == 0 then IsReady(d, t) && d.event.home(t) == Nowhere else d.event.home(t) == In(PendingReady))
  {
    var t := c.event.at(EventList(step.e)).items[0];
    assert t in c.event.at(EventList(step.e)).items;
    TakeOk(c.event, t);
    if c.suspended == 0 {
      WakeTaskOk(c, t, 1);
    } else {
      PutEndOk(Take(c.event, t), PendingReady, t);
    }
  }

  lemma WakeOneOk(c: Core, step: Step)
    requires Inv(c) && Enabled(c, step) && step.WakeOne?
    ensures Inv(Apply(c, step)) && IsReady(Apply(c, step), step.t)
    ensures var d := Apply(c, step);
            forall u :: u != step.t ==> d.state.home(u) == c.state.home(u) && d.event.home(u) == c.event.home(u)
  {
    WakeTaskOk(c, step.t, 1);
  }

  lemma SuspendOk(c: Core, step: Step)
    requires Inv(c) && Enabled(c, step) && step.Suspend?
    ensures Inv(Apply(c, step))
    ensures var d := Apply(c, step);
            forall u :: u != step.t ==> d.state.home(u) == c.state.home(u) && d.event.home(u) == c.event.home(u)
  {
    TakeOk(c.event, step.t);
    MoveOk(c, step.t, SuspendedTasks, 1);
    if c.suspended == 0 { NobodyThere(c.event, PendingReady, step.t); }
  }

  lemma ResumeOneOk(c: Core, step: Step)
    requires Inv(c) && Enabled(c, step) && step.Resume?
    ensures Inv(Apply(c, step))
  {
    if IsSuspended(c, step.t) { MoveOk(c, step.t, Ready(c.tcb.prio(step.t)), 1); }
  }

  lemma HoldBackOk(c: Core, t: Task)
    requires Inv(c) && IsSuspended(c, t) && c.suspended > 0
    ensures Inv(c.(event := PutEnd(c.event, PendingReady, t)))
  {
    PutEndOk(c.event, PendingReady, t);
  }

  lemma ResumeFromISROk(c: Core, step: Step)
    requires Inv(c) && Enabled(c, step) && step.ResumeFromISR?
    ensures Inv(ApplyWakes(c, step))
  {
    if IsSuspended(c, step.t) {
      if c.suspended == 0 { MoveOk(c, step.t, Ready(c.tcb.prio(step.t)), 1); } else { HoldBackOk(c, step.t); }
    }
  }

  lemma CreateOk(c: Core, step: Step)
    requires Inv(c) && Enabled(c, step) && step.Create?
    ensures Inv(Apply(c, step))
    ensures var d := Apply(c, step);
            forall u :: u != step.t ==> d.state.home(u) == c.state.home(u) && d.event.home(u) == c.event.home(u)
  {
    var Create(t, p) := step;
    var d := c.(tcb := c.tcb.(prio := Set(c.tcb.prio, t, Clip(p)), base := Set(c.tcb.base, t, Clip(p)), held := Set(c.tcb.held, t, 0),
                              eventValue := Set(c.tcb.eventValue, t, MAX_PRIORITIES - Clip(p))));
    MoveOk(d, t, Ready(Clip(p)), 1);
  }

  lemma DeleteOthersSame(c: Core, step: Step, u: Task)
    requires Inv(c) && Enabled(c, step) && step.Delete? && u != step.t
    ensures var d := ApplyLives(c, step); d.state.home(u) == c.state.home(u) && d.event.home(u) == c.event.home(u)
  {
    TakeOk(c.event, step.t);
    MoveEndOk(c.state, step.t, Termination);
    TakeOk(c.state, step.t);
  }

  lemma DropEventOk(c: Core, t: Task)
    requires Inv(c)
    ensures Inv(c.(event := Take(c.event, t))) && Take(c.event, t).home(t) == Nowhere
  {
    TakeOk(c.event, t);
    if c.suspended == 0 { NobodyThere(c.event, PendingReady, t); }
  }

  /** A task on no event list goes to the deleted tasks, or away. */
  lemma EndOk(c: Core, t: Task)
    requires Inv(c) && c.event.home(t) == Nowhere
    ensures Inv(c.(state := PutEnd(Take(c.state, t), Termination, t))) && Inv(c.(state := Take(c.state, t)))
  {
    MoveOk(c, t, Termination, 1);
    LiftOk(c, t);
  }

  lemma DeleteKeepsInv(c: Core, step: Step)
    requires Inv(c) && Enabled(c, step) && step.Delete?
    ensures Inv(ApplyLives(c, step))
  {
    DropEventOk(c, step.t);
    EndOk(c.(event := Take(c.event, step.t)), step.t);
  }

  lemma DeleteOk(c: Core, step: Step)
    requires Inv(c) && Enabled(c, step) && step.Delete?
    ensures Inv(Apply(c, step))
    ensures var d := Apply(c, step);
            forall u :: u != step.t ==> d.state.home(u) == c.state.home(u) && d.event.home(u) == c.event.home(u)
  {
    var d := Apply(c, step);
    DeleteKeepsInv(c, step);
    forall u | u != step.t
      ensures d.state.home(u) == c.state.home(u) && d.event.home(u) == c.event.home(u)
    {
      DeleteOthersSame(c, step, u);
    }
  }

  lemma ReapOk(c: Core, step: Step)
    requires Inv(c) && Enabled(c, step) && step.Reap?
    ensures Inv(Apply(c, step))
    ensures forall u :: c.state.home(u) != In(Termination) ==> Apply(c, step).state.home(u) == c.state.home(u)
  {
    var t := c.state.at(Termination).items[0];
    assert t in c.state.at(Termination).items;
    LiftOk(c, t);
  }

  lemma SwitchContextOk(c: Core, step: Step)
    requires Inv(c) && Enabled(c, step) && step.SwitchContext?
    ensures Inv(Apply(c, step))
    ensures forall l: ListId :: Apply(c, step).state.at(l).items == c.state.at(l).items
  {
  }

  lemma TimeKeepsInv(c: Core, step: Step)
    requires Inv(c) && Enabled(c, step) && IsTime(step)
    ensures Inv(ApplyTime(c, step))
  {
    match step
    case Tick => if c.suspended == 0 { TickOk(c); }
    case SuspendAll =>
    case ResumeAll => if c.suspended == 1 { ResumeOk(c.(suspended := 0)); }
    case SwitchContext => SwitchContextOk(c, step);
  }

  lemma WaitKeepsInv(c: Core, step: Step)
    requires Inv(c) && Enabled(c, step) && IsWait(step)
    ensures Inv(ApplyWaits(c, step))
  {
    match step
    case Delay(n) => SleepOk(c, n, false);
    case WaitOn(_, _) => WaitOnOk(c, step);
    case WaitUnordered(_, _, _) => WaitUnorderedOk(c, step);
  }

  lemma WakeKeepsInv(c: Core, step: Step)
    requires Inv(c) && Enabled(c, step) && IsWake(step)
    ensures Inv(ApplyWakes(c, step))
  {
    match step
    case WakeFirst(_) => WakeFirstOk(c, step);
    case WakeOne(_, _) => WakeOneOk(c, step);
    case Suspend(_) => SuspendOk(c, step);
    case Resume(_) => ResumeOneOk(c, step);
    case ResumeFromISR(_) => ResumeFromISROk(c, step);
  }

  lemma LifeKeepsInv(c: Core, step: Step)
    requires Inv(c) && Enabled(c, step) && IsLife(step)
    ensures Inv(ApplyLives(c, step))
  {
    match step
    case Create(_, _) => CreateOk(c, step);
    case Delete(_) => DeleteOk(c, step);
    case Reap => ReapOk(c, step);
  }

  lemma PriorityKeepsInv(c: Core, step: Step)
    requires Inv(c) && Enabled(c, step) && IsPriority(step)
    ensures Inv(ApplyPriorities(c, step))
  {
    match step
    case SetPriority(_, _) => SetPriorityOk(c, step);
    case TakeMutex =>
    case ResetEventValue =>
    case Inherit(_) => InheritOk(c, step);
    case Disinherit => DisinheritOk(c, step);
    case DisinheritAfterTimeout(_, _) => DisinheritAfterTimeoutOk(c, step);
  }

  lemma StepKeepsInv(c: Core, step: Step)
    requires Inv(c) && Enabled(c, step)
    ensures Inv(Apply(c, step))
  {
    if IsTime(step) { TimeKeepsInv(c, step); }
    else if IsWait(step) { WaitKeepsInv(c, step); }
    else if IsWake(step) { WakeKeepsInv(c, step); }
    else if IsLife(step) { LifeKeepsInv(c, step); }
    else { PriorityKeepsInv(c, step); }
  }

  lemma {:induction false} RunKeepsInv(c: Core, steps: seq<Step>, end: Core)
    requires Inv(c) && Run(c, steps, end)
    ensures Inv(end)
    decreases |steps|
  {
    if steps != [] {
      StepKeepsInv(c, steps[0]);
      RunKeepsInv(Apply(c, steps[0]), steps[1..], end);
    }
  }

  /** The scheduler has been started with only the idle task. */
  function Start(idle: Task): Core {
    Core(0, 0, 0,
         Filing((l: ListId) => if l == Ready(0) then Rings.Ring([idle], 0) else Rings.Ring([], 0),
                (t: Task) => if t == idle then In(Ready(0)) else Nowhere),
         Delayed1, Delayed2,
         Filing((e: EventId) => Rings.Ring([], 0), (t: Task) => Nowhere),
         Tcbs((t: Task) => 0, (t: Task) => MAX_PRIORITIES, (t: Task) => 0, (t: Task) => 0, (t: Task) => 0),
         0, 0, false, idle)
  }

  lemma StartOk(idle: Task)
    ensures Inv(Start(idle))
  {
  }

  // ---------------------------------------------------------------------------
  // Timed wake-up.
  // ---------------------------------------------------------------------------

  /** Steps that move a sleeping task for a reason other than time. */
  predicate Touches(c: Core, step: Step, t: Task) {
    match step
    case WakeFirst(e) => var items := c.event.at(EventList(e)).items; items != [] && items[0] == t
    case WakeOne(u, _) => u == t
    case Suspend(u) => u == t
    case Delete(u) => u == t
    case _ => false
  }

  predicate Untouched(c: Core, steps: seq<Step>, t: Task)
    decreases |steps|
  {
    steps == [] || (Enabled(c, steps[0]) && !Touches(c, steps[0], t) && Untouched(Apply(c, steps[0]), steps[1..], t))
  }

  /** Asleep, and not already readied with the scheduler suspended. */
  predicate Asleep(c: Core, t: Task) {
    WakeOf(c, t).At? && c.event.home(t) != In(PendingReady)
  }

  /** The rest of the machine does not move the task. */
  ghost predicate Leaves(c: Core, d: Core, t: Task) {
    && d.state.home(t) == c.state.home(t) && d.event.home(t) == c.event.home(t)
    && WakeOf(d, t) == WakeOf(c, t) && Now(d) == Now(c)
  }

  lemma SleepLeaves(c: Core, n: int, indefinitely: bool, t: Task)
    requires Good(c, 1) && IsReady(c, c.current) && 0 < n <= MAX_DELAY && t != c.current
    ensures Leaves(c, Sleep(c, n, indefinitely), t)
  {
    SleepOk(c, n, indefinitely);
    var d := Sleep(c, n, indefinitely);
    assert d.tcb.value(t) == c.tcb.value(t);
  }

  lemma WaitLeaves(c: Core, b: Core, n: int, indefinitely: bool, t: Task)
    requires Good(c, 1) && IsReady(c, c.current) && 0 < n <= MAX_DELAY && t != c.current
    requires b == c.(event := b.event, tcb := c.tcb.(eventValue := b.tcb.eventValue)) && b.event.home(t) == c.event.home(t) && Filed(b.event)
    ensures Leaves(c, Sleep(b, n, indefinitely), t)
  {
    SleepLeaves(b, n, indefinitely, t);
  }

  lemma WaitsLeaveSleepers(c: Core, step: Step, t: Task)
    requires Inv(c) && Enabled(c, step) && IsWait(step) && Asleep(c, t)
    ensures Leaves(c, ApplyWaits(c, step), t)
  {
    match step
    case Delay(n) => SleepLeaves(c, n, false, t);
    case WaitOn(e, n) =>
      PutSortedOk(c.event, EventList(e), c.current, c.tcb.eventValue);
      WaitLeaves(c, Queued(c, e), n, true, t);
    case WaitUnordered(e, v, n) =>
      PutEndOk(c.event, EventList(e), c.current);
      WaitLeaves(c, Appended(c, e, v), n, true, t);
  }

  lemma PrioritiesLeaveSleepers(c: Core, step: Step, t: Task)
    requires Inv(c) && Enabled(c, step) && Asleep(c, t)
    requires IsPriority(step)
    ensures Leaves(c, ApplyPriorities(c, step), t)
  {
  }

  lemma WakeFirstLeavesSleepers(c: Core, step: Step, t: Task)
    requires Inv(c) && Enabled(c, step) && Asleep(c, t) && !Touches(c, step, t) && step.WakeFirst?
    ensures Leaves(c, Apply(c, step), t)
  {
    WakeFirstOk(c, step);
  }

  lemma WakeOneLeavesSleepers(c: Core, step: Step, t: Task)
    requires Inv(c) && Enabled(c, step) && Asleep(c, t) && !Touches(c, step, t) && step.WakeOne?
    ensures Leaves(c, Apply(c, step), t)
  {
    WakeOneOk(c, step);
  }

  lemma MovesLeaveSleepers(c: Core, step: Step, t: Task)
    requires Inv(c) && Enabled(c, step) && Asleep(c, t) && !Touches(c, step, t)
    requires step.Suspend? || IsLife(step)
    ensures Leaves(c, Apply(c, step), t)
  {
    match step
    case Suspend(_) => SuspendOk(c, step);
    case Create(_, _) => CreateOk(c, step);
    case Delete(_) => DeleteOk(c, step);
    case Reap => ReapOk(c, step);
  }

  lemma ResumesLeaveSleepers(c: Core, step: Step, t: Task)
    requires Inv(c) && Enabled(c, step) && Asleep(c, t)
    requires step.Resume? || step.ResumeFromISR? || step.SwitchContext?
    ensures Leaves(c, Apply(c, step), t)
  {
  }

  lemma OthersLeaveSleepers(c: Core, step: Step, t: Task)
    requires Inv(c) && Enabled(c, step) && Asleep(c, t) && !Touches(c, step, t)
    requires !step.Tick? && !step.SuspendAll? && !step.ResumeAll?
    ensures Leaves(c, Apply(c, step), t)
  {
    if IsWait(step) {
      WaitsLeaveSleepers(c, step, t);
    } else if IsPriority(step) {
      PrioritiesLeaveSleepers(c, step, t);
    } else if step.WakeFirst? {
      WakeFirstLeavesSleepers(c, step, t);
    } else if step.WakeOne? {
      WakeOneLeavesSleepers(c, step, t);
    } else if step.Suspend? || IsLife(step) {
      MovesLeaveSleepers(c, step, t);
    } else {
      ResumesLeaveSleepers(c, step, t);
    }
  }

  lemma TickWakesOnTime(c: Core, t: Task)
    requires Inv(c) && Asleep(c, t)
    ensures var d := Apply(c, Tick); Now(d) >= Now(c) && Fares(c, d, t, Now(d))
  {
    assert WakeOf(c, t).time > Now(c);
    if c.suspended == 0 {
      TickOk(c);
      TickIsExact(c, t);
    }
  }

  lemma ResumeWakesOnTime(c: Core, t: Task)
    requires Inv(c) && Enabled(c, ResumeAll) && Asleep(c, t)
    ensures var d := Apply(c, ResumeAll); Now(d) >= Now(c) && Fares(c, d, t, Now(d))
  {
    assert WakeOf(c, t).time > Now(c);
    if c.suspended == 1 {
      ResumeOk(c.(suspended := 0));
      ResumeIsExact(c.(suspended := 0), t);
    }
  }

  /** A sleeping task is readied by a step that does not touch it exactly when the step
    * brings the processed time up to its wake time. */
  lemma StepWakesOnTime(c: Core, step: Step, t: Task)
    requires Inv(c) && Enabled(c, step) && Asleep(c, t) && !Touches(c, step, t)
    ensures var d := Apply(c, step); Now(d) >= Now(c) && Fares(c, d, t, Now(d))
  {
    assert WakeOf(c, t).time > Now(c);
    if step.Tick? {
      TickWakesOnTime(c, t);
    } else if step.ResumeAll? {
      ResumeWakesOnTime(c, t);
    } else if !step.SuspendAll? {
      OthersLeaveSleepers(c, step, t);
    }
  }

  lemma {:induction false} SleepsUntilItsTime(c: Core, steps: seq<Step>, end: Core, t: Task)
    requires Inv(c) && Run(c, steps, end) && Untouched(c, steps, t) && Asleep(c, t) && Now(end) < WakeOf(c, t).time
    ensures Asleep(end, t) && WakeOf(end, t) == WakeOf(c, t) && Now(c) <= Now(end) && Inv(end)
    decreases |steps|
  {
    if steps != [] {
      var d := Apply(c, steps[0]);
      StepKeepsInv(c, steps[0]);
      StepWakesOnTime(c, steps[0], t);
      TimeOnlyAdvances(d, steps[1..], end);
      SleepsUntilItsTime(d, steps[1..], end, t);
    }
  }

  lemma StepAdvancesTime(c: Core, step: Step)
    requires Inv(c) && Enabled(c, step)
    ensures Now(Apply(c, step)) >= Now(c)
  {
    if !IsTime(step) {
      OthersKeepTheTime(c, step);
    } else if step.Tick? && c.suspended == 0 {
      TickOk(c);
    } else if step.ResumeAll? && c.suspended == 1 {
      ResumeOk(c.(suspended := 0));
    }
  }

  lemma {:induction false} TimeOnlyAdvances(c: Core, steps: seq<Step>, end: Core)
    requires Inv(c) && Run(c, steps, end)
    ensures Now(c) <= Now(end)
    decreases |steps|
  {
    if steps != [] {
      StepKeepsInv(c, steps[0]);
      StepAdvancesTime(c, steps[0]);
      TimeOnlyAdvances(Apply(c, steps[0]), steps[1..], end);
    }
  }

  /** The calling task blocks for n ticks: a delay, or a wait on an event with a time limit. */
  predicate BlocksFor(step: Step, n: int) {
    (step.Delay? || ((step.WaitOn? || step.WaitUnordered?) && step.n < MAX_DELAY)) && step.n == n
  }

  lemma WaitSetsTheTime(c: Core, b: Core, n: int, indefinitely: bool)
    requires Good(b, 1) && IsReady(b, c.current) && b.current == c.current && Now(b) == Now(c)
    requires 0 < n <= MAX_DELAY && (n == MAX_DELAY ==> !indefinitely) && b.event.home(c.current) != In(PendingReady)
    ensures var d := Sleep(b, n, indefinitely); WakeOf(d, c.current) == At(Now(c) + n) && Asleep(d, c.current)
  {
    SleepWakesAfter(b, n, indefinitely);
  }

  lemma BlockingSetsTheTime(c: Core, step: Step, n: int)
    requires Inv(c) && Enabled(c, step) && BlocksFor(step, n)
    ensures var d := ApplyWaits(c, step); WakeOf(d, c.current) == At(Now(c) + n) && Asleep(d, c.current)
  {
    var t := c.current;
    match step
    case Delay(_) => WaitSetsTheTime(c, c, n, false);
    case WaitOn(e, _) =>
      PutSortedOk(c.event, EventList(e), t, c.tcb.eventValue);
      WaitSetsTheTime(c, Queued(c, e), n, true);
    case WaitUnordered(e, v, _) =>
      PutEndOk(c.event, EventList(e), t);
      WaitSetsTheTime(c, Appended(c, e, v), n, true);
  }

  lemma StaysAsleep(c: Core, block: Step, n: int, steps: seq<Step>, mid: Core)
    requires Inv(c) && Enabled(c, block) && BlocksFor(block, n)
    requires Run(Apply(c, block), steps, mid) && Untouched(Apply(c, block), steps, c.current) && Now(mid) < Now(c) + n
    ensures Inv(mid) && Asleep(mid, c.current) && WakeOf(mid, c.current) == At(Now(c) + n)
  {
    StepKeepsInv(c, block);
    BlockingSetsTheTime(c, block, n);
    SleepsUntilItsTime(Apply(c, block), steps, mid, c.current);
  }

  /** A task that blocks at time T for n ticks, and is not readied otherwise, is asleep for
    * as long as the processed time is below T + n, over any number of tick wraps; the
    * step that brings the time to T + n readies it. */
  lemma BlocksExactly(c: Core, block: Step, n: int, steps: seq<Step>, mid: Core, step: Step)
    requires Inv(c) && Enabled(c, block) && BlocksFor(block, n)
    requires Run(Apply(c, block), steps, mid) && Untouched(Apply(c, block), steps, c.current)
    requires Enabled(mid, step) && !Touches(mid, step, c.current) && Now(mid) < Now(c) + n
    ensures WakeOf(mid, c.current) == At(Now(c) + n) && !IsReady(mid, c.current)
    ensures IsReady(Apply(mid, step), c.current) <==> Now(Apply(mid, step)) >= Now(c) + n
  {
    StaysAsleep(c, block, n, steps, mid);
    AsleepIsNotReady(mid, c.current);
    WakesIffTimely(mid, step, c.current);
  }

  lemma AsleepIsNotReady(c: Core, t: Task)
    requires Inv(c) && Asleep(c, t)
    ensures !IsReady(c, t)
  {
  }

  lemma WakesIffTimely(c: Core, step: Step, t: Task)
    requires Inv(c) && Enabled(c, step) && Asleep(c, t) && !Touches(c, step, t)
    ensures var d := Apply(c, step); IsReady(d, t) <==> Now(d) >= WakeOf(c, t).time
  {
    StepWakesOnTime(c, step, t);
    var d := Apply(c, step);
    if Now(d) < WakeOf(c, t).time {
      StepKeepsInv(c, step);
      assert WakeOf(d, t).At?;
    }
  }

  // ---------------------------------------------------------------------------
  // Ticks are neither lost nor invented.
  // ---------------------------------------------------------------------------

  function TickInterrupts(steps: seq<Step>): nat {
    if steps == [] then 0 else (if steps[0].Tick? then 1 else 0) + TickInterrupts(steps[1..])
  }

  lemma OthersKeepTheTime(c: Core, step: Step)
    requires Inv(c) && Enabled(c, step) && !IsTime(step)
    ensures var d := Apply(c, step); Now(d) == Now(c) && d.pended == c.pended
  {
  }

  lemma StepCountsTicks(c: Core, step: Step)
    requires Inv(c) && Enabled(c, step)
    ensures var d := Apply(c, step); Now(d) + d.pended == Now(c) + c.pended + if step.Tick? then 1 else 0
  {
    if !IsTime(step) {
      OthersKeepTheTime(c, step);
    } else if step.Tick? && c.suspended == 0 {
      TickOk(c);
    } else if step.ResumeAll? && c.suspended == 1 {
      ResumeOk(c.(suspended := 0));
    }
  }

  /** Over any nesting of suspensions the processed time plus the pended ticks counts the
    * tick interrupts; when the scheduler runs nothing is pended and nobody is held back. */
  lemma {:induction false} TicksAreConserved(c: Core, steps: seq<Step>, end: Core)
    requires Inv(c) && Run(c, steps, end)
    ensures Now(end) + end.pended == Now(c) + c.pended + TickInterrupts(steps)
    ensures end.suspended == 0 ==> end.pended == 0 && forall t :: end.event.home(t) != In(PendingReady)
    decreases |steps|
  {
    if steps != [] {
      StepKeepsInv(c, steps[0]);
      StepCountsTicks(c, steps[0]);
      TicksAreConserved(Apply(c, steps[0]), steps[1..], end);
    } else {
      assert forall t :: end.event.home(t) == In(PendingReady) ==> t in end.event.at(PendingReady).items;
    }
  }

  // ---------------------------------------------------------------------------
  // The tick count and the count of its overflows show the true time.
  // ---------------------------------------------------------------------------

  predicate ClockRight(c: Core) {
    c.start >= 0 && c.start % WRAP == 0 && c.overflows == c.start / WRAP % WRAP
  }

  lemma NextTurn(start: nat, overflows: int)
    requires start % WRAP == 0 && overflows == start / WRAP % WRAP
    ensures (start + WRAP) % WRAP == 0 && (overflows + 1) % WRAP == (start + WRAP) / WRAP % WRAP
  {
  }

  lemma TickKeepsTheClock(c: Core)
    requires ClockRight(c)
    ensures ClockRight(TickNow(c)) && ClockRight(Ticked(c))
  {
    NextTurn(c.start, c.overflows);
  }

  lemma {:induction false} TicksKeepTheClock(c: Core, n: nat)
    requires ClockRight(c)
    ensures ClockRight(TicksNow(c, n))
  {
    if n > 0 {
      TicksKeepTheClock(c, n - 1);
      TickKeepsTheClock(TicksNow(c, n - 1));
    }
  }

  lemma ResumeKeepsTheClock(c: Core)
    requires ClockRight(c)
    ensures ClockRight(ResumeNow(c))
  {
    TicksKeepTheClock(Flush(c), c.pended);
  }

  lemma OthersKeepTheCounts(c: Core, step: Step)
    requires Enabled(c, step) && !IsTime(step)
    ensures var d := Apply(c, step); d.start == c.start && d.overflows == c.overflows
  {
  }

  lemma StepKeepsTheClock(c: Core, step: Step)
    requires Enabled(c, step) && ClockRight(c)
    ensures ClockRight(Apply(c, step))
  {
    if !IsTime(step) {
      OthersKeepTheCounts(c, step);
    } else if step.Tick? && c.suspended == 0 {
      TickKeepsTheClock(c);
    } else if step.ResumeAll? && c.suspended == 1 {
      ResumeKeepsTheClock(c.(suspended := 0));
    }
  }

  lemma {:induction false} RunKeepsTheClock(c: Core, steps: seq<Step>, end: Core)
    requires Run(c, steps, end) && ClockRight(c)
    ensures ClockRight(end)
    decreases |steps|
  {
    if steps != [] {
      StepKeepsTheClock(c, steps[0]);
      RunKeepsTheClock(Apply(c, steps[0]), steps[1..], end);
    }
  }

  /** In every run from the start the two counts are the rest and the quotient of the true time by 2^32:
    * what the examination of a time-out goes by. */
  lemma ClockShowsTheTime(idle: Task, steps: seq<Step>, end: Core)
    requires Run(Start(idle), steps, end)
    ensures Now(end) >= 0 && end.tick == Now(end) % WRAP && end.overflows == Now(end) / WRAP % WRAP
  {
    StartOk(idle);
    RunKeepsInv(Start(idle), steps, end);
    RunKeepsTheClock(Start(idle), steps, end);
    WholeTurns(end.start, end.tick);
  }

  lemma WholeTurns(start: nat, tick: nat)
    requires start % WRAP == 0 && tick < WRAP
    ensures (start + tick) % WRAP == tick && (start + tick) / WRAP == start / WRAP
  {
  }

  // ---------------------------------------------------------------------------
  // The partition of the tasks, and the choice of the running one.
  // ---------------------------------------------------------------------------

  function AllLists(): seq<ListId> {
    [Ready(0), Ready(1), Ready(2), Ready(3), Ready(4), Ready(5), Ready(6), Delayed1, Delayed2, SuspendedTasks, Termination]
  }

  lemma AllListsAreAll(c: Core, t: Task)
    requires Inv(c) && c.state.home(t).In?
    ensures c.state.home(t).list in AllLists()
  {
    var l := c.state.home(t).list;
    var i := if l.Ready? then l.p else if l == Delayed1 then 7 else if l == Delayed2 then 8 else if l == SuspendedTasks then 9 else 10;
    assert l.Ready? ==> l == Ready(c.tcb.prio(t));
    assert AllLists()[i] == l;
  }

  /** Every task that exists is on exactly one list, and the list lengths add up to the
    * number of tasks. */
  lemma ListsPartitionTheTasks(c: Core)
    requires Inv(c)
    ensures forall t, l :: t in c.state.at(l).items <==> c.state.home(t) == In(l)
    ensures forall t :: t in On(c.state, AllLists()) <==> c.state.home(t).In?
    ensures Lengths(c.state, AllLists()) == |On(c.state, AllLists())|
  {
    LengthsCountTasks(c.state, AllLists());
    forall t
      ensures t in On(c.state, AllLists()) <==> c.state.home(t).In?
    {
      OnIsHome(c.state, AllLists(), t);
      if c.state.home(t).In? { AllListsAreAll(c, t); }
    }
  }

  predicate SameLife(h: Home<ListId>, k: Home<ListId>) {
    (h.In? <==> k.In?) && (h == In(Termination) <==> k == In(Termination))
  }

  /** The task a step creates or frees. */
  function Subject(c: Core, step: Step): Task
    requires Enabled(c, step)
  {
    match step
    case Create(t, _) => t
    case Delete(t) => t
    case Reap => c.state.at(Termination).items[0]
    case _ => c.current
  }

  predicate Frees(c: Core, step: Step) {
    (step.Delete? && step.t != c.current) || step.Reap?
  }

  ghost predicate Changes(c: Core, step: Step, u: Task, before: bool, after: bool)
    requires Enabled(c, step)
  {
    after <==> (before || (step.Create? && u == Subject(c, step))) && !(Frees(c, step) && u == Subject(c, step))
  }

  lemma TimeKeepsPopulation(c: Core, step: Step, u: Task)
    requires Inv(c) && Enabled(c, step) && (step.Tick? || step.ResumeAll?)
    ensures SameLife(c.state.home(u), Apply(c, step).state.home(u))
  {
    if step.Tick? && c.suspended == 0 { TickIsExact(c, u); }
    if step.ResumeAll? && c.suspended == 1 { ResumeIsExact(c.(suspended := 0), u); }
  }

  lemma SleepKeepsPopulation(c: Core, n: int, indefinitely: bool, u: Task)
    requires Good(c, 1) && IsReady(c, c.current) && 0 < n <= MAX_DELAY
    ensures SameLife(c.state.home(u), Sleep(c, n, indefinitely).state.home(u))
  {
    SleepOk(c, n, indefinitely);
  }

  lemma WaitsKeepPopulation(c: Core, step: Step, u: Task)
    requires Inv(c) && Enabled(c, step) && IsWait(step)
    ensures SameLife(c.state.home(u), ApplyWaits(c, step).state.home(u))
  {
    var t := c.current;
    match step
    case Delay(n) => SleepKeepsPopulation(c, n, false, u);
    case WaitOn(e, n) =>
      PutSortedOk(c.event, EventList(e), t, c.tcb.eventValue);
      SleepKeepsPopulation(Queued(c, e), n, true, u);
    case WaitUnordered(e, v, n) =>
      PutEndOk(c.event, EventList(e), t);
      SleepKeepsPopulation(Appended(c, e, v), n, true, u);
  }

  lemma ReprioritiseKeepsLife(c: Core, t: Task, p: int, u: Task)
    requires Filed(c.state)
    ensures SameLife(c.state.home(u), Reprioritise(c, t, p).state.home(u))
  {
    MoveEndOk(c.state, t, Ready(p));
  }

  /** Only the ready list of one task changes, if any. */
  lemma PrioritiesReprioritise(c: Core, step: Step) returns (t: Task, p: int)
    requires Enabled(c, step) && IsPriority(step)
    ensures ApplyPriorities(c, step).state == c.state || ApplyPriorities(c, step).state == Reprioritise(c, t, p).state
  {
    t := if step.SetPriority? || step.Inherit? || step.DisinheritAfterTimeout? then step.t else c.current;
    p := ApplyPriorities(c, step).tcb.prio(t);
  }

  lemma PrioritiesKeepPopulation(c: Core, step: Step, u: Task)
    requires Inv(c) && Enabled(c, step)
    requires IsPriority(step)
    ensures SameLife(c.state.home(u), ApplyPriorities(c, step).state.home(u))
  {
    var t, p := PrioritiesReprioritise(c, step);
    ReprioritiseKeepsLife(c, t, p, u);
  }

  lemma WakesKeepPopulation(c: Core, step: Step, u: Task)
    requires Inv(c) && Enabled(c, step) && (step.WakeFirst? || step.WakeOne? || step.SwitchContext?)
    ensures SameLife(c.state.home(u), Apply(c, step).state.home(u))
  {
    match step
    case WakeFirst(e) =>
      var t := c.event.at(EventList(e)).items[0];
      assert t in c.event.at(EventList(e)).items;
      MoveEndOk(c.state, t, Ready(c.tcb.prio(t)));
    case WakeOne(t, _) => MoveEndOk(c.state, t, Ready(c.tcb.prio(t)));
    case SwitchContext =>
  }

  lemma SuspensionsKeepPopulation(c: Core, step: Step, u: Task)
    requires Inv(c) && Enabled(c, step) && (step.Suspend? || step.Resume? || step.ResumeFromISR?)
    ensures SameLife(c.state.home(u), ApplyWakes(c, step).state.home(u))
  {
    MoveEndOk(c.state, step.t, if step.Suspend? then SuspendedTasks else Ready(c.tcb.prio(step.t)));
  }

  lemma LivesChangePopulation(c: Core, step: Step, u: Task)
    requires Inv(c) && Enabled(c, step) && IsLife(step)
    ensures Changes(c, step, u, c.state.home(u).In?, Apply(c, step).state.home(u).In?)
  {
    match step
    case Create(t, p) => MoveEndOk(c.state, t, Ready(Clip(p)));
    case Delete(t) => MoveEndOk(c.state, t, Termination); TakeOk(c.state, t);
    case Reap =>
      var t := c.state.at(Termination).items[0];
      assert t in c.state.at(Termination).items;
      TakeOk(c.state, t);
  }

  lemma OthersKeepPopulation(c: Core, step: Step, u: Task)
    requires Inv(c) && Enabled(c, step) && !IsLife(step)
    ensures SameLife(c.state.home(u), Apply(c, step).state.home(u))
  {
    if step.Tick? || step.ResumeAll? {
      TimeKeepsPopulation(c, step, u);
    } else if IsWait(step) {
      WaitsKeepPopulation(c, step, u);
    } else if IsPriority(step) {
      PrioritiesKeepPopulation(c, step, u);
    } else if step.WakeFirst? || step.WakeOne? || step.SwitchContext? {
      WakesKeepPopulation(c, step, u);
    } else if !step.SuspendAll? {
      SuspensionsKeepPopulation(c, step, u);
    }
  }

  /** Tasks appear only by creation and disappear only by deletion. */
  lemma PopulationChangesOnlyByCreationAndDeletion(c: Core, step: Step, u: Task)
    requires Inv(c) && Enabled(c, step)
    ensures Changes(c, step, u, c.state.home(u).In?, Apply(c, step).state.home(u).In?)
  {
    if IsLife(step) {
      LivesChangePopulation(c, step, u);
    } else {
      OthersKeepPopulation(c, step, u);
    }
  }

  ghost function Population(c: Core): set<Task> {
    On(c.state, AllLists())
  }

  lemma PopulationAfter(c: Core, step: Step)
    requires Inv(c) && Enabled(c, step)
    ensures forall u :: Changes(c, step, u, u in Population(c), u in Population(Apply(c, step)))
    ensures forall u :: u in Population(c) <==> c.state.home(u).In?
  {
    StepKeepsInv(c, step);
    ListsPartitionTheTasks(c);
    ListsPartitionTheTasks(Apply(c, step));
    forall u
      ensures Changes(c, step, u, u in Population(c), u in Population(Apply(c, step)))
    {
      PopulationChangesOnlyByCreationAndDeletion(c, step, u);
    }
  }

  function PopulationChange(c: Core, step: Step): int {
    if step.Create? then 1 else if Frees(c, step) then -1 else 0
  }

  lemma SizeAfter(before: set<Task>, after: set<Task>, t: Task, created: bool, freed: bool)
    requires forall u :: u in after <==> (u in before || (created && u == t)) && !(freed && u == t)
    requires (created ==> t !in before && !freed) && (freed ==> t in before)
    ensures |after| == |before| + if created then 1 else if freed then -1 else 0
  {
    assert after == if created then before + {t} else if freed then before - {t} else before;
  }

  /** What uxCurrentNumberOfTasks has to do to keep counting the tasks. */
  lemma StepPopulation(c: Core, step: Step)
    requires Inv(c) && Enabled(c, step)
    ensures |Population(Apply(c, step))| == |Population(c)| + PopulationChange(c, step)
  {
    PopulationAfter(c, step);
    var t := Subject(c, step);
    if step.Reap? { assert t in c.state.at(Termination).items; }
    SizeAfter(Population(c), Population(Apply(c, step)), t, step.Create?, Frees(c, step));
  }

  /** No other step touches the list of deleted tasks. */
  lemma StepKeepsTermination(c: Core, step: Step)
    requires Inv(c) && Enabled(c, step) && !IsLife(step)
    ensures |Apply(c, step).state.at(Termination).items| == |c.state.at(Termination).items|
  {
    var d := Apply(c, step);
    StepKeepsInv(c, step);
    forall u
      ensures u in d.state.at(Termination).items <==> u in c.state.at(Termination).items
    {
      OthersKeepPopulation(c, step, u);
    }
    assert Members(d.state.at(Termination).items) == Members(c.state.at(Termination).items);
    NoDupSize(d.state.at(Termination).items);
    NoDupSize(c.state.at(Termination).items);
  }

  function TerminationChange(c: Core, step: Step): int {
    if step.Delete? && step.t == c.current then 1 else if step.Reap? then -1 else 0
  }

  lemma StepTermination(c: Core, step: Step)
    requires Inv(c) && Enabled(c, step)
    ensures |Apply(c, step).state.at(Termination).items| == |c.state.at(Termination).items| + TerminationChange(c, step)
  {
    if step.Create? {
    } else if step.Delete? {
      TakeOk(c.state, step.t);
      PutEndOk(Take(c.state, step.t), Termination, step.t);
      Rings.InsertEndOk(Take(c.state, step.t).at(Termination), step.t);
    } else if step.Reap? {
      TakeHead(c.state, Termination);
    } else {
      StepKeepsTermination(c, step);
    }
  }

  /** uxDeletedTasksWaitingCleanUp and uxCurrentNumberOfTasks count what they are meant to. */
  ghost predicate Counted(c: Core, deletedWaiting: int, taskCount: int) {
    deletedWaiting == |c.state.at(Termination).items| && taskCount == |Population(c)|
  }

  lemma StepKeepsCounted(c: Core, step: Step, deletedWaiting: int, taskCount: int)
    requires Inv(c) && Enabled(c, step) && Counted(c, deletedWaiting, taskCount)
    ensures Counted(Apply(c, step), deletedWaiting + TerminationChange(c, step), taskCount + PopulationChange(c, step))
  {
    StepTermination(c, step);
    StepPopulation(c, step);
  }

  /** The idle task has freed the first n deleted tasks. */
  function Freed(c: Core, n: nat): Core
    requires n <= |c.state.at(Termination).items|
  {
    c.(state := TakeAll(c.state, c.state.at(Termination).items[..n]))
  }

  lemma FreedNext(c: Core, n: nat)
    requires Inv(c) && n < |c.state.at(Termination).items|
    ensures Enabled(Freed(c, n), Reap) && Freed(c, n + 1) == Apply(Freed(c, n), Reap)
  {
    TakeFront(c.state, Termination, n);
    TakeFront(c.state, Termination, n + 1);
  }

  /** Freeing them is as many steps of the machine, each of which finds a task at the head. */
  lemma {:induction false} FreeingIsReaping(c: Core, n: nat)
    requires Inv(c) && n <= |c.state.at(Termination).items|
    ensures Inv(Freed(c, n)) && |Population(Freed(c, n))| == |Population(c)| - n
  {
    if n == 0 {
      assert Freed(c, 0) == c;
    } else {
      FreeingIsReaping(c, n - 1);
      FreedNext(c, n - 1);
      StepKeepsInv(Freed(c, n - 1), Reap);
      StepPopulation(Freed(c, n - 1), Reap);
    }
  }

  /** A context switch runs a ready task of maximal priority. */
  lemma SwitchPicksTheHighest(c: Core)
    requires Inv(c) && Enabled(c, SwitchContext) && c.suspended == 0
    ensures var d := Apply(c, SwitchContext);
            IsReady(d, d.current) && forall u :: IsReady(d, u) ==> d.tcb.prio(u) <= d.tcb.prio(d.current)
  {
    var p := HighestReady(c, MAX_PRIORITIES - 1);
    var r := Rings.Advance(c.state.at(Ready(p)));
    assert Rings.Selected(r) in c.state.at(Ready(p)).items;
    forall u | IsReady(c, u)
      ensures c.tcb.prio(u) <= p
    {
      assert u in c.state.at(Ready(c.tcb.prio(u))).items;
    }
  }
}
