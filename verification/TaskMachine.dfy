/** The scheduler of tasks.c as a state machine without its caches: no ready bitmap, no
  * next-unblock time, and a clock that also knows how often it has wrapped.  Each step is
  * one critical section, one interrupt, or one stretch with the scheduler suspended.
  * Module Scheduler proves that the real data structures behave as this machine. */
module TaskMachine {
  import Rings
  import opened TaskLists
  import opened Words

  const MAX_PRIORITIES := 7
  const MAX_DELAY := 0xFFFF_FFFF
  const IN_USE := 0x8000_0000

  datatype ListId = Ready(p: int) | Delayed1 | Delayed2 | SuspendedTasks | Termination

  datatype EventId = PendingReady | EventList(id: nat)

  /** The fields of the task control blocks. */
  datatype Tcbs = Tcbs(
    value: Task -> int,        // value of xStateListItem: the wrapped wake time
    eventValue: Task -> int,   // value of xEventListItem
    prio: Task -> int,         // uxPriority
    base: Task -> int,         // uxBasePriority
    held: Task -> int)         // uxMutexesHeld

  datatype Core = Core(
    start: int,                // the true time at which the tick count last was 0
    tick: int,                 // xTickCount
    overflows: int,            // xNumOfOverflows
    state: Filing<ListId>,
    delayed: ListId,           // pxDelayedTaskList
    overflow: ListId,          // pxOverflowDelayedTaskList
    event: Filing<EventId>,
    tcb: Tcbs,
    suspended: nat,            // uxSchedulerSuspended
    pended: nat,               // uxPendedTicks
    yieldPending: bool,
    current: Task)

  function Now(c: Core): int {
    c.start + c.tick
  }

  datatype Wake = Never | At(time: int)

  /** The true time at which the tick will wake a task. */
  function WakeOf(c: Core, t: Task): Wake {
    if c.state.home(t) == In(c.delayed) then At(c.start + c.tcb.value(t))
    else if c.state.home(t) == In(c.overflow) then At(c.start + WRAP + c.tcb.value(t))
    else Never
  }

  predicate IsReady(c: Core, t: Task) {
    c.state.home(t) == In(Ready(c.tcb.prio(t)))
  }

  // ---------------------------------------------------------------------------
  // Moving tasks.
  // ---------------------------------------------------------------------------

  /** uxListRemove on the state item, then prvAddTaskToReadyList */
  function ToReady(f: Filing<ListId>, prio: Task -> int, t: Task): Filing<ListId> {
    PutEnd(Take(f, t), Ready(prio(t)), t)
  }

  function MakeReady(c: Core, t: Task): Core {
    c.(state := ToReady(c.state, c.tcb.prio, t))
  }

  function WakeTask(c: Core, t: Task): Core {
    c.(state := ToReady(c.state, c.tcb.prio, t), event := Take(c.event, t))
  }

  /** The state items of some tasks move to the ready lists, one after the other. */
  function ReadyAll(f: Filing<ListId>, prio: Task -> int, ts: seq<Task>): Filing<ListId> {
    if ts == [] then f else ToReady(ReadyAll(f, prio, ts[..|ts| - 1]), prio, ts[|ts| - 1])
  }

  /** Some items leave their lists. */
  function TakeAll<L(==)>(f: Filing<L>, ts: seq<Task>): Filing<L> {
    if ts == [] then f else Take(TakeAll(f, ts[..|ts| - 1]), ts[|ts| - 1])
  }

  function WakeAll(c: Core, ts: seq<Task>): Core {
    c.(state := ReadyAll(c.state, c.tcb.prio, ts), event := TakeAll(c.event, ts))
  }

  /** Does some of these tasks have at least the priority of the running one? */
  predicate Preempting(c: Core, ts: seq<Task>) {
    exists i :: 0 <= i < |ts| && c.tcb.prio(ts[i]) >= c.tcb.prio(c.current)
  }

  function Advance(c: Core): Core {
    if c.tick + 1 == WRAP
    then c.(tick := 0, start := c.start + WRAP, overflows := (c.overflows + 1) % WRAP,
            delayed := c.overflow, overflow := c.delayed)
    else c.(tick := c.tick + 1)
  }

  /** The tasks at the front of a list whose time has been reached. */
  function Front(items: seq<Task>, value: Task -> int, tick: int): seq<Task> {
    if items == [] || tick < value(items[0]) then [] else [items[0]] + Front(items[1..], value, tick)
  }

  function Due(c: Core): seq<Task> {
    Front(c.state.at(c.delayed).items, c.tcb.value, c.tick)
  }

  /** `xTaskIncrementTick` while the scheduler is not suspended. */
  function TickNow(c: Core): Core {
    var a := Advance(c);
    WakeAll(a, Due(a))
  }

  /** The same, remembering that a context switch was asked for. */
  function Ticked(c: Core): Core {
    TickNow(c).(yieldPending := c.yieldPending || Preempting(c, Due(Advance(c))))
  }

  function TicksNow(c: Core, n: nat): Core {
    if n == 0 then c else Ticked(TicksNow(c, n - 1))
  }

  /** The pending-ready loop of `xTaskResumeAll`. */
  function Flush(c: Core): Core {
    var ts := c.event.at(PendingReady).items;
    WakeAll(c, ts).(yieldPending := c.yieldPending || Preempting(c, ts))
  }

  function ResumeNow(c: Core): Core {
    TicksNow(Flush(c), c.pended).(pended := 0)
  }

  /** By wake time, into the list of this epoch or the next. */
  function FileByTime(c: Core, t: Task, wake: int): Core {
    var value := Set(c.tcb.value, t, wake);
    c.(tcb := c.tcb.(value := value),
       state := PutSorted(c.state, if wake < c.tick then c.overflow else c.delayed, t, value))
  }

  /** `prvAddCurrentTaskToDelayedList` */
  function Sleep(c: Core, n: int, indefinitely: bool): Core
    requires 0 <= c.tick < WRAP && 0 < n <= MAX_DELAY
  {
    var d := c.(state := Take(c.state, c.current));
    if n == MAX_DELAY && indefinitely then d.(state := PutEnd(d.state, SuspendedTasks, c.current))
    else FileByTime(d, c.current, Plus(c.tick, n))
  }

  function InUse(v: int): int {
    if v < IN_USE then v + IN_USE else v
  }

  /** Only a value that is not in use for an event group follows the priority. */
  function Follow(tcb: Tcbs, t: Task, p: int): Task -> int {
    if tcb.eventValue(t) < IN_USE then Set(tcb.eventValue, t, MAX_PRIORITIES - p) else tcb.eventValue
  }

  /** A ready task moves to the ready list of its new priority. */
  function Reprioritise(c: Core, t: Task, p: int): Core {
    c.(tcb := c.tcb.(prio := Set(c.tcb.prio, t, p)), state := if IsReady(c, t) then PutEnd(Take(c.state, t), Ready(p), t) else c.state)
  }

  predicate IsSuspended(c: Core, t: Task) {
    c.state.home(t) == In(SuspendedTasks) && c.event.home(t) == Nowhere
  }

  /** The highest priority up to p with a ready task, or -1. */
  function HighestReady(c: Core, p: int): (r: int)
    requires -1 <= p
    ensures -1 <= r <= p && (r >= 0 ==> c.state.at(Ready(r)).items != [])
    ensures forall q :: r < q <= p ==> c.state.at(Ready(q)).items == []
    decreases p
  {
    if p < 0 || c.state.at(Ready(p)).items != [] then p else HighestReady(c, p - 1)
  }

  function Clip(p: int): int {
    if p >= MAX_PRIORITIES then MAX_PRIORITIES - 1 else p
  }

  // ---------------------------------------------------------------------------
  // The steps.
  // ---------------------------------------------------------------------------

  datatype Step =
    | Tick
    | SuspendAll
    | ResumeAll
    | SwitchContext
    | Delay(n: int)
    | WaitOn(e: nat, n: int)
    | WaitUnordered(e: nat, v: int, n: int)
    | WakeFirst(e: nat)
    | WakeOne(t: Task, v: int)
    | Suspend(t: Task)
    | Resume(t: Task)
    | ResumeFromISR(t: Task)
    | Create(t: Task, p: int)
    | Delete(t: Task)
    | Reap
    | SetPriority(t: Task, p: int)
    | TakeMutex
    | ResetEventValue
    | Inherit(t: Task)
    | Disinherit
    | DisinheritAfterTimeout(t: Task, p: int)

  predicate Alive(c: Core, t: Task) {
    c.state.home(t).In? && c.state.home(t).list != Termination
  }

  predicate MayBlock(c: Core, n: int) {
    0 <= c.tick < WRAP && IsReady(c, c.current) && c.event.home(c.current) == Nowhere && 0 < n <= MAX_DELAY
  }

  /** What the source demands of its callers. */
  predicate Enabled(c: Core, step: Step) {
    match step
    case Tick => true
    case SuspendAll => true
    case ResumeAll => c.suspended > 0
    case SwitchContext => c.suspended > 0 || HighestReady(c, MAX_PRIORITIES - 1) >= 0
    case Delay(n) => MayBlock(c, n) && c.suspended > 0
    case WaitOn(_, n) => MayBlock(c, n)
    case WaitUnordered(_, v, n) => MayBlock(c, n) && c.suspended > 0 && 0 <= v < WRAP
    case WakeFirst(e) => c.event.at(EventList(e)).items != []
    case WakeOne(t, v) => c.suspended > 0 && c.event.home(t).In? && c.event.home(t).list.EventList? && 0 <= v < WRAP
    case Suspend(t) => Alive(c, t) && (t == c.current ==> c.suspended == 0)
    case Resume(t) => true
    case ResumeFromISR(t) => true
    case Create(t, p) => c.state.home(t) == Nowhere && c.event.home(t) == Nowhere && p >= 0
    case Delete(t) => Alive(c, t) && (t == c.current ==> c.suspended == 0)
    case Reap => c.state.at(Termination).items != []
    case SetPriority(t, p) => Alive(c, t) && p >= 0
    case TakeMutex => true
    case ResetEventValue => IsReady(c, c.current)
    case Inherit(t) => Alive(c, t)
    case Disinherit => IsReady(c, c.current) && c.tcb.held(c.current) > 0
    case DisinheritAfterTimeout(t, p) => Alive(c, t) && c.tcb.held(t) > 0 && 0 <= p < MAX_PRIORITIES
  }

  predicate Yields(c: Core, t: Task) {
    c.yieldPending || c.tcb.prio(t) > c.tcb.prio(c.current)
  }

  predicate IsTime(step: Step) {
    step.Tick? || step.SuspendAll? || step.ResumeAll? || step.SwitchContext?
  }

  predicate IsWait(step: Step) {
    step.Delay? || step.WaitOn? || step.WaitUnordered?
  }

  predicate IsWake(step: Step) {
    step.WakeFirst? || step.WakeOne? || step.Suspend? || step.Resume? || step.ResumeFromISR?
  }

  predicate IsLife(step: Step) {
    step.Create? || step.Delete? || step.Reap?
  }

  predicate IsPriority(step: Step) {
    step.SetPriority? || step.TakeMutex? || step.ResetEventValue? || step.Inherit? || step.Disinherit? || step.DisinheritAfterTimeout?
  }

  /** The running task joins an event list, by the value of its event item. */
  function Queued(c: Core, e: nat): Core {
    c.(event := PutSorted(c.event, EventList(e), c.current, c.tcb.eventValue))
  }

  /** The running task joins the end of an event list, with a value in its event item. */
  function Appended(c: Core, e: nat, v: int): Core {
    c.(tcb := c.tcb.(eventValue := Set(c.tcb.eventValue, c.current, InUse(v))), event := PutEnd(c.event, EventList(e), c.current))
  }

  function ApplyWaits(c: Core, step: Step): Core
    requires Enabled(c, step) && IsWait(step)
  {
    match step
    case Delay(n) => Sleep(c, n, false)
    case WaitOn(e, n) => Sleep(Queued(c, e), n, true)
    case WaitUnordered(e, v, n) => Sleep(Appended(c, e, v), n, true)
  }

  function ApplyPriorities(c: Core, step: Step): Core
    requires IsPriority(step)
  {
    match step
    case SetPriority(t, p) =>
      if c.tcb.base(t) == Clip(p) then c
      else
        var d := c.(tcb := c.tcb.(base := Set(c.tcb.base, t, Clip(p)), eventValue := Follow(c.tcb, t, Clip(p))));
        Reprioritise(d, t, if c.tcb.base(t) == c.tcb.prio(t) then Clip(p) else c.tcb.prio(t))
    case TakeMutex => c.(tcb := c.tcb.(held := Set(c.tcb.held, c.current, c.tcb.held(c.current) + 1)))
    case ResetEventValue =>
      c.(tcb := c.tcb.(eventValue := Set(c.tcb.eventValue, c.current, MAX_PRIORITIES - c.tcb.prio(c.current))))
    case Inherit(t) =>
      var p := c.tcb.prio(c.current);
      if c.tcb.prio(t) < p then Reprioritise(c.(tcb := c.tcb.(eventValue := Follow(c.tcb, t, p))), t, p) else c
    case Disinherit =>
      var t := c.current;
      var d := c.(tcb := c.tcb.(held := Set(c.tcb.held, t, c.tcb.held(t) - 1)));
      if c.tcb.prio(t) != c.tcb.base(t) && c.tcb.held(t) == 1
      then Reprioritise(d.(tcb := d.tcb.(eventValue := Set(c.tcb.eventValue, t, MAX_PRIORITIES - c.tcb.base(t)))), t, c.tcb.base(t))
      else d
    case DisinheritAfterTimeout(t, highest) =>
      var p := if c.tcb.base(t) < highest then highest else c.tcb.base(t);
      if c.tcb.prio(t) != p && c.tcb.held(t) == 1 then Reprioritise(c.(tcb := c.tcb.(eventValue := Follow(c.tcb, t, p))), t, p) else c
  }

  function ApplyTime(c: Core, step: Step): Core
    requires Enabled(c, step) && IsTime(step)
  {
    match step
    case Tick => if c.suspended == 0 then TickNow(c) else c.(pended := c.pended + 1)
    case SuspendAll => c.(suspended := c.suspended + 1)
    case ResumeAll =>
      var d := c.(suspended := c.suspended - 1);
      if d.suspended == 0 then ResumeNow(d) else d
    case SwitchContext =>
      if c.suspended > 0 then c.(yieldPending := true)
      else
        var l := Ready(HighestReady(c, MAX_PRIORITIES - 1));
        var r := Rings.Advance(c.state.at(l));
        c.(yieldPending := false, state := c.state.(at := Set(c.state.at, l, r)), current := Rings.Selected(r))
  }

  function ApplyWakes(c: Core, step: Step): Core
    requires Enabled(c, step) && IsWake(step)
  {
    match step
    case WakeFirst(e) =>
      var t := c.event.at(EventList(e)).items[0];
      if c.suspended == 0 then WakeTask(c, t).(yieldPending := Yields(c, t))
      else c.(event := PutEnd(Take(c.event, t), PendingReady, t), yieldPending := Yields(c, t))
    case WakeOne(t, v) => WakeTask(c, t).(tcb := c.tcb.(eventValue := Set(c.tcb.eventValue, t, InUse(v))), yieldPending := Yields(c, t))
    case Suspend(t) => c.(event := Take(c.event, t), state := PutEnd(Take(c.state, t), SuspendedTasks, t))
    case Resume(t) => if t != c.current && IsSuspended(c, t) then MakeReady(c, t) else c
    case ResumeFromISR(t) =>
      if !IsSuspended(c, t) then c
      else if c.suspended == 0 then MakeReady(c, t)
      else c.(event := PutEnd(c.event, PendingReady, t))
  }

  function ApplyLives(c: Core, step: Step): Core
    requires Enabled(c, step) && IsLife(step)
  {
    match step
    case Create(t, p) =>
      c.(tcb := c.tcb.(prio := Set(c.tcb.prio, t, Clip(p)), base := Set(c.tcb.base, t, Clip(p)), held := Set(c.tcb.held, t, 0),
                       eventValue := Set(c.tcb.eventValue, t, MAX_PRIORITIES - Clip(p))),
         state := PutEnd(c.state, Ready(Clip(p)), t))
    case Delete(t) =>
      var s := Take(c.state, t);
      c.(event := Take(c.event, t), state := if t == c.current then PutEnd(s, Termination, t) else s)
    case Reap => c.(state := Take(c.state, c.state.at(Termination).items[0]))
  }

  function Apply(c: Core, step: Step): Core
    requires Enabled(c, step)
  {
    if IsTime(step) then ApplyTime(c, step)
    else if IsWait(step) then ApplyWaits(c, step)
    else if IsWake(step) then ApplyWakes(c, step)
    else if IsLife(step) then ApplyLives(c, step)
    else ApplyPriorities(c, step)
  }

  ghost predicate Run(c: Core, steps: seq<Step>, end: Core)
    decreases |steps|
  {
    if steps == [] then c == end
    else Enabled(c, steps[0]) && Run(Apply(c, steps[0]), steps[1..], end)
  }

  // ---------------------------------------------------------------------------
  // The invariant.
  // ---------------------------------------------------------------------------

  ghost predicate Shape(c: Core) {
    && Filed(c.state) && Filed(c.event)
    && 0 <= c.tick < WRAP
    && ((c.delayed == Delayed1 && c.overflow == Delayed2) || (c.delayed == Delayed2 && c.overflow == Delayed1))
    && SortedBy(c.state.at(c.delayed).items, c.tcb.value)
    && SortedBy(c.state.at(c.overflow).items, c.tcb.value)
  }

  /** A task in a ready list is in the one of its priority. */
  ghost predicate Priorities(c: Core) {
    && (forall t :: 0 <= c.tcb.prio(t) < MAX_PRIORITIES && 0 <= c.tcb.base(t) < MAX_PRIORITIES)
    && (forall t :: c.state.home(t).In? && c.state.home(t).list.Ready? ==> IsReady(c, t))
  }

  /** The delayed list holds wake times of this epoch that are at least slack ticks away,
    * the overflow list those of the next epoch. */
  ghost predicate Epochs(c: Core, slack: int) {
    && (forall t :: c.state.home(t) == In(c.delayed) ==> c.tick + slack <= c.tcb.value(t) < WRAP)
    && (forall t :: c.state.home(t) == In(c.overflow) ==> 0 <= c.tcb.value(t) < c.tick)
  }

  predicate Blocked(h: Home<ListId>) {
    h.In? && (h.list == Delayed1 || h.list == Delayed2 || h.list == SuspendedTasks)
  }

  /** Only blocked tasks are on event lists. */
  ghost predicate Waiting(c: Core) {
    forall t :: c.event.home(t) != Nowhere ==> Blocked(c.state.home(t))
  }

  /** Nothing is held back once the scheduler runs. */
  ghost predicate Settled(c: Core) {
    c.suspended == 0 ==> c.pended == 0 && c.event.at(PendingReady).items == []
  }

  ghost predicate Inv(c: Core) {
    Shape(c) && Priorities(c) && Epochs(c, 1) && Waiting(c) && Settled(c)
  }

  // ---------------------------------------------------------------------------
  // Every step keeps it.
  // ---------------------------------------------------------------------------

  ghost predicate Good(c: Core, slack: int) {
    Shape(c) && Priorities(c) && Epochs(c, slack)
  }

  /** A task goes to the end of a list that is not sorted by time. */
  lemma MoveOk(c: Core, t: Task, l: ListId, slack: int)
    requires Shape(c) && Epochs(c, slack)
    requires forall u :: 0 <= c.tcb.prio(u) < MAX_PRIORITIES && 0 <= c.tcb.base(u) < MAX_PRIORITIES
    requires forall u :: u != t && c.state.home(u).In? && c.state.home(u).list.Ready? ==> IsReady(c, u)
    requires l == Ready(c.tcb.prio(t)) || l == SuspendedTasks || l == Termination
    ensures var d := c.(state := PutEnd(Take(c.state, t), l, t)); Good(d, slack)
    ensures forall u :: PutEnd(Take(c.state, t), l, t).home(u) == if u == t then In(l) else c.state.home(u)
    ensures forall m :: m != l && c.state.home(t) != In(m) ==> PutEnd(Take(c.state, t), l, t).at(m) == c.state.at(m)
  {
    MoveEndOk(c.state, t, l);
    MoveEndStaysSorted(c.state, t, l, c.delayed, c.tcb.value);
    MoveEndStaysSorted(c.state, t, l, c.overflow, c.tcb.value);
  }

  lemma LiftOk(c: Core, t: Task)
    requires Good(c, 1)
    ensures Good(c.(state := Take(c.state, t)), 1)
    ensures forall u :: Take(c.state, t).home(u) == if u == t then Nowhere else c.state.home(u)
  {
    TakeOk(c.state, t);
    TakeStaysSorted(c.state, t, c.delayed, c.tcb.value);
    TakeStaysSorted(c.state, t, c.overflow, c.tcb.value);
  }

  lemma WakeTaskOk(c: Core, t: Task, slack: int)
    requires Good(c, slack) && Waiting(c)
    ensures var d := WakeTask(c, t); Good(d, slack) && Waiting(d)
    ensures var d := WakeTask(c, t); forall u :: d.state.home(u) == if u == t then In(Ready(c.tcb.prio(t))) else c.state.home(u)
    ensures var d := WakeTask(c, t); forall u :: d.event.home(u) == if u == t then Nowhere else c.event.home(u)
    ensures var d := WakeTask(c, t); forall l: ListId :: !l.Ready? && c.state.home(t) != In(l) ==> d.state.at(l) == c.state.at(l)
    ensures var d := WakeTask(c, t); forall e :: c.event.home(t) != In(e) ==> d.event.at(e) == c.event.at(e)
  {
    TakeOk(c.event, t);
    MoveOk(c, t, Ready(c.tcb.prio(t)), slack);
  }

  lemma FileByTimeOk(c: Core, t: Task, wake: int)
    requires Good(c, 1) && c.state.home(t) == Nowhere && 0 <= wake < WRAP && wake != c.tick
    ensures Good(FileByTime(c, t, wake), 1)
    ensures FileByTime(c, t, wake).state.home(t) == In(if wake < c.tick then c.overflow else c.delayed)
    ensures forall u :: u != t ==> FileByTime(c, t, wake).state.home(u) == c.state.home(u)
  {
    var l := if wake < c.tick then c.overflow else c.delayed;
    PutSortedOk(c.state, l, t, Set(c.tcb.value, t, wake));
    PutTimedStaysSorted(c.state, l, t, c.tcb.value, wake, c.delayed);
    PutTimedStaysSorted(c.state, l, t, c.tcb.value, wake, c.overflow);
  }

  lemma SleepTimedOk(c: Core, n: int)
    requires Good(c, 1) && IsReady(c, c.current) && 0 < n <= MAX_DELAY
    ensures var d := Sleep(c, n, false); Good(d, 1)
    ensures var d := Sleep(c, n, false); forall u :: u != c.current ==> d.state.home(u) == c.state.home(u)
    ensures var d := Sleep(c, n, false); Blocked(d.state.home(c.current))
  {
    LiftOk(c, c.current);
    var b, wake := c.(state := Take(c.state, c.current)), Plus(c.tick, n);
    FileByTimeOk(b, c.current, wake);
    assert Sleep(c, n, false) == FileByTime(b, c.current, wake);
  }

  lemma SleepOk(c: Core, n: int, indefinitely: bool)
    requires Good(c, 1) && IsReady(c, c.current) && 0 < n <= MAX_DELAY
    ensures var d := Sleep(c, n, indefinitely); Good(d, 1)
    ensures var d := Sleep(c, n, indefinitely);
            forall u :: u != c.current ==> d.state.home(u) == c.state.home(u)
    ensures var d := Sleep(c, n, indefinitely); Blocked(d.state.home(c.current))
  {
    if n == MAX_DELAY && indefinitely {
      MoveOk(c, c.current, SuspendedTasks, 1);
    } else {
      SleepTimedOk(c, n);
    }
  }

  lemma FileByTimeWakes(c: Core, t: Task, wake: int)
    requires c.delayed != c.overflow
    ensures WakeOf(FileByTime(c, t, wake), t) == At(c.start + wake + if wake < c.tick then WRAP else 0)
  {
  }

  lemma SleepsForGood(c: Core)
    requires Good(c, 1)
    ensures WakeOf(Sleep(c, MAX_DELAY, true), c.current) == Never
  {
    MoveEndOk(c.state, c.current, SuspendedTasks);
  }

  /** The true wake time of a task that goes to sleep for n ticks is n ticks from now. */
  lemma SleepWakesAfter(c: Core, n: int, indefinitely: bool)
    requires Good(c, 1) && IsReady(c, c.current) && 0 < n <= MAX_DELAY
    ensures WakeOf(Sleep(c, n, indefinitely), c.current) == if n == MAX_DELAY && indefinitely then Never else At(Now(c) + n)
  {
    if n == MAX_DELAY && indefinitely {
      SleepsForGood(c);
    } else {
      FileByTimeWakes(c.(state := Take(c.state, c.current)), c.current, Plus(c.tick, n));
    }
  }

  // ---------------------------------------------------------------------------
  // Waking tasks from the front of a list leaves the rest of it.
  // ---------------------------------------------------------------------------

  lemma TakeHead<L(!new)>(f: Filing<L>, l: L)
    requires Filed(f) && f.at(l).items != []
    ensures f.home(f.at(l).items[0]) == In(l)
    ensures Take(f, f.at(l).items[0]).at(l).items == f.at(l).items[1..]
  {
    assert f.at(l).items[0] in f.at(l).items;
  }

  lemma {:induction false} TakeFront<L(!new)>(f: Filing<L>, l: L, n: nat)
    requires Filed(f) && n <= |f.at(l).items|
    ensures var g, items := TakeAll(f, f.at(l).items[..n]), f.at(l).items;
            Filed(g) && g.at(l).items == items[n..] && forall m :: m != l ==> g.at(m) == f.at(m)
    ensures n > 0 ==> var items := f.at(l).items; TakeAll(f, items[..n]) == Take(TakeAll(f, items[..n - 1]), items[n - 1])
  {
    var items := f.at(l).items;
    if n > 0 {
      TakeFront(f, l, n - 1);
      var g := TakeAll(f, items[..n - 1]);
      assert items[..n][..n - 1] == items[..n - 1];
      TakeHead(g, l);
      TakeOk(g, items[n - 1]);
    }
  }

  lemma WakeHeadLeavesTail(c: Core, slack: int)
    requires Good(c, slack) && Waiting(c) && c.state.at(c.delayed).items != []
    ensures var items := c.state.at(c.delayed).items; WakeTask(c, items[0]).state.at(c.delayed).items == items[1..]
  {
    var t := c.state.at(c.delayed).items[0];
    TakeHead(c.state, c.delayed);
    TakeOk(c.state, t);
    PutEndOk(Take(c.state, t), Ready(c.tcb.prio(t)), t);
  }

  lemma {:induction false} WakePrefixLeavesRest(c: Core, k: nat, slack: int)
    requires Good(c, slack) && Waiting(c) && k <= |c.state.at(c.delayed).items|
    ensures var items := c.state.at(c.delayed).items; WakeAll(c, items[..k]).state.at(c.delayed).items == items[k..]
  {
    var items := c.state.at(c.delayed).items;
    if k > 0 {
      WakePrefixLeavesRest(c, k - 1, slack);
      assert items[..k][..k - 1] == items[..k - 1];
      WakeAllOk(c, items[..k - 1], slack);
      WakeHeadLeavesTail(WakeAll(c, items[..k - 1]), slack);
    }
  }

  lemma {:induction false} FlushPrefixLeavesRest(c: Core, k: nat, slack: int)
    requires Good(c, slack) && Waiting(c) && k <= |c.event.at(PendingReady).items|
    ensures var items := c.event.at(PendingReady).items; WakeAll(c, items[..k]).event.at(PendingReady).items == items[k..]
  {
    var items := c.event.at(PendingReady).items;
    if k > 0 {
      FlushPrefixLeavesRest(c, k - 1, slack);
      assert items[..k][..k - 1] == items[..k - 1];
      WakeAllOk(c, items[..k - 1], slack);
      TakeHead(WakeAll(c, items[..k - 1]).event, PendingReady);
    }
  }

  // ---------------------------------------------------------------------------
  // Ticks.
  // ---------------------------------------------------------------------------

  lemma {:induction false} WakeAllGood(c: Core, ts: seq<Task>, slack: int)
    requires Good(c, slack) && Waiting(c)
    ensures var d := WakeAll(c, ts); Good(d, slack) && Waiting(d)
    decreases |ts|
  {
    if ts != [] {
      var k := |ts| - 1;
      WakeAllGood(c, ts[..k], slack);
      WakeTaskOk(WakeAll(c, ts[..k]), ts[k], slack);
    }
  }

  lemma {:induction false} ReadyAllHome(f: Filing<ListId>, prio: Task -> int, ts: seq<Task>, u: Task)
    requires Filed(f)
    ensures Filed(ReadyAll(f, prio, ts)) && ReadyAll(f, prio, ts).home(u) == if u in ts then In(Ready(prio(u))) else f.home(u)
  {
    if ts != [] {
      var k := |ts| - 1;
      ReadyAllHome(f, prio, ts[..k], u);
      MoveEndOk(ReadyAll(f, prio, ts[..k]), ts[k], Ready(prio(ts[k])));
      assert u in ts <==> u in ts[..k] || u == ts[k];
    }
  }

  lemma {:induction false} TakeAllHome<L(!new)>(f: Filing<L>, ts: seq<Task>, u: Task)
    requires Filed(f)
    ensures Filed(TakeAll(f, ts)) && TakeAll(f, ts).home(u) == if u in ts then Nowhere else f.home(u)
  {
    if ts != [] {
      var k := |ts| - 1;
      TakeAllHome(f, ts[..k], u);
      TakeOk(TakeAll(f, ts[..k]), ts[k]);
      assert u in ts <==> u in ts[..k] || u == ts[k];
    }
  }

  lemma {:induction false} TakeAllFromNobody<L(!new)>(f: Filing<L>, ts: seq<Task>, l: L)
    requires Filed(f) && f.at(l).items == []
    ensures Filed(TakeAll(f, ts)) && TakeAll(f, ts).at(l).items == []
  {
    if ts != [] {
      var k := |ts| - 1;
      TakeAllFromNobody(f, ts[..k], l);
      TakeOk(TakeAll(f, ts[..k]), ts[k]);
      NobodyThere(TakeAll(f, ts[..k]), l, ts[k]);
    }
  }

  lemma WakeAllOk(c: Core, ts: seq<Task>, slack: int)
    requires Good(c, slack) && Waiting(c)
    ensures var d := WakeAll(c, ts); Good(d, slack) && Waiting(d)
    ensures var d := WakeAll(c, ts);
            forall u :: d.state.home(u) == (if u in ts then In(Ready(c.tcb.prio(u))) else c.state.home(u)) &&
                        d.event.home(u) == (if u in ts then Nowhere else c.event.home(u))
    ensures var d := WakeAll(c, ts); c.event.at(PendingReady).items == [] ==> d.event.at(PendingReady).items == []
  {
    WakeAllGood(c, ts, slack);
    var d := WakeAll(c, ts);
    forall u
      ensures d.state.home(u) == (if u in ts then In(Ready(c.tcb.prio(u))) else c.state.home(u)) &&
              d.event.home(u) == (if u in ts then Nowhere else c.event.home(u))
    {
      ReadyAllHome(c.state, c.tcb.prio, ts, u);
      TakeAllHome(c.event, ts, u);
    }
    if c.event.at(PendingReady).items == [] { TakeAllFromNobody(c.event, ts, PendingReady); }
  }

  lemma NobodyThere<L(!new)>(f: Filing<L>, l: L, t: Task)
    requires Filed(f) && f.at(l).items == []
    ensures f.home(t) != In(l) && Take(f, t).at(l).items == []
  {
    assert t !in f.at(l).items;
    TakeOk(f, t);
  }

  lemma {:induction false} FrontIsPrefix(items: seq<Task>, value: Task -> int, tick: int)
    ensures var f := Front(items, value, tick); |f| <= |items| && f == items[..|f|]
    ensures var f := Front(items, value, tick);
            (forall i :: 0 <= i < |f| ==> value(items[i]) <= tick) && (|f| < |items| ==> tick < value(items[|f|]))
  {
    if items != [] && value(items[0]) <= tick {
      FrontIsPrefix(items[1..], value, tick);
      var f := Front(items, value, tick);
      assert forall i :: 0 < i < |f| ==> items[i] == items[1..][i - 1];
    }
  }

  /** The tasks taken from the front of the list are exactly the due ones. */
  lemma DueIsExact(c: Core)
    requires Shape(c)
    ensures forall u :: u in Due(c) <==> c.state.home(u) == In(c.delayed) && c.tcb.value(u) <= c.tick
  {
    var items, due := c.state.at(c.delayed).items, Due(c);
    FrontIsPrefix(items, c.tcb.value, c.tick);
    forall u | c.state.home(u) == In(c.delayed)
      ensures u in due <==> c.tcb.value(u) <= c.tick
    {
      var i := Rings.IndexOf(items, u);
      if i < |due| {
        assert due[i] == u;
      } else {
        assert c.tcb.value(items[|due|]) <= c.tcb.value(items[i]);
      }
    }
    assert forall u :: u in due ==> u in items;
  }

  /** At a wrap the delayed list is empty, as the assertion in taskSWITCH_DELAYED_LISTS says,
    * and swapping the lists changes nobody's wake time. */
  lemma AdvanceOk(c: Core)
    requires Good(c, 1)
    ensures var a := Advance(c); Good(a, 0) && Now(a) == Now(c) + 1
    ensures c.tick + 1 == WRAP ==> c.state.at(c.delayed).items == []
    ensures forall u :: WakeOf(Advance(c), u) == WakeOf(c, u)
  {
    EmptyOrInhabited(c.state, c.delayed);
  }

  lemma TickOk(c: Core)
    requires Good(c, 1) && Waiting(c)
    ensures var d := TickNow(c); Good(d, 1) && Waiting(d) && Now(d) == Now(c) + 1
    ensures var d := TickNow(c); d.tcb.prio == c.tcb.prio && d.current == c.current && d.suspended == c.suspended && d.pended == c.pended &&
                                 d.yieldPending == c.yieldPending
    ensures var d := TickNow(c); c.event.at(PendingReady).items == [] ==> d.event.at(PendingReady).items == []
  {
    AdvanceOk(c);
    var a := Advance(c);
    DueIsExact(a);
    WakeAllOk(a, Due(a), 0);
  }

  lemma DueIsWake(a: Core, u: Task)
    requires Good(a, 0)
    ensures u in Due(a) <==> WakeOf(a, u) == At(Now(a))
  {
    DueIsExact(a);
  }

  /** One tick readies exactly the tasks whose true wake time it reaches. */
  lemma TickIsExact(c: Core, u: Task)
    requires Good(c, 1) && Waiting(c)
    ensures var d := TickNow(c);
            if WakeOf(c, u) == At(Now(c) + 1) then IsReady(d, u) && d.event.home(u) == Nowhere
            else d.state.home(u) == c.state.home(u) && d.event.home(u) == c.event.home(u) && WakeOf(d, u) == WakeOf(c, u)
  {
    AdvanceOk(c);
    var a := Advance(c);
    DueIsWake(a, u);
    ReadyAllHome(a.state, a.tcb.prio, Due(a), u);
    TakeAllHome(a.event, Due(a), u);
  }

  lemma TickedOk(c: Core)
    requires Good(c, 1) && Waiting(c) && c.event.at(PendingReady).items == []
    ensures var d := Ticked(c); Good(d, 1) && Waiting(d) && d.event.at(PendingReady).items == []
    ensures var d := Ticked(c); Now(d) == Now(c) + 1 && d.tcb.prio == c.tcb.prio && d.current == c.current && d.suspended == c.suspended
  {
    TickOk(c);
  }

  lemma {:induction false} TicksOk(c: Core, n: nat)
    requires Good(c, 1) && Waiting(c) && c.event.at(PendingReady).items == []
    ensures var d := TicksNow(c, n); Good(d, 1) && Waiting(d) && d.event.at(PendingReady).items == []
    ensures var d := TicksNow(c, n); Now(d) == Now(c) + n && d.tcb.prio == c.tcb.prio && d.current == c.current && d.suspended == c.suspended
  {
    if n > 0 {
      TicksOk(c, n - 1);
      TickedOk(TicksNow(c, n - 1));
    }
  }

  /** How a task fares when the ticks up to time w are processed. */
  ghost predicate Fares(c: Core, d: Core, u: Task, now: int) {
    if WakeOf(c, u).At? && WakeOf(c, u).time <= now then IsReady(d, u) && d.event.home(u) == Nowhere
    else d.state.home(u) == c.state.home(u) && d.event.home(u) == c.event.home(u) && WakeOf(d, u) == WakeOf(c, u)
  }

  lemma TickedIsExact(c: Core, u: Task)
    requires Good(c, 1) && Waiting(c)
    ensures Fares(c, Ticked(c), u, Now(c) + 1) && Ticked(c).tcb.prio == c.tcb.prio
  {
    TickOk(c);
    TickIsExact(c, u);
    assert WakeOf(c, u).At? ==> WakeOf(c, u).time > Now(c);
  }

  lemma {:induction false} TicksAreExact(c: Core, n: nat, u: Task)
    requires Good(c, 1) && Waiting(c) && c.event.at(PendingReady).items == []
    ensures Fares(c, TicksNow(c, n), u, Now(c) + n)
  {
    if n == 0 {
      assert WakeOf(c, u).At? ==> WakeOf(c, u).time > Now(c);
    } else {
      TicksAreExact(c, n - 1, u);
      TicksOk(c, n - 1);
      TickedIsExact(TicksNow(c, n - 1), u);
    }
  }

  lemma FlushOk(c: Core)
    requires Good(c, 1) && Waiting(c)
    ensures var d := Flush(c); Good(d, 1) && Waiting(d) && d.event.at(PendingReady).items == []
    ensures var d := Flush(c);
            forall u :: if c.event.home(u) == In(PendingReady) then IsReady(d, u) && d.event.home(u) == Nowhere
                        else d.state.home(u) == c.state.home(u) && d.event.home(u) == c.event.home(u)
    ensures var d := Flush(c); d == c.(state := d.state, event := d.event, yieldPending := d.yieldPending)
  {
    var ts := c.event.at(PendingReady).items;
    WakeAllOk(c, ts, 1);
    EmptyOrInhabited(Flush(c).event, PendingReady);
  }

  /** When the outermost resume ends nothing is held back, and the clock has caught up. */
  lemma ResumeOk(c: Core)
    requires Good(c, 1) && Waiting(c)
    ensures var d := ResumeNow(c); Good(d, 1) && Waiting(d) && d.event.at(PendingReady).items == [] && d.pended == 0
    ensures var d := ResumeNow(c); Now(d) == Now(c) + c.pended && d.suspended == c.suspended && d.tcb.prio == c.tcb.prio
  {
    FlushOk(c);
    TicksOk(Flush(c), c.pended);
  }

  /** A task readied while the scheduler was suspended is ready afterwards, moved before a
    * pended tick could time it out; of the others exactly those are woken whose time came
    * in the pended ticks. */
  lemma ResumeIsExact(c: Core, u: Task)
    requires Good(c, 1) && Waiting(c)
    ensures var d := ResumeNow(c);
            if c.event.home(u) == In(PendingReady) || (WakeOf(c, u).At? && WakeOf(c, u).time <= Now(c) + c.pended)
            then IsReady(d, u) && d.event.home(u) == Nowhere
            else d.state.home(u) == c.state.home(u) && d.event.home(u) == c.event.home(u) && WakeOf(d, u) == WakeOf(c, u)
  {
    FlushOk(c);
    TicksOk(Flush(c), c.pended);
    TicksAreExact(Flush(c), c.pended, u);
  }
}
