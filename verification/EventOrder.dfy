/** The order of the event lists that queues use: while nobody changes the priority of a task
  * that waits there, the first on such a list has the highest priority of all that wait. */
module EventOrder {
  import Rings
  import opened TaskLists
  import opened Words
  import opened TaskMachine
  import opened TaskRuns

  function Waiters(c: Core, e: nat): seq<Task> {
    c.event.at(EventList(e)).items
  }

  /** An event item that is not in use for an event group has the value that goes with the
    * priority of its task. */
  ghost predicate ValuesFollow(tcb: Tcbs) {
    forall t :: tcb.eventValue(t) < IN_USE ==> tcb.eventValue(t) == MAX_PRIORITIES - tcb.prio(t)
  }

  ghost predicate Ordered(items: seq<Task>, tcb: Tcbs) {
    SortedBy(items, tcb.eventValue) && forall t :: t in items ==> tcb.eventValue(t) < IN_USE
  }

  ghost predicate InOrder(c: Core, e: nat) {
    ValuesFollow(c.tcb) && Ordered(Waiters(c, e), c.tcb)
  }

  // ---------------------------------------------------------------------------
  // A priority changed while its task waits.
  // ---------------------------------------------------------------------------

  /** The value at index i fits between its neighbours. */
  predicate FitsAt(items: seq<Task>, value: Task -> int, i: nat, v: int)
    requires i < |items|
  {
    && (i > 0 ==> value(items[i - 1]) <= v)
    && (i + 1 < |items| ==> v <= value(items[i + 1]))
  }

  lemma SortedAfterChangeIff(items: seq<Task>, value: Task -> int, i: nat, v: int)
    requires Rings.NoDup(items) && SortedBy(items, value) && i < |items|
    ensures SortedBy(items, Set(value, items[i], v)) <==> FitsAt(items, value, i, v)
  {
    var changed := Set(value, items[i], v);
    assert forall j :: 0 <= j < |items| ==> changed(items[j]) == if j == i then v else value(items[j]);
    if SortedBy(items, changed) {
      assert i > 0 ==> changed(items[i - 1]) <= changed(items[i]);
      assert i + 1 < |items| ==> changed(items[i]) <= changed(items[i + 1]);
    }
  }

  /** The step gives its task, which may be waiting, a new priority. */
  predicate Reprioritises(c: Core, step: Step) {
    match step
    case SetPriority(t, p) => c.tcb.base(t) != Clip(p)
    case Inherit(t) => c.tcb.prio(t) < c.tcb.prio(c.current)
    case DisinheritAfterTimeout(t, _) => c.tcb.prio(t) != Given(c, step) && c.tcb.held(t) == 1
    case _ => false
  }

  /** The priority that the event item of the task is to follow. */
  function Given(c: Core, step: Step): int {
    match step
    case SetPriority(t, p) => Clip(p)
    case DisinheritAfterTimeout(t, p) => if c.tcb.base(t) < p then p else c.tcb.base(t)
    case _ => c.tcb.prio(c.current)
  }

  lemma ChangeSetsValue(c: Core, step: Step)
    requires Enabled(c, step) && Reprioritises(c, step) && c.tcb.eventValue(step.t) < IN_USE
    ensures var d := Apply(c, step); d.event == c.event && d.tcb.eventValue == Set(c.tcb.eventValue, step.t, MAX_PRIORITIES - Given(c, step))
  {
  }

  /** The three steps that change the priority of a task that may be on a sorted event list leave it
    * where it is: the list stays sorted if and only if the new value fits between the neighbours. */
  lemma PriorityChangeKeepsOrderIff(c: Core, step: Step, e: nat)
    requires Inv(c) && Enabled(c, step) && Reprioritises(c, step) && c.tcb.eventValue(step.t) < IN_USE
    requires c.event.home(step.t) == In(EventList(e)) && SortedBy(Waiters(c, e), c.tcb.eventValue)
    ensures var items, d := Waiters(c, e), Apply(c, step);
            && step.t in items && Waiters(d, e) == items
            && (SortedBy(items, d.tcb.eventValue) <==>
                FitsAt(items, c.tcb.eventValue, Rings.IndexOf(items, step.t), MAX_PRIORITIES - Given(c, step)))
  {
    var items := Waiters(c, e);
    assert step.t in items;
    ChangeSetsValue(c, step);
    SortedAfterChangeIff(items, c.tcb.eventValue, Rings.IndexOf(items, step.t), MAX_PRIORITIES - Given(c, step));
  }

  // ---------------------------------------------------------------------------
  // Runs in which the list is used as queues use it.
  // ---------------------------------------------------------------------------

  /** The step does not change the priority of a task on list e, or to one that fits there. */
  predicate Fits(c: Core, step: Step, e: nat)
    requires step.SetPriority? || step.Inherit? || step.DisinheritAfterTimeout?
  {
    var items := Waiters(c, e);
    step.t in items && Reprioritises(c, step) ==>
      FitsAt(items, c.tcb.eventValue, Rings.IndexOf(items, step.t), MAX_PRIORITIES - Given(c, step))
  }

  /** Event list e is used by queues only, by tasks whose event item is free; a priority given to a
    * task on it fits where the task is; and no priority is set below an inherited one. */
  predicate Undisturbed(c: Core, step: Step, e: nat) {
    match step
    case WaitOn(f, _) => f == e ==> c.tcb.eventValue(c.current) < IN_USE
    case WaitUnordered(f, _, _) => f != e
    case SetPriority(t, _) => Fits(c, step, e) && c.tcb.base(t) == c.tcb.prio(t)
    case Inherit(_) => Fits(c, step, e)
    case DisinheritAfterTimeout(_, _) => Fits(c, step, e)
    case _ => true
  }

  ghost predicate UndisturbedRun(c: Core, steps: seq<Step>, e: nat)
    decreases |steps|
  {
    steps == [] || (Enabled(c, steps[0]) && Undisturbed(c, steps[0], e) && UndisturbedRun(Apply(c, steps[0]), steps[1..], e))
  }

  // ---------------------------------------------------------------------------
  // What can happen to the list.
  // ---------------------------------------------------------------------------

  /** Some leave, the others keep order and values. */
  lemma FewerStayOrdered(before: seq<Task>, tcb: Tcbs, after: seq<Task>, tcb': Tcbs)
    requires Ordered(before, tcb) && SortedBy(after, tcb.eventValue)
    requires forall t :: t in after ==> t in before && tcb'.eventValue(t) == tcb.eventValue(t)
    ensures Ordered(after, tcb')
  {
    SortedFrame(after, tcb.eventValue, tcb'.eventValue);
  }

  lemma TakeKeepsMembers<L(!new)>(f: Filing<L>, t: Task, l: L)
    requires Filed(f)
    ensures forall u :: u in Take(f, t).at(l).items <==> u in f.at(l).items && u != t
  {
    TakeOk(f, t);
    forall u
      ensures u in Take(f, t).at(l).items <==> u in f.at(l).items && u != t
    {
      assert u in Take(f, t).at(l).items <==> Take(f, t).home(u) == In(l);
      assert u in f.at(l).items <==> f.home(u) == In(l);
    }
  }

  lemma TakeKeepsOrder(f: Filing<EventId>, t: Task, e: nat, tcb: Tcbs, tcb': Tcbs)
    requires Filed(f) && Ordered(f.at(EventList(e)).items, tcb)
    requires forall u :: u != t ==> tcb'.eventValue(u) == tcb.eventValue(u)
    ensures Filed(Take(f, t)) && Ordered(Take(f, t).at(EventList(e)).items, tcb')
  {
    TakeOk(f, t);
    TakeKeepsMembers(f, t, EventList(e));
    TakeStaysSorted(f, t, EventList(e), tcb.eventValue);
    FewerStayOrdered(f.at(EventList(e)).items, tcb, Take(f, t).at(EventList(e)).items, tcb');
  }

  lemma {:induction false} TakeAllKeepsOrder(f: Filing<EventId>, ts: seq<Task>, e: nat, tcb: Tcbs)
    requires Filed(f) && Ordered(f.at(EventList(e)).items, tcb)
    ensures Filed(TakeAll(f, ts)) && Ordered(TakeAll(f, ts).at(EventList(e)).items, tcb)
  {
    if ts != [] {
      var k := |ts| - 1;
      TakeAllKeepsOrder(f, ts[..k], e, tcb);
      TakeKeepsOrder(TakeAll(f, ts[..k]), ts[k], e, tcb, tcb);
    }
  }

  /** Only the values of others change. */
  lemma OthersKeepOrder(c: Core, e: nat, t: Task, tcb: Tcbs)
    requires Filed(c.event) && Ordered(Waiters(c, e), c.tcb) && c.event.home(t) != In(EventList(e))
    requires forall u :: u != t ==> tcb.eventValue(u) == c.tcb.eventValue(u)
    ensures Ordered(Waiters(c, e), tcb)
  {
    assert t !in Waiters(c, e);
    SortedFrame(Waiters(c, e), c.tcb.eventValue, tcb.eventValue);
  }

  // ---------------------------------------------------------------------------
  // Every undisturbed step keeps the order.
  // ---------------------------------------------------------------------------

  lemma WakeAllKeepsOrder(c: Core, ts: seq<Task>, e: nat)
    requires Filed(c.event) && InOrder(c, e)
    ensures InOrder(WakeAll(c, ts), e)
  {
    TakeAllKeepsOrder(c.event, ts, e, c.tcb);
  }

  lemma TickedKeepsOrder(c: Core, e: nat)
    requires Filed(c.event) && InOrder(c, e)
    ensures InOrder(Ticked(c), e) && InOrder(TickNow(c), e)
  {
    WakeAllKeepsOrder(Advance(c), Due(Advance(c)), e);
  }

  lemma {:induction false} TicksKeepOrder(c: Core, n: nat, e: nat)
    requires Good(c, 1) && TaskMachine.Waiting(c) && c.event.at(PendingReady).items == [] && InOrder(c, e)
    ensures Filed(TicksNow(c, n).event) && InOrder(TicksNow(c, n), e)
  {
    if n > 0 {
      TicksKeepOrder(c, n - 1, e);
      TicksOk(c, n);
      TickedKeepsOrder(TicksNow(c, n - 1), e);
    }
  }

  lemma ResumeKeepsOrder(c: Core, e: nat)
    requires Good(c, 1) && TaskMachine.Waiting(c) && InOrder(c, e)
    ensures InOrder(ResumeNow(c), e)
  {
    WakeAllKeepsOrder(c, c.event.at(PendingReady).items, e);
    FlushOk(c);
    TicksKeepOrder(Flush(c), c.pended, e);
  }

  lemma TimeKeepsOrder(c: Core, step: Step, e: nat)
    requires Inv(c) && Enabled(c, step) && IsTime(step) && InOrder(c, e)
    ensures InOrder(ApplyTime(c, step), e)
  {
    match step
    case Tick => TickedKeepsOrder(c, e);
    case SuspendAll =>
    case ResumeAll => if c.suspended == 1 { ResumeKeepsOrder(c.(suspended := 0), e); }
    case SwitchContext =>
  }

  lemma QueuedKeepsOrder(c: Core, e: nat, f: nat)
    requires Inv(c) && InOrder(c, e) && c.event.home(c.current) == Nowhere && (f == e ==> c.tcb.eventValue(c.current) < IN_USE)
    ensures InOrder(Queued(c, f), e)
  {
    var d := Queued(c, f);
    PutSortedOk(c.event, EventList(f), c.current, c.tcb.eventValue);
    if f == e {
      PutSortedSorts(c.event, EventList(e), c.current, c.tcb.eventValue);
      forall t | t in Waiters(d, e)
        ensures c.tcb.eventValue(t) < IN_USE
      {
        assert d.event.home(t) == In(EventList(e));
        assert t != c.current ==> c.event.home(t) == In(EventList(e));
      }
    }
  }

  lemma AppendedKeepsOrder(c: Core, e: nat, f: nat, v: int)
    requires Inv(c) && InOrder(c, e) && c.event.home(c.current) == Nowhere && f != e && 0 <= v
    ensures InOrder(Appended(c, f, v), e)
  {
    PutEndOk(c.event, EventList(f), c.current);
    OthersKeepOrder(c, e, c.current, Appended(c, f, v).tcb);
  }

  lemma SleepKeepsOrder(c: Core, n: int, indefinitely: bool, e: nat)
    requires 0 <= c.tick < WRAP && 0 < n <= MAX_DELAY && InOrder(c, e)
    ensures InOrder(Sleep(c, n, indefinitely), e)
  {
  }

  lemma WaitKeepsOrder(c: Core, step: Step, e: nat)
    requires Inv(c) && Enabled(c, step) && IsWait(step) && Undisturbed(c, step, e) && InOrder(c, e)
    ensures InOrder(ApplyWaits(c, step), e)
  {
    match step
    case Delay(n) => SleepKeepsOrder(c, n, false, e);
    case WaitOn(f, n) =>
      QueuedKeepsOrder(c, e, f);
      SleepKeepsOrder(Queued(c, f), n, true, e);
    case WaitUnordered(f, v, n) =>
      AppendedKeepsOrder(c, e, f, v);
      SleepKeepsOrder(Appended(c, f, v), n, true, e);
  }

  lemma WakeFirstKeepsOrder(c: Core, f: nat, e: nat)
    requires Inv(c) && Waiters(c, f) != [] && InOrder(c, e)
    ensures InOrder(ApplyWakes(c, WakeFirst(f)), e)
  {
    var t := Waiters(c, f)[0];
    TakeKeepsOrder(c.event, t, e, c.tcb, c.tcb);
  }

  lemma WakeKeepsOrder(c: Core, step: Step, e: nat)
    requires Inv(c) && Enabled(c, step) && IsWake(step) && InOrder(c, e)
    ensures InOrder(ApplyWakes(c, step), e)
  {
    match step
    case WakeFirst(f) => WakeFirstKeepsOrder(c, f, e);
    case WakeOne(t, v) => TakeKeepsOrder(c.event, t, e, c.tcb, ApplyWakes(c, step).tcb);
    case Suspend(t) => TakeKeepsOrder(c.event, t, e, c.tcb, c.tcb);
    case Resume(_) =>
    case ResumeFromISR(_) =>
  }

  lemma LifeKeepsOrder(c: Core, step: Step, e: nat)
    requires Inv(c) && Enabled(c, step) && IsLife(step) && InOrder(c, e)
    ensures InOrder(ApplyLives(c, step), e)
  {
    match step
    case Create(t, _) => OthersKeepOrder(c, e, t, ApplyLives(c, step).tcb);
    case Delete(t) => TakeKeepsOrder(c.event, t, e, c.tcb, c.tcb);
    case Reap =>
  }

  lemma PriorityKeepsValues(c: Core, step: Step, e: nat)
    requires Inv(c) && Enabled(c, step) && IsPriority(step) && Undisturbed(c, step, e) && ValuesFollow(c.tcb)
    ensures ValuesFollow(ApplyPriorities(c, step).tcb)
  {
  }

  lemma OwnPriorityKeepsOrder(c: Core, step: Step, e: nat)
    requires Inv(c) && Enabled(c, step) && (step.ResetEventValue? || step.Disinherit?) && Ordered(Waiters(c, e), c.tcb)
    ensures Ordered(Waiters(ApplyPriorities(c, step), e), ApplyPriorities(c, step).tcb)
  {
    OthersKeepOrder(c, e, c.current, ApplyPriorities(c, step).tcb);
  }

  lemma ChangeLeavesOthers(c: Core, step: Step)
    requires Enabled(c, step) && (step.SetPriority? || step.Inherit? || step.DisinheritAfterTimeout?)
    ensures var d := ApplyPriorities(c, step);
            && d.event == c.event && (forall u :: u != step.t ==> d.tcb.eventValue(u) == c.tcb.eventValue(u))
            && (!Reprioritises(c, step) ==> d.tcb.eventValue == c.tcb.eventValue)
  {
  }

  lemma FittingKeepsOrder(c: Core, step: Step, e: nat)
    requires Inv(c) && Enabled(c, step) && (step.SetPriority? || step.Inherit? || step.DisinheritAfterTimeout?)
    requires Fits(c, step, e) && Ordered(Waiters(c, e), c.tcb)
    ensures Ordered(Waiters(ApplyPriorities(c, step), e), ApplyPriorities(c, step).tcb)
  {
    ChangeLeavesOthers(c, step);
    if c.event.home(step.t) != In(EventList(e)) {
      OthersKeepOrder(c, e, step.t, ApplyPriorities(c, step).tcb);
    } else if Reprioritises(c, step) {
      PriorityChangeKeepsOrderIff(c, step, e);
      ChangeSetsValue(c, step);
    }
  }

  lemma PriorityKeepsOrder(c: Core, step: Step, e: nat)
    requires Inv(c) && Enabled(c, step) && IsPriority(step) && Undisturbed(c, step, e) && InOrder(c, e)
    ensures InOrder(ApplyPriorities(c, step), e)
  {
    PriorityKeepsValues(c, step, e);
    if step.ResetEventValue? || step.Disinherit? {
      OwnPriorityKeepsOrder(c, step, e);
    } else if !step.TakeMutex? {
      FittingKeepsOrder(c, step, e);
    }
  }

  lemma StepKeepsOrder(c: Core, step: Step, e: nat)
    requires Inv(c) && Enabled(c, step) && Undisturbed(c, step, e) && InOrder(c, e)
    ensures InOrder(Apply(c, step), e)
  {
    if IsTime(step) {
      TimeKeepsOrder(c, step, e);
    } else if IsWait(step) {
      WaitKeepsOrder(c, step, e);
    } else if IsWake(step) {
      WakeKeepsOrder(c, step, e);
    } else if IsLife(step) {
      LifeKeepsOrder(c, step, e);
    } else {
      PriorityKeepsOrder(c, step, e);
    }
  }

  lemma {:induction false} RunKeepsOrder(c: Core, steps: seq<Step>, end: Core, e: nat)
    requires Inv(c) && InOrder(c, e) && Run(c, steps, end) && UndisturbedRun(c, steps, e)
    ensures Inv(end) && InOrder(end, e)
    decreases |steps|
  {
    if steps != [] {
      StepKeepsInv(c, steps[0]);
      StepKeepsOrder(c, steps[0], e);
      RunKeepsOrder(Apply(c, steps[0]), steps[1..], end, e);
    }
  }

  lemma SortedByPriority(items: seq<Task>, tcb: Tcbs, i: nat, j: nat)
    requires ValuesFollow(tcb) && Ordered(items, tcb) && i <= j < |items|
    ensures tcb.prio(items[i]) >= tcb.prio(items[j])
  {
    assert items[i] in items && items[j] in items;
  }

  /** In every such run the list is sorted by priority, highest first: the task that the next
    * event wakes has at least the priority of every other that waits for it. */
  lemma FirstIsHighest(idle: Task, steps: seq<Step>, end: Core, e: nat)
    requires Run(Start(idle), steps, end) && UndisturbedRun(Start(idle), steps, e)
    ensures var items := Waiters(end, e);
            forall i, j :: 0 <= i < j < |items| ==> end.tcb.prio(items[i]) >= end.tcb.prio(items[j])
    ensures forall t :: end.event.home(t) == In(EventList(e)) ==>
                        Waiters(end, e) != [] && end.tcb.prio(t) <= end.tcb.prio(Waiters(end, e)[0])
  {
    StartOk(idle);
    RunKeepsOrder(Start(idle), steps, end, e);
    var items := Waiters(end, e);
    forall i, j | 0 <= i < j < |items|
      ensures end.tcb.prio(items[i]) >= end.tcb.prio(items[j])
    {
      SortedByPriority(items, end.tcb, i, j);
    }
    forall t | end.event.home(t) == In(EventList(e))
      ensures items != [] && end.tcb.prio(t) <= end.tcb.prio(items[0])
    {
      assert t in items;
      SortedByPriority(items, end.tcb, 0, Rings.IndexOf(items, t));
    }
  }
}
