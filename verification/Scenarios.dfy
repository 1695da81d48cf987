/** Runs of the scheduler, from its start, to states in which the code does not keep what one
  * would expect of it. */
module Scenarios {
  import Rings
  import opened TaskLists
  import opened Words
  import opened TaskMachine
  import opened TaskCards
  import opened TaskRuns
  import EventOrder
  import Scheduler

  // ---------------------------------------------------------------------------
  // Runs, one step at a time.
  // ---------------------------------------------------------------------------

  predicate Runnable(k: Card) {
    k.state == In(Ready(k.prio))
  }

  predicate Gone(k: Card) {
    k.state == Nowhere && k.event == Nowhere && k.wake == Never
  }

  ghost predicate Reached(c: Core) {
    exists steps :: Run(Start(Task(0)), steps, c)
  }

  lemma ReachedOk(c: Core)
    requires Reached(c)
    ensures Inv(c)
  {
    StartOk(Task(0));
    var steps :| Run(Start(Task(0)), steps, c);
    RunKeepsInv(Start(Task(0)), steps, c);
  }

  lemma StartIsReached() returns (c: Core)
    ensures Reached(c) && RestOf(c) == Rest(0, Task(0), 0, 0, false) && c.event.at(EventList(0)).items == []
    ensures CardOf(c, Task(0)) == Fresh(0) && forall u :: u != Task(0) ==> Gone(CardOf(c, u))
  {
    c := Start(Task(0));
    assert Run(Start(Task(0)), [], Start(Task(0)));
  }

  lemma {:induction false} RunExtends(c: Core, steps: seq<Step>, end: Core, step: Step)
    requires Run(c, steps, end) && Enabled(end, step)
    ensures Run(c, steps + [step], Apply(end, step))
    decreases |steps|
  {
    if steps == [] {
      assert [step][1..] == [];
      assert Run(Apply(c, step), [], Apply(end, step));
    } else {
      RunExtends(Apply(c, steps[0]), steps[1..], end, step);
      assert (steps + [step])[1..] == steps[1..] + [step];
    }
  }

  lemma Go(c: Core, step: Step) returns (d: Core)
    requires Reached(c) && Enabled(c, step)
    ensures d == Apply(c, step) && Reached(d)
  {
    d := Apply(c, step);
    var steps :| Run(Start(Task(0)), steps, c);
    RunExtends(Start(Task(0)), steps, c, step);
    assert Run(Start(Task(0)), steps + [step], d);
  }

  ghost predicate SameCards(c: Core, d: Core) {
    forall u :: CardOf(d, u) == CardOf(c, u)
  }

  ghost predicate OthersSame(c: Core, d: Core, t: Task) {
    forall u :: u != t ==> CardOf(d, u) == CardOf(c, u)
  }

  lemma Creates(c: Core, t: Task, p: int) returns (d: Core)
    requires Reached(c) && Gone(CardOf(c, t)) && 0 <= p < MAX_PRIORITIES
    ensures Reached(d) && CardOf(d, t) == Fresh(p) && OthersSame(c, d, t) && RestOf(d) == RestOf(c) && d.event == c.event
  {
    ReachedOk(c);
    d := Go(c, Create(t, p));
    CreateCard(c, t, p, t);
    forall u
      ensures u != t ==> CardOf(d, u) == CardOf(c, u)
    {
      CreateCard(c, t, p, u);
    }
  }

  lemma TheHighestIsPicked(c: Core, t: Task)
    requires Inv(c) && c.suspended == 0 && Runnable(CardOf(c, t))
    requires forall u :: u != t && Runnable(CardOf(c, u)) ==> CardOf(c, u).prio < CardOf(c, t).prio
    ensures Enabled(c, SwitchContext) && Apply(c, SwitchContext).current == t
  {
    assert t in c.state.at(Ready(c.tcb.prio(t))).items;
    var d := Apply(c, SwitchContext);
    SwitchPicksTheHighest(c);
    assert d.state.home(d.current) == CardOf(c, d.current).state && IsReady(d, t);
  }

  lemma Switches(c: Core, t: Task) returns (d: Core)
    requires Reached(c) && c.suspended == 0 && Runnable(CardOf(c, t))
    requires forall u :: u != t && Runnable(CardOf(c, u)) ==> CardOf(c, u).prio < CardOf(c, t).prio
    ensures Reached(d) && SameCards(c, d) && RestOf(d) == RestOf(c).(current := t, yieldPending := false) && d.event == c.event
  {
    ReachedOk(c);
    TheHighestIsPicked(c, t);
    d := Go(c, SwitchContext);
    forall u
      ensures CardOf(d, u) == CardOf(c, u)
    {
      SwitchContextCard(c, u);
    }
  }

  lemma TakesMutex(c: Core) returns (d: Core)
    requires Reached(c)
    ensures Reached(d) && CardOf(d, c.current) == CardOf(c, c.current).(held := c.tcb.held(c.current) + 1)
    ensures OthersSame(c, d, c.current) && RestOf(d) == RestOf(c)
  {
    d := Go(c, TakeMutex);
  }

  lemma Suspends(c: Core) returns (d: Core)
    requires Reached(c) && c.suspended == 0
    ensures Reached(d) && SameCards(c, d) && RestOf(d) == RestOf(c).(suspended := 1) && d.event == c.event && d.tcb == c.tcb
  {
    d := Go(c, SuspendAll);
  }

  lemma Waits(c: Core, e: nat, n: int) returns (d: Core)
    requires Reached(c) && Runnable(CardOf(c, c.current)) && CardOf(c, c.current).event == Nowhere && 0 < n <= MAX_DELAY
    ensures Reached(d) && OthersSame(c, d, c.current) && RestOf(d) == RestOf(c) && Blocked(CardOf(d, c.current).state)
    ensures CardOf(d, c.current) == CardOf(c, c.current).(state := CardOf(d, c.current).state, event := In(EventList(e)), wake := WaitsUntil(c, n))
    ensures d.event == Queued(c, e).event
  {
    ReachedOk(c);
    d := Go(c, WaitOn(e, n));
    WaitOnCard(c, e, n, c.current);
    forall u | u != c.current
      ensures CardOf(d, u) == CardOf(c, u)
    {
      WaitOnCard(c, e, n, u);
    }
  }

  lemma ResumeDoesNothing(c: Core)
    requires Inv(c) && c.suspended == 1 && c.pended == 0 && c.event.at(PendingReady).items == []
    ensures Apply(c, ResumeAll) == c.(suspended := 0)
  {
    var d := c.(suspended := 0);
    assert Flush(d) == d;
    assert TicksNow(d, 0) == d;
  }

  lemma NobodyIsHeldBack(c: Core)
    requires Inv(c) && forall u :: CardOf(c, u).event != In(PendingReady)
    ensures c.event.at(PendingReady).items == []
  {
    assert forall u :: c.event.home(u) == CardOf(c, u).event;
    EmptyOrInhabited(c.event, PendingReady);
  }

  lemma ResumeIsReached(c: Core)
    requires Reached(c) && c.suspended == 1 && c.pended == 0 && forall u :: CardOf(c, u).event != In(PendingReady)
    ensures Reached(c.(suspended := 0))
  {
    assert Apply(c, ResumeAll) == c.(suspended := 0) by {
      ReachedOk(c);
      NobodyIsHeldBack(c);
      ResumeDoesNothing(c);
    }
    var d := Go(c, ResumeAll);
  }

  /** Nothing happened while the scheduler was suspended. */
  lemma Resumes(c: Core) returns (d: Core)
    requires Reached(c) && c.suspended == 1 && c.pended == 0 && forall u :: CardOf(c, u).event != In(PendingReady)
    ensures Reached(d) && SameCards(c, d) && RestOf(d) == RestOf(c).(suspended := 0) && d.event == c.event
  {
    ResumeIsReached(c);
    d := c.(suspended := 0);
  }

  lemma Raises(c: Core, t: Task) returns (d: Core)
    requires Reached(c) && CardOf(c, t).prio < CardOf(c, c.current).prio && Runnable(CardOf(c, t)) && CardOf(c, t).eventValue < IN_USE
    ensures var p := CardOf(c, c.current).prio; CardOf(d, t) == CardOf(c, t).(state := In(Ready(p)), eventValue := MAX_PRIORITIES - p, prio := p)
    ensures Reached(d) && OthersSame(c, d, t) && RestOf(d) == RestOf(c)
  {
    ReachedOk(c);
    d := Go(c, Inherit(t));
    forall u
      ensures u != t ==> CardOf(d, u) == CardOf(c, u)
    {
      InheritCard(c, t, u);
    }
    InheritCard(c, t, t);
  }

  /** The priority of a blocked task is set. */
  lemma SetsPriority(c: Core, t: Task, p: int) returns (d: Core)
    requires Reached(c) && Blocked(CardOf(c, t).state) && CardOf(c, t).eventValue < IN_USE
    requires CardOf(c, t).prio == CardOf(c, t).base != p && 0 <= p < MAX_PRIORITIES
    ensures Reached(d) && OthersSame(c, d, t) && RestOf(d) == RestOf(c)
    ensures CardOf(d, t) == CardOf(c, t).(eventValue := MAX_PRIORITIES - p, prio := p, base := p)
  {
    ReachedOk(c);
    d := Go(c, SetPriority(t, p));
    forall u
      ensures u != t ==> CardOf(d, u) == CardOf(c, u)
    {
      SetPriorityCard(c, t, p, u);
    }
    SetPriorityCard(c, t, p, t);
  }

  /** The time of one task comes. */
  lemma Ticks(c: Core, t: Task) returns (d: Core)
    requires Reached(c) && c.suspended == 0 && CardOf(c, t).wake == At(Now(c) + 1)
    requires forall u :: u != t ==> CardOf(c, u).wake == Never
    ensures Reached(d) && CardOf(d, t) == CardOf(c, t).(state := In(Ready(CardOf(c, t).prio)), event := Nowhere, wake := Never)
    ensures OthersSame(c, d, t) && d.current == c.current && d.suspended == 0
  {
    ReachedOk(c);
    d := Go(c, Tick);
    TickCard(c, t);
    forall u | u != t
      ensures CardOf(d, u) == CardOf(c, u)
    {
      assert CardOf(c, u).wake == Never;
      TickCard(c, u);
    }
  }

  // ---------------------------------------------------------------------------
  // A priority disinherited after a time-out leaves a bit set.
  // ---------------------------------------------------------------------------

  /** Only tasks 0 (idle), 1 and 2 exist, and task 0 is ready. */
  ghost predicate Three(c: Core, one: Card, two: Card) {
    && CardOf(c, Task(0)) == Fresh(0) && CardOf(c, Task(1)) == one && CardOf(c, Task(2)) == two
    && forall u: Task :: u.id > 2 ==> Gone(CardOf(c, u))
  }

  lemma SwitchesTo(c: Core, t: Task, one: Card, two: Card) returns (d: Core)
    requires Reached(c) && c.suspended == 0 && Three(c, one, two)
    requires if t == Task(1) then Outranks(one, two) else t == Task(2) && Outranks(two, one)
    ensures Reached(d) && Three(d, one, two) && RestOf(d) == RestOf(c).(current := t, yieldPending := false)
  {
    forall u | u != t && Runnable(CardOf(c, u))
      ensures CardOf(c, u).prio < CardOf(c, t).prio
    {
      assert u == Task(0) || u == Task(1) || u == Task(2) || u.id > 2;
    }
    d := Switches(c, t);
  }

  predicate Outranks(k: Card, other: Card) {
    Runnable(k) && k.prio > 0 && (Runnable(other) ==> other.prio < k.prio)
  }

  predicate AtRest(c: Core, current: Task) {
    RestOf(c) == Rest(0, current, 0, 0, false)
  }

  /** Task 1 of priority 1 takes the mutex. */
  lemma MutexIsTaken() returns (c: Core)
    ensures Reached(c) && AtRest(c, Task(1)) && CardOf(c, Task(0)) == Fresh(0) && CardOf(c, Task(1)) == Fresh(1).(held := 1)
    ensures forall u: Task :: u.id > 1 ==> Gone(CardOf(c, u))
  {
    c := StartIsReached();
    c := Creates(c, Task(1), 1);
    c := Switches(c, Task(1));
    c := TakesMutex(c);
  }

  /** Task 2 of priority 2 is created, runs, and lends its priority. */
  lemma PriorityIsLent() returns (c: Core)
    ensures Reached(c) && RestOf(c) == Rest(0, Task(2), 1, 0, false) && Three(c, Fresh(2).(base := 1, held := 1), Fresh(2))
  {
    c := MutexIsTaken();
    c := Creates(c, Task(2), 2);
    c := SwitchesTo(c, Task(2), Fresh(1).(held := 1), Fresh(2));
    c := Suspends(c);
    c := Raises(c, Task(1));
  }

  /** The card of task 2 of priority p while it waits for the mutex. */
  function WaitingCard(l: ListId, p: int): Card {
    Fresh(p).(state := In(l), event := In(EventList(0)), wake := At(1))
  }

  /** Task 2 blocks for one tick, and task 1 runs. */
  lemma MutexIsWaitedFor() returns (c: Core, l: ListId)
    ensures Reached(c) && AtRest(c, Task(1)) && Blocked(In(l)) && Three(c, Fresh(2).(base := 1, held := 1), WaitingCard(l, 2))
  {
    c := PriorityIsLent();
    c := Waits(c, 0, 1);
    l := CardOf(c, Task(2)).state.list;
    c := Resumes(c);
    c := SwitchesTo(c, Task(1), Fresh(2).(base := 1, held := 1), WaitingCard(l, 2));
  }

  /** Task 1 sets the priority of task 2 to 3. */
  lemma WaiterIsRaised() returns (c: Core, l: ListId)
    ensures Reached(c) && AtRest(c, Task(1)) && Blocked(In(l)) && Three(c, Fresh(2).(base := 1, held := 1), WaitingCard(l, 3))
  {
    c, l := MutexIsWaitedFor();
    c := SetsPriority(c, Task(2), 3);
  }

  /** The wait times out, and task 2 runs. */
  lemma WaitTimesOut() returns (c: Core)
    ensures Reached(c) && c.current == Task(2) && c.suspended == 0 && Three(c, Fresh(2).(base := 1, held := 1), Fresh(3))
  {
    var l: ListId;
    c, l := WaiterIsRaised();
    c := Ticks(c, Task(2));
    c := SwitchesTo(c, Task(2), Fresh(2).(base := 1, held := 1), Fresh(3));
  }

  lemma OnlyOne<L(!new)>(f: Filing<L>, l: L, t: Task)
    requires Filed(f) && f.home(t) == In(l) && forall u :: u != t ==> f.home(u) != In(l)
    ensures |f.at(l).items| == 1
  {
    NoDupSize(f.at(l).items);
    assert Members(f.at(l).items) == {t};
  }

  lemma AloneAtItsPriority(c: Core, t: Task)
    requires Inv(c) && Runnable(CardOf(c, t)) && forall u :: u != t ==> CardOf(c, u).state != CardOf(c, t).state
    ensures |c.state.at(Ready(c.tcb.prio(t))).items| == 1
  {
    assert forall u :: c.state.home(u) == CardOf(c, u).state;
    OnlyOne(c.state, Ready(c.tcb.prio(t)), t);
  }

  lemma NobodyWaits(c: Core, e: nat)
    requires Inv(c) && forall u :: CardOf(c, u).event != In(EventList(e))
    ensures c.event.at(EventList(e)).items == []
  {
    assert forall u :: c.event.home(u) == CardOf(c, u).event;
    EmptyOrInhabited(c.event, EventList(e));
  }

  lemma MayDisinherit(c: Core)
    requires Inv(c) && Three(c, Fresh(2).(base := 1, held := 1), Fresh(3))
    ensures Enabled(c, DisinheritAfterTimeout(Task(1), 0)) && Scheduler.LeavesAStaleBit(c, Task(1), 0)
    ensures c.event.at(EventList(0)).items == []
  {
    assert CardOf(c, Task(1)).prio == 2;
    AloneAtItsPriority(c, Task(1));
    NobodyWaits(c, 0);
  }

  /** A run after which the task whose wait for the mutex timed out disinherits its holder, and
    * the holder is alone on the ready list that it leaves. */
  lemma AStaleBitIsReached() returns (c: Core)
    ensures Reached(c) && Enabled(c, DisinheritAfterTimeout(Task(1), 0)) && Scheduler.LeavesAStaleBit(c, Task(1), 0)
    ensures c.current == Task(2) && c.event.at(EventList(0)).items == []
  {
    c := WaitTimesOut();
    ReachedOk(c);
    MayDisinherit(c);
  }

  // ---------------------------------------------------------------------------
  // A waiter whose priority is raised is left behind.
  // ---------------------------------------------------------------------------

  /** Tasks 0 (idle) and 3 are ready, and the other two are as given. */
  ghost predicate Four(c: Core, one: Card, two: Card) {
    && CardOf(c, Task(0)) == Fresh(0) && CardOf(c, Task(1)) == one && CardOf(c, Task(2)) == two && CardOf(c, Task(3)) == Fresh(1)
    && forall u: Task :: u.id > 3 ==> Gone(CardOf(c, u))
  }

  lemma SwitchesToTheHighest(c: Core, t: Task, one: Card, two: Card) returns (d: Core)
    requires Reached(c) && c.suspended == 0 && Four(c, one, two) && Runnable(CardOf(c, t)) && 0 < t.id <= 3
    requires t != Task(1) && Runnable(one) ==> one.prio < CardOf(c, t).prio
    requires t != Task(2) && Runnable(two) ==> two.prio < CardOf(c, t).prio
    requires t != Task(3) ==> 1 < CardOf(c, t).prio
    ensures Reached(d) && Four(d, one, two) && RestOf(d) == RestOf(c).(current := t, yieldPending := false) && d.event == c.event
  {
    forall u | u != t && Runnable(CardOf(c, u))
      ensures CardOf(c, u).prio < CardOf(c, t).prio
    {
      assert u == Task(0) || u == Task(1) || u == Task(2) || u == Task(3) || u.id > 3;
    }
    d := Switches(c, t);
  }

  /** The card of a task of priority p that waits without a time limit. */
  function Waiter(l: ListId, p: int): Card {
    Fresh(p).(state := In(l), event := In(EventList(0)))
  }

  lemma ThreeAreCreated() returns (c: Core)
    ensures Reached(c) && AtRest(c, Task(0)) && Four(c, Fresh(3), Fresh(2)) && c.event.at(EventList(0)).items == []
  {
    c := StartIsReached();
    c := Creates(c, Task(1), 3);
    c := Creates(c, Task(2), 2);
    c := Creates(c, Task(3), 1);
  }

  /** The running task waits on event list 0 without a time limit. */
  lemma WaitsForever(c: Core) returns (d: Core)
    requires Reached(c) && c.suspended == 0 && c.pended == 0 && Runnable(CardOf(c, c.current))
    requires forall u :: CardOf(c, u).event == Nowhere || CardOf(c, u).event == In(EventList(0))
    requires CardOf(c, c.current).event == Nowhere && CardOf(c, c.current).wake == Never
    ensures Reached(d) && OthersSame(c, d, c.current) && RestOf(d) == RestOf(c) && d.event == Queued(c, 0).event
    ensures var k := CardOf(d, c.current); Blocked(k.state) && k == CardOf(c, c.current).(state := k.state, event := In(EventList(0)))
  {
    var b := Suspends(c);
    d := Waits(b, 0, MAX_DELAY);
    forall u
      ensures CardOf(d, u).event != In(PendingReady)
    {
      assert u != c.current ==> CardOf(d, u) == CardOf(b, u) == CardOf(c, u);
    }
    d := Resumes(d);
  }

  lemma OneWaits() returns (c: Core, l: ListId)
    ensures Reached(c) && AtRest(c, Task(2)) && Four(c, Waiter(l, 3), Fresh(2)) && Blocked(In(l)) && c.event.at(EventList(0)).items == [Task(1)]
  {
    c := ThreeAreCreated();
    c := SwitchesToTheHighest(c, Task(1), Fresh(3), Fresh(2));
    c := WaitsForever(c);
    l := CardOf(c, Task(1)).state.list;
    c := SwitchesToTheHighest(c, Task(2), Waiter(l, 3), Fresh(2));
  }

  /** Tasks 1 and 2, of priorities 3 and 2, wait in this order. */
  lemma TwoWait() returns (c: Core, l: ListId, m: ListId)
    ensures Reached(c) && AtRest(c, Task(3)) && Four(c, Waiter(l, 3), Waiter(m, 2)) && Blocked(In(l)) && Blocked(In(m))
    ensures c.event.at(EventList(0)).items == [Task(1), Task(2)]
  {
    c, l := OneWaits();
    c := WaitsForever(c);
    m := CardOf(c, Task(2)).state.list;
    c := SwitchesToTheHighest(c, Task(3), Waiter(l, 3), Waiter(m, 2));
  }

  /** Setting the priority of task 2 to 5 puts the two out of order. */
  lemma RaisingDisorders(c: Core, l: ListId, m: ListId)
    requires Inv(c) && Four(c, Waiter(l, 3), Waiter(m, 2)) && Blocked(In(m)) && c.event.at(EventList(0)).items == [Task(1), Task(2)]
    ensures EventOrder.Ordered([Task(1), Task(2)], c.tcb) && Enabled(c, SetPriority(Task(2), 5))
    ensures var d := Apply(c, SetPriority(Task(2), 5));
            && d.event == c.event && d.tcb.prio(Task(1)) < d.tcb.prio(Task(2)) && !EventOrder.Ordered([Task(1), Task(2)], d.tcb)
  {
    var d := Apply(c, SetPriority(Task(2), 5));
    assert CardOf(c, Task(1)) == Waiter(l, 3) && CardOf(c, Task(2)) == Waiter(m, 2);
    assert d.tcb.eventValue([Task(1), Task(2)][0]) > d.tcb.eventValue([Task(1), Task(2)][1]);
  }

  /** A run after which the list of those that wait is sorted, and no longer is when task 3 sets the
    * priority of task 2 to 5: task 2 waits behind task 1, whose priority is lower. */
  lemma AWaiterIsLeftBehind() returns (c: Core, d: Core)
    ensures Reached(c) && c.current == Task(3) && Enabled(c, SetPriority(Task(2), 5)) && d == Apply(c, SetPriority(Task(2), 5))
    ensures EventOrder.Waiters(c, 0) == EventOrder.Waiters(d, 0) == [Task(1), Task(2)] && d.tcb.prio(Task(1)) < d.tcb.prio(Task(2))
    ensures EventOrder.Ordered(EventOrder.Waiters(c, 0), c.tcb) && !EventOrder.Ordered(EventOrder.Waiters(d, 0), d.tcb)
  {
    var l, m: ListId;
    c, l, m := TwoWait();
    ReachedOk(c);
    RaisingDisorders(c, l, m);
    d := Apply(c, SetPriority(Task(2), 5));
  }
}
