/** What each step of the scheduler does to each task: where the task is afterwards, when it will
  * wake, and what its control block says. */
module TaskCards {
  import opened TaskLists
  import opened Words
  import opened TaskMachine
  import opened TaskRuns

  /** Where a task is and what its control block says. */
  datatype Card = Card(state: Home<ListId>, event: Home<EventId>, wake: Wake, eventValue: int, prio: int, base: int, held: int)

  function CardOf(c: Core, t: Task): Card {
    Card(c.state.home(t), c.event.home(t), WakeOf(c, t), c.tcb.eventValue(t), c.tcb.prio(t), c.tcb.base(t), c.tcb.held(t))
  }

  /** The true time, the running task, the nesting of suspensions and what is held back. */
  datatype Rest = Rest(now: int, current: Task, suspended: nat, pended: nat, yieldPending: bool)

  function RestOf(c: Core): Rest {
    Rest(Now(c), c.current, c.suspended, c.pended, c.yieldPending)
  }

  /** A task of priority p that has just been created. */
  function Fresh(p: int): Card {
    Card(In(Ready(p)), Nowhere, Never, MAX_PRIORITIES - p, p, p, 0)
  }

  /** The card of a task that has been readied. */
  function Woken(k: Card): Card {
    k.(state := In(Ready(k.prio)), event := Nowhere, wake := Never)
  }

  function WaitsUntil(c: Core, n: int): Wake {
    if n == MAX_DELAY then Never else At(Now(c) + n)
  }

  // ---------------------------------------------------------------------------
  // Time.
  // ---------------------------------------------------------------------------

  /** A tick readies the task if its time has come, and otherwise leaves it; with the scheduler
    * suspended it is only counted. */
  lemma TickCard(c: Core, u: Task)
    requires Inv(c)
    ensures var d := Apply(c, Tick);
            && CardOf(d, u) == (if c.suspended == 0 && WakeOf(c, u) == At(Now(c) + 1) then Woken(CardOf(c, u)) else CardOf(c, u))
            && RestOf(d) == if c.suspended == 0 then RestOf(c).(now := Now(c) + 1) else RestOf(c).(pended := c.pended + 1)
  {
    if c.suspended == 0 {
      TickOk(c);
      TickIsExact(c, u);
    }
  }

  lemma SuspendAllCard(c: Core, u: Task)
    ensures var d := Apply(c, SuspendAll); CardOf(d, u) == CardOf(c, u) && RestOf(d) == RestOf(c).(suspended := c.suspended + 1)
  {
  }

  lemma TickedYields(c: Core)
    requires Good(c, 1) && Waiting(c)
    ensures Ticked(c).yieldPending <==>
            c.yieldPending || exists t :: c.tcb.prio(t) >= c.tcb.prio(c.current) && WakeOf(c, t) == At(Now(c) + 1)
  {
    AdvanceOk(c);
    var a := Advance(c);
    var due := Due(a);
    forall t
      ensures t in due <==> WakeOf(c, t) == At(Now(c) + 1)
    {
      DueIsWake(a, t);
    }
    if t :| c.tcb.prio(t) >= c.tcb.prio(c.current) && WakeOf(c, t) == At(Now(c) + 1) {
      var i :| 0 <= i < |due| && due[i] == t;
      assert Preempting(a, due);
    }
    if i :| 0 <= i < |due| && c.tcb.prio(due[i]) >= c.tcb.prio(c.current) {
      assert due[i] in due;
    }
  }

  /** The tasks that a tick wakes ask for a switch if and only if one of them has at least the priority
    * of the running task. */
  lemma DuePreemptsIff(c: Core)
    requires Good(c, 1) && Waiting(c)
    ensures Preempting(c, Due(Advance(c))) <==>
            exists t :: c.tcb.prio(t) >= c.tcb.prio(c.current) && WakeOf(c, t) == At(Now(c) + 1)
  {
    TickedYields(c.(yieldPending := false));
    assert forall t :: WakeOf(c.(yieldPending := false), t) == WakeOf(c, t);
  }

  /** Task t has at least the priority of the running one, and its time comes by true time now. */
  predicate OutranksBy(c: Core, t: Task, now: int) {
    c.tcb.prio(t) >= c.tcb.prio(c.current) && WakeOf(c, t).At? && WakeOf(c, t).time <= now
  }

  ghost predicate SomebodyOutranksBy(c: Core, now: int) {
    exists t :: OutranksBy(c, t, now)
  }

  lemma FaringOutranks(c: Core, b: Core, t: Task)
    requires Fares(c, b, t, Now(b)) && b.tcb.prio == c.tcb.prio && b.current == c.current
    requires Shape(b)
    ensures OutranksBy(c, t, Now(b) + 1) <==>
            OutranksBy(c, t, Now(b)) || (b.tcb.prio(t) >= b.tcb.prio(b.current) && WakeOf(b, t) == At(Now(b) + 1))
  {
  }

  ghost predicate AllFare(c: Core, b: Core, now: int) {
    forall t :: Fares(c, b, t, now)
  }

  lemma TicksFare(c: Core, n: nat)
    requires Good(c, 1) && Waiting(c) && c.event.at(PendingReady).items == []
    ensures AllFare(c, TicksNow(c, n), Now(c) + n)
  {
    var d, now := TicksNow(c, n), Now(c) + n;
    forall t
      ensures Fares(c, d, t, now)
    {
      TicksAreExact(c, n, t);
    }
  }

  /** One tick more: b is what c has become. */
  lemma OneTickMoreYields(c: Core, b: Core)
    requires Good(b, 1) && Waiting(b) && b.tcb.prio == c.tcb.prio && b.current == c.current && AllFare(c, b, Now(b))
    requires b.yieldPending <==> c.yieldPending || SomebodyOutranksBy(c, Now(b))
    ensures Ticked(b).yieldPending <==> c.yieldPending || SomebodyOutranksBy(c, Now(b) + 1)
  {
    TickedYields(b);
    forall t
      ensures OutranksBy(c, t, Now(b) + 1) <==>
              OutranksBy(c, t, Now(b)) || (b.tcb.prio(t) >= b.tcb.prio(b.current) && WakeOf(b, t) == At(Now(b) + 1))
    {
      FaringOutranks(c, b, t);
    }
  }

  /** The state after n ticks, with what there is to say about it. */
  lemma AfterTicks(c: Core, n: nat) returns (b: Core)
    requires Good(c, 1) && Waiting(c) && c.event.at(PendingReady).items == []
    ensures b == TicksNow(c, n) && Ticked(b) == TicksNow(c, n + 1)
    ensures Good(b, 1) && Waiting(b) && b.event.at(PendingReady).items == []
    ensures Now(b) == Now(c) + n && b.tcb.prio == c.tcb.prio && b.current == c.current && AllFare(c, b, Now(b))
  {
    b := TicksNow(c, n);
    TicksOk(c, n);
    TicksFare(c, n);
  }

  ghost predicate YieldsBy(c: Core, b: Core, now: int) {
    b.yieldPending <==> c.yieldPending || SomebodyOutranksBy(c, now)
  }

  lemma NextTickYields(c: Core, n: nat)
    requires Good(c, 1) && Waiting(c) && c.event.at(PendingReady).items == [] && YieldsBy(c, TicksNow(c, n), Now(c) + n)
    ensures YieldsBy(c, TicksNow(c, n + 1), Now(c) + n + 1)
  {
    var b := AfterTicks(c, n);
    OneTickMoreYields(c, b);
  }

  lemma {:induction false} TicksYield(c: Core, n: nat)
    requires Good(c, 1) && Waiting(c) && c.event.at(PendingReady).items == []
    ensures YieldsBy(c, TicksNow(c, n), Now(c) + n)
  {
    if n == 0 {
      assert forall t :: WakeOf(c, t).At? ==> WakeOf(c, t).time > Now(c);
    } else {
      TicksYield(c, n - 1);
      NextTickYields(c, n - 1);
    }
  }

  lemma FlushYields(c: Core)
    requires Good(c, 1) && Waiting(c)
    ensures Flush(c).yieldPending <==>
            c.yieldPending || exists t :: c.event.home(t) == In(PendingReady) && c.tcb.prio(t) >= c.tcb.prio(c.current)
  {
    var ts := c.event.at(PendingReady).items;
    forall t
      ensures t in ts <==> c.event.home(t) == In(PendingReady)
    {
    }
    if t :| c.event.home(t) == In(PendingReady) && c.tcb.prio(t) >= c.tcb.prio(c.current) {
      var i :| 0 <= i < |ts| && ts[i] == t;
      assert Preempting(c, ts);
    }
    if i :| 0 <= i < |ts| && c.tcb.prio(ts[i]) >= c.tcb.prio(c.current) {
      assert ts[i] in ts;
    }
  }

  /** A task that the outermost resume readies: it was held back, or its time came in the pended ticks. */
  predicate ReadiedByResume(c: Core, t: Task) {
    c.event.home(t) == In(PendingReady) || (WakeOf(c, t).At? && WakeOf(c, t).time <= Now(c) + c.pended)
  }

  predicate OutranksAndReadied(c: Core, t: Task) {
    c.tcb.prio(t) >= c.tcb.prio(c.current) && ReadiedByResume(c, t)
  }

  lemma FlushKeepsOutranking(c: Core, t: Task)
    requires Good(c, 1) && Waiting(c)
    ensures OutranksAndReadied(c, t) <==>
            (c.event.home(t) == In(PendingReady) && c.tcb.prio(t) >= c.tcb.prio(c.current)) || OutranksBy(Flush(c), t, Now(c) + c.pended)
  {
    FlushOk(c);
  }

  lemma ResumeNowYields(c: Core)
    requires Good(c, 1) && Waiting(c)
    ensures ResumeNow(c).yieldPending <==> c.yieldPending || exists t :: OutranksAndReadied(c, t)
  {
    FlushOk(c);
    FlushYields(c);
    TicksYield(Flush(c), c.pended);
    forall t
      ensures OutranksAndReadied(c, t) <==>
              (c.event.home(t) == In(PendingReady) && c.tcb.prio(t) >= c.tcb.prio(c.current)) || OutranksBy(Flush(c), t, Now(c) + c.pended)
    {
      FlushKeepsOutranking(c, t);
    }
  }

  lemma ResumeYields(c: Core)
    requires Inv(c) && c.suspended == 1
    ensures Apply(c, ResumeAll).yieldPending <==> c.yieldPending || exists t :: OutranksAndReadied(c, t)
  {
    var b := c.(suspended := 0);
    ResumeNowYields(b);
    assert forall t :: OutranksAndReadied(b, t) <==> OutranksAndReadied(c, t);
  }

  /** A yield is pending after the outermost resume if and only if it was before, or the resume
    * readied a task of at least the running task's priority. */
  lemma ResumeYieldsIff(c: Core)
    requires Inv(c) && c.suspended == 1
    ensures Apply(c, ResumeAll).yieldPending <==>
            c.yieldPending ||
            exists t :: (c.tcb.prio(t) >= c.tcb.prio(c.current) &&
                         (c.event.home(t) == In(PendingReady) || (WakeOf(c, t).At? && WakeOf(c, t).time <= Now(c) + c.pended)))
  {
    ResumeYields(c);
    assert forall t :: OutranksAndReadied(c, t) <==>
                       c.tcb.prio(t) >= c.tcb.prio(c.current) &&
                       (c.event.home(t) == In(PendingReady) || (WakeOf(c, t).At? && WakeOf(c, t).time <= Now(c) + c.pended));
  }

  lemma ResumeNowCard(c: Core, d: Core, u: Task)
    requires Good(c, 1) && Waiting(c) && Shape(d) && d.tcb == c.tcb
    requires if ReadiedByResume(c, u) then IsReady(d, u) && d.event.home(u) == Nowhere
             else d.state.home(u) == c.state.home(u) && d.event.home(u) == c.event.home(u) && WakeOf(d, u) == WakeOf(c, u)
    ensures CardOf(d, u) == if ReadiedByResume(c, u) then Woken(CardOf(c, u)) else CardOf(c, u)
  {
  }

  lemma OutermostResumeCard(c: Core, u: Task)
    requires Inv(c) && c.suspended == 1
    ensures CardOf(Apply(c, ResumeAll), u) == if ReadiedByResume(c, u) then Woken(CardOf(c, u)) else CardOf(c, u)
  {
    var b := c.(suspended := 0);
    ResumeOk(b);
    ResumeIsExact(b, u);
    ResumeKeepsFields(b);
    ResumeNowCard(b, ResumeNow(b), u);
  }

  lemma ResumeAllRest(c: Core)
    requires Inv(c) && Enabled(c, ResumeAll)
    ensures var d := Apply(c, ResumeAll);
            RestOf(d).(yieldPending := false) == if c.suspended > 1 then RestOf(c).(suspended := c.suspended - 1, yieldPending := false)
                                                 else Rest(Now(c) + c.pended, c.current, 0, 0, false)
  {
    if c.suspended == 1 {
      ResumeOk(c.(suspended := 0));
      ResumeKeepsFields(c.(suspended := 0));
    }
  }

  /** The outermost resume readies what was held back and what the pended ticks wake, and leaves the rest. */
  lemma ResumeAllCard(c: Core, u: Task)
    requires Inv(c) && Enabled(c, ResumeAll)
    ensures CardOf(Apply(c, ResumeAll), u) == if c.suspended == 1 && ReadiedByResume(c, u) then Woken(CardOf(c, u)) else CardOf(c, u)
  {
    if c.suspended == 1 { OutermostResumeCard(c, u); }
  }

  lemma {:induction false} TicksKeepFields(c: Core, n: nat)
    ensures TicksNow(c, n).tcb == c.tcb && TicksNow(c, n).current == c.current
  {
    if n > 0 { TicksKeepFields(c, n - 1); }
  }

  lemma ResumeKeepsFields(c: Core)
    ensures ResumeNow(c).tcb == c.tcb && ResumeNow(c).current == c.current
  {
    TicksKeepFields(Flush(c), c.pended);
  }

  /** A switch moves nobody; it runs a ready task of the highest priority there is, or is put off. */
  lemma SwitchContextCard(c: Core, u: Task)
    requires Inv(c) && Enabled(c, SwitchContext)
    ensures var d := Apply(c, SwitchContext);
            && CardOf(d, u) == CardOf(c, u)
            && RestOf(d) == (if c.suspended > 0 then RestOf(c).(yieldPending := true) else RestOf(c).(current := d.current, yieldPending := false))
            && (c.suspended == 0 ==> IsReady(c, d.current) && (IsReady(c, u) ==> c.tcb.prio(u) <= c.tcb.prio(d.current)))
  {
    if c.suspended == 0 { SwitchPicksTheHighest(c); }
  }

  // ---------------------------------------------------------------------------
  // Blocking.
  // ---------------------------------------------------------------------------

  lemma LeavesCard(c: Core, d: Core, u: Task)
    requires Leaves(c, d, u) && d.tcb.eventValue(u) == c.tcb.eventValue(u)
    requires d.tcb.prio(u) == c.tcb.prio(u) && d.tcb.base(u) == c.tcb.base(u) && d.tcb.held(u) == c.tcb.held(u)
    ensures CardOf(d, u) == CardOf(c, u)
  {
  }

  /** The running task sleeps for exactly n ticks. */
  lemma DelayCard(c: Core, n: int, u: Task)
    requires Inv(c) && Enabled(c, Delay(n))
    ensures var k, l := CardOf(c, u), CardOf(Apply(c, Delay(n)), u);
            if u == c.current then Blocked(l.state) && l == k.(state := l.state, wake := At(Now(c) + n)) else l == k
    ensures RestOf(Apply(c, Delay(n))) == RestOf(c)
  {
    if u == c.current {
      SleepOwnCard(c, n, false);
    } else {
      SleepLeaves(c, n, false, u);
      LeavesCard(c, Apply(c, Delay(n)), u);
    }
  }

  lemma SleepOwnCard(c: Core, n: int, indefinitely: bool)
    requires Good(c, 1) && IsReady(c, c.current) && 0 < n <= MAX_DELAY
    ensures var k, l := CardOf(c, c.current), CardOf(Sleep(c, n, indefinitely), c.current);
            Blocked(l.state) && l == k.(state := l.state, wake := if n == MAX_DELAY && indefinitely then Never else At(Now(c) + n))
  {
    SleepOk(c, n, indefinitely);
    SleepWakesAfter(c, n, indefinitely);
  }

  lemma WaitOnOwnCard(c: Core, e: nat, n: int)
    requires Inv(c) && Enabled(c, WaitOn(e, n))
    ensures var k, l := CardOf(c, c.current), CardOf(Apply(c, WaitOn(e, n)), c.current);
            Blocked(l.state) && l == k.(state := l.state, event := In(EventList(e)), wake := WaitsUntil(c, n))
  {
    PutSortedOk(c.event, EventList(e), c.current, c.tcb.eventValue);
    SleepOwnCard(Queued(c, e), n, true);
  }

  /** The running task joins the event list, for n ticks or without a limit. */
  lemma WaitOnCard(c: Core, e: nat, n: int, u: Task)
    requires Inv(c) && Enabled(c, WaitOn(e, n))
    ensures var k, l := CardOf(c, u), CardOf(Apply(c, WaitOn(e, n)), u);
            if u == c.current then Blocked(l.state) && l == k.(state := l.state, event := In(EventList(e)), wake := WaitsUntil(c, n)) else l == k
    ensures RestOf(Apply(c, WaitOn(e, n))) == RestOf(c)
  {
    if u == c.current {
      WaitOnOwnCard(c, e, n);
    } else {
      PutSortedOk(c.event, EventList(e), c.current, c.tcb.eventValue);
      WaitLeaves(c, Queued(c, e), n, true, u);
      LeavesCard(c, Apply(c, WaitOn(e, n)), u);
    }
  }

  lemma InUseKeepsTheValue(v: int)
    requires 0 <= v < WRAP
    ensures InUse(v) == IN_USE + v % IN_USE
  {
  }

  lemma AppendedCard(c: Core, e: nat, v: int)
    requires Inv(c) && c.event.home(c.current) == Nowhere
    ensures var b := Appended(c, e, v); Good(b, 1)
    ensures CardOf(Appended(c, e, v), c.current) == CardOf(c, c.current).(event := In(EventList(e)), eventValue := InUse(v))
  {
    PutEndOk(c.event, EventList(e), c.current);
  }

  lemma WaitUnorderedOwnCard(c: Core, e: nat, v: int, n: int)
    requires Inv(c) && Enabled(c, WaitUnordered(e, v, n))
    ensures var k, l := CardOf(c, c.current), CardOf(Apply(c, WaitUnordered(e, v, n)), c.current);
            Blocked(l.state) &&
            l == k.(state := l.state, event := In(EventList(e)), wake := WaitsUntil(c, n), eventValue := IN_USE + v % IN_USE)
  {
    var b := Appended(c, e, v);
    InUseKeepsTheValue(v);
    AppendedCard(c, e, v);
    assert Apply(c, WaitUnordered(e, v, n)) == Sleep(b, n, true) && WaitsUntil(b, n) == WaitsUntil(c, n);
    SleepOwnCard(b, n, true);
  }

  /** The same for an unsorted list, with a value stored: its low bits are kept, and its top bit
    * says that it is in use. */
  lemma WaitUnorderedCard(c: Core, e: nat, v: int, n: int, u: Task)
    requires Inv(c) && Enabled(c, WaitUnordered(e, v, n))
    ensures var k, l := CardOf(c, u), CardOf(Apply(c, WaitUnordered(e, v, n)), u);
            if u == c.current
            then Blocked(l.state) && l == k.(state := l.state, event := In(EventList(e)), wake := WaitsUntil(c, n), eventValue := IN_USE + v % IN_USE)
            else l == k
    ensures RestOf(Apply(c, WaitUnordered(e, v, n))) == RestOf(c)
  {
    if u == c.current {
      WaitUnorderedOwnCard(c, e, v, n);
    } else {
      PutEndOk(c.event, EventList(e), c.current);
      WaitLeaves(c, Appended(c, e, v), n, true, u);
      LeavesCard(c, Apply(c, WaitUnordered(e, v, n)), u);
    }
  }

  // ---------------------------------------------------------------------------
  // Waking, suspending and resuming.
  // ---------------------------------------------------------------------------

  lemma MakeReadyCard(c: Core, t: Task, u: Task)
    requires Shape(c)
    ensures CardOf(MakeReady(c, t), u) == if u == t then CardOf(c, u).(state := In(Ready(c.tcb.prio(u))), wake := Never) else CardOf(c, u)
  {
    MoveEndOk(c.state, t, Ready(c.tcb.prio(t)));
  }

  lemma WakeTaskCard(c: Core, t: Task, u: Task)
    requires Shape(c)
    ensures CardOf(WakeTask(c, t), u) == if u == t then Woken(CardOf(c, u)) else CardOf(c, u)
  {
    MakeReadyCard(c, t, u);
    TakeOk(c.event, t);
    assert WakeTask(c, t).state == MakeReady(c, t).state;
  }

  lemma HoldBackCard(c: Core, t: Task, u: Task)
    requires Shape(c)
    ensures CardOf(c.(event := PutEnd(Take(c.event, t), PendingReady, t)), u) ==
            if u == t then CardOf(c, u).(event := In(PendingReady)) else CardOf(c, u)
  {
    MoveEventOk(c.event, t);
  }

  lemma MoveEventOk(f: Filing<EventId>, t: Task)
    requires Filed(f)
    ensures forall u :: PutEnd(Take(f, t), PendingReady, t).home(u) == if u == t then In(PendingReady) else f.home(u)
  {
    MoveEndOk(f, t, PendingReady);
  }

  /** Of those on the list the first is readied, or held back while the scheduler is suspended. */
  lemma WakeFirstCard(c: Core, e: nat, u: Task)
    requires Inv(c) && Enabled(c, WakeFirst(e))
    ensures var k, l, t := CardOf(c, u), CardOf(Apply(c, WakeFirst(e)), u), c.event.at(EventList(e)).items[0];
            l == if u != t then k else if c.suspended == 0 then Woken(k) else k.(event := In(PendingReady))
    ensures var t := c.event.at(EventList(e)).items[0];
            RestOf(Apply(c, WakeFirst(e))) == RestOf(c).(yieldPending := c.yieldPending || c.tcb.prio(t) > c.tcb.prio(c.current))
  {
    var t := c.event.at(EventList(e)).items[0];
    if c.suspended == 0 { WakeTaskCard(c, t, u); } else { HoldBackCard(c, t, u); }
  }

  /** The given task is readied, with the value it is to find: low bits kept, top bit in use. */
  lemma WakeOneCard(c: Core, t: Task, v: int, u: Task)
    requires Inv(c) && Enabled(c, WakeOne(t, v))
    ensures var k, l := CardOf(c, u), CardOf(Apply(c, WakeOne(t, v)), u);
            l == if u != t then k else Woken(k).(eventValue := IN_USE + v % IN_USE)
    ensures RestOf(Apply(c, WakeOne(t, v))) == RestOf(c).(yieldPending := c.yieldPending || c.tcb.prio(t) > c.tcb.prio(c.current))
  {
    InUseKeepsTheValue(v);
    WakeTaskCard(c, t, u);
  }

  /** The task is suspended: it waits for nothing, and no time wakes it. */
  lemma SuspendCard(c: Core, t: Task, u: Task)
    requires Inv(c) && Enabled(c, Suspend(t))
    ensures CardOf(Apply(c, Suspend(t)), u) ==
            if u == t then CardOf(c, u).(state := In(SuspendedTasks), event := Nowhere, wake := Never) else CardOf(c, u)
    ensures RestOf(Apply(c, Suspend(t))) == RestOf(c)
  {
    TakeOk(c.event, t);
    MoveEndOk(c.state, t, SuspendedTasks);
  }

  /** A suspended task that waits for nothing is readied, if it is not the running one. */
  lemma ResumeCard(c: Core, t: Task, u: Task)
    requires Inv(c)
    ensures var k := CardOf(c, u);
            CardOf(Apply(c, Resume(t)), u) ==
              if u == t && t != c.current && k.state == In(SuspendedTasks) && k.event == Nowhere then Woken(k) else k
    ensures RestOf(Apply(c, Resume(t))) == RestOf(c)
  {
    MakeReadyCard(c, t, u);
  }

  /** From an interrupt it is readied, or held back while the scheduler is suspended. */
  lemma ResumeFromISRCard(c: Core, t: Task, u: Task)
    requires Inv(c)
    ensures var k := CardOf(c, u);
            CardOf(Apply(c, ResumeFromISR(t)), u) ==
              if u == t && k.state == In(SuspendedTasks) && k.event == Nowhere
              then (if c.suspended == 0 then Woken(k) else k.(event := In(PendingReady)))
              else k
    ensures RestOf(Apply(c, ResumeFromISR(t))) == RestOf(c)
  {
    if IsSuspended(c, t) {
      if c.suspended == 0 {
        MakeReadyCard(c, t, u);
      } else {
        HoldBackCard(c, t, u);
        assert Take(c.event, t) == c.event;
      }
    }
  }

  // ---------------------------------------------------------------------------
  // Creation and deletion.
  // ---------------------------------------------------------------------------

  /** A new task is ready at its priority, or at the highest there is if that is too high. */
  lemma CreateCard(c: Core, t: Task, p: int, u: Task)
    requires Inv(c) && Enabled(c, Create(t, p))
    ensures CardOf(Apply(c, Create(t, p)), u) == if u == t then Fresh(if p < MAX_PRIORITIES then p else MAX_PRIORITIES - 1) else CardOf(c, u)
    ensures RestOf(Apply(c, Create(t, p))) == RestOf(c)
  {
    PutEndOk(c.state, Ready(Clip(p)), t);
  }

  /** A deleted task is gone, or waits for the idle task if it is the running one. */
  lemma DeleteCard(c: Core, t: Task, u: Task)
    requires Inv(c) && Enabled(c, Delete(t))
    ensures CardOf(Apply(c, Delete(t)), u) ==
            if u == t then CardOf(c, u).(state := if t == c.current then In(Termination) else Nowhere, event := Nowhere, wake := Never)
            else CardOf(c, u)
    ensures RestOf(Apply(c, Delete(t))) == RestOf(c)
  {
    TakeOk(c.event, t);
    TakeOk(c.state, t);
    MoveEndOk(c.state, t, Termination);
  }

  lemma ReapCard(c: Core, u: Task)
    requires Inv(c) && Enabled(c, Reap)
    ensures CardOf(Apply(c, Reap), u) ==
            if u == c.state.at(Termination).items[0] then CardOf(c, u).(state := Nowhere) else CardOf(c, u)
    ensures RestOf(Apply(c, Reap)) == RestOf(c)
  {
    TakeHead(c.state, Termination);
    TakeOk(c.state, c.state.at(Termination).items[0]);
  }

  // ---------------------------------------------------------------------------
  // Priorities.
  // ---------------------------------------------------------------------------

  /** A task that gets priority p: if it is ready, it moves to the ready list of that priority. */
  function Reprioritised(k: Card, p: int): Card {
    k.(prio := p, state := if k.state == In(Ready(k.prio)) then In(Ready(p)) else k.state)
  }

  /** An event value that is free follows the priority. */
  function Following(k: Card, p: int): Card {
    if k.eventValue < IN_USE then k.(eventValue := MAX_PRIORITIES - p) else k
  }

  lemma ReprioritiseCard(c: Core, t: Task, p: int, u: Task)
    requires Shape(c)
    ensures CardOf(Reprioritise(c, t, p), u) == if u == t then Reprioritised(CardOf(c, u), p) else CardOf(c, u)
    ensures RestOf(Reprioritise(c, t, p)) == RestOf(c)
  {
    MoveEndOk(c.state, t, Ready(p));
  }

  /** The base priority changes; the priority in use changes with it unless it is inherited. */
  lemma SetPriorityCard(c: Core, t: Task, p: int, u: Task)
    requires Inv(c) && Enabled(c, SetPriority(t, p))
    ensures var k, q := CardOf(c, u), if p < MAX_PRIORITIES then p else MAX_PRIORITIES - 1;
            CardOf(Apply(c, SetPriority(t, p)), u) ==
              if u != t || k.base == q then k
              else Reprioritised(Following(k, q), if k.prio == k.base then q else k.prio).(base := q)
    ensures RestOf(Apply(c, SetPriority(t, p))) == RestOf(c)
  {
    var q := Clip(p);
    if c.tcb.base(t) != q {
      var d := c.(tcb := c.tcb.(base := Set(c.tcb.base, t, q), eventValue := Follow(c.tcb, t, q)));
      ReprioritiseCard(d, t, if c.tcb.base(t) == c.tcb.prio(t) then q else c.tcb.prio(t), u);
    }
  }

  lemma TakeMutexCard(c: Core, u: Task)
    ensures CardOf(Apply(c, TakeMutex), u) == if u == c.current then CardOf(c, u).(held := c.tcb.held(u) + 1) else CardOf(c, u)
    ensures RestOf(Apply(c, TakeMutex)) == RestOf(c)
  {
  }

  lemma ResetEventValueCard(c: Core, u: Task)
    requires Enabled(c, ResetEventValue)
    ensures CardOf(Apply(c, ResetEventValue), u) ==
            if u == c.current then CardOf(c, u).(eventValue := MAX_PRIORITIES - c.tcb.prio(u)) else CardOf(c, u)
    ensures RestOf(Apply(c, ResetEventValue)) == RestOf(c)
  {
  }

  /** The holder gets the priority of the running task, if that is higher. */
  lemma InheritCard(c: Core, t: Task, u: Task)
    requires Inv(c) && Enabled(c, Inherit(t))
    ensures var k, p := CardOf(c, u), c.tcb.prio(c.current);
            CardOf(Apply(c, Inherit(t)), u) == if u == t && k.prio < p then Reprioritised(Following(k, p), p) else k
    ensures RestOf(Apply(c, Inherit(t))) == RestOf(c)
  {
    var p := c.tcb.prio(c.current);
    if c.tcb.prio(t) < p {
      ReprioritiseCard(c.(tcb := c.tcb.(eventValue := Follow(c.tcb, t, p))), t, p, u);
    }
  }

  /** The running task holds one mutex fewer; if that was its last, it is back at its base priority,
    * ready there, and a value that was given with a raised priority is that of the base again. */
  lemma DisinheritCard(c: Core, u: Task)
    requires Inv(c) && Enabled(c, Disinherit)
    ensures var k := CardOf(c, u);
            CardOf(Apply(c, Disinherit), u) ==
              if u != c.current then k
              else if k.held > 1 then k.(held := k.held - 1)
              else k.(held := 0, prio := k.base, state := In(Ready(k.base)),
                      eventValue := if k.prio != k.base then MAX_PRIORITIES - k.base else k.eventValue)
    ensures RestOf(Apply(c, Disinherit)) == RestOf(c)
  {
    var t := c.current;
    var d := c.(tcb := c.tcb.(held := Set(c.tcb.held, t, c.tcb.held(t) - 1)));
    if c.tcb.prio(t) != c.tcb.base(t) && c.tcb.held(t) == 1 {
      ReprioritiseCard(d.(tcb := d.tcb.(eventValue := Set(c.tcb.eventValue, t, MAX_PRIORITIES - c.tcb.base(t)))), t, c.tcb.base(t), u);
    }
  }

  /** After a time-out the holder of one mutex gets its base priority, or that of the highest task
    * that still waits if that is higher. */
  lemma DisinheritAfterTimeoutCard(c: Core, t: Task, highest: int, u: Task)
    requires Inv(c) && Enabled(c, DisinheritAfterTimeout(t, highest))
    ensures var k := CardOf(c, u);
            var p := if k.base < highest then highest else k.base;
            CardOf(Apply(c, DisinheritAfterTimeout(t, highest)), u) ==
              if u == t && k.held == 1 && k.prio != p then Reprioritised(Following(k, p), p) else k
    ensures RestOf(Apply(c, DisinheritAfterTimeout(t, highest))) == RestOf(c)
  {
    var p := if c.tcb.base(t) < highest then highest else c.tcb.base(t);
    if c.tcb.prio(t) != p && c.tcb.held(t) == 1 {
      ReprioritiseCard(c.(tcb := c.tcb.(eventValue := Follow(c.tcb, t, p))), t, p, u);
    }
  }

  // ---------------------------------------------------------------------------
  // Suspension lasts.
  // ---------------------------------------------------------------------------

  /** Suspended and waiting for nothing, or no longer existing. */
  predicate Parked(k: Card) {
    k.event == Nowhere && k.wake == Never && (k.state == In(SuspendedTasks) || k.state == In(Termination) || k.state == Nowhere)
  }

  predicate Revives(step: Step, t: Task) {
    step == Resume(t) || step == ResumeFromISR(t) || (step.Create? && step.t == t)
  }

  lemma TimeKeepsParked(c: Core, step: Step, t: Task)
    requires Inv(c) && Enabled(c, step) && IsTime(step) && Parked(CardOf(c, t))
    ensures Parked(CardOf(Apply(c, step), t))
  {
    match step
    case Tick => TickCard(c, t);
    case SuspendAll => SuspendAllCard(c, t);
    case ResumeAll => ResumeAllCard(c, t);
    case SwitchContext => SwitchContextCard(c, t);
  }

  lemma WaitKeepsParked(c: Core, step: Step, t: Task)
    requires Inv(c) && Enabled(c, step) && IsWait(step) && Parked(CardOf(c, t))
    ensures Parked(CardOf(Apply(c, step), t))
  {
    match step
    case Delay(n) => DelayCard(c, n, t);
    case WaitOn(e, n) => WaitOnCard(c, e, n, t);
    case WaitUnordered(e, v, n) => WaitUnorderedCard(c, e, v, n, t);
  }

  lemma WakeKeepsParked(c: Core, step: Step, t: Task)
    requires Inv(c) && Enabled(c, step) && IsWake(step) && Parked(CardOf(c, t)) && !Revives(step, t)
    ensures Parked(CardOf(Apply(c, step), t))
  {
    match step
    case WakeFirst(e) =>
      WakeFirstCard(c, e, t);
      TakeHead(c.event, EventList(e));
    case WakeOne(u, v) => WakeOneCard(c, u, v, t);
    case Suspend(u) => SuspendCard(c, u, t);
    case Resume(u) => ResumeCard(c, u, t);
    case ResumeFromISR(u) => ResumeFromISRCard(c, u, t);
  }

  lemma LifeKeepsParked(c: Core, step: Step, t: Task)
    requires Inv(c) && Enabled(c, step) && IsLife(step) && Parked(CardOf(c, t)) && !Revives(step, t)
    ensures Parked(CardOf(Apply(c, step), t))
  {
    match step
    case Create(u, p) => CreateCard(c, u, p, t);
    case Delete(u) => DeleteCard(c, u, t);
    case Reap => ReapCard(c, t);
  }

  lemma PriorityKeepsParked(c: Core, step: Step, t: Task)
    requires Inv(c) && Enabled(c, step) && IsPriority(step) && Parked(CardOf(c, t))
    ensures Parked(CardOf(Apply(c, step), t))
  {
    match step
    case SetPriority(u, p) => SetPriorityCard(c, u, p, t);
    case TakeMutex => TakeMutexCard(c, t);
    case ResetEventValue => ResetEventValueCard(c, t);
    case Inherit(u) => InheritCard(c, u, t);
    case Disinherit => DisinheritCard(c, t);
    case DisinheritAfterTimeout(u, p) => DisinheritAfterTimeoutCard(c, u, p, t);
  }

  lemma StepKeepsParked(c: Core, step: Step, t: Task)
    requires Inv(c) && Enabled(c, step) && Parked(CardOf(c, t)) && !Revives(step, t)
    ensures Parked(CardOf(Apply(c, step), t))
  {
    if IsTime(step) { TimeKeepsParked(c, step, t); }
    else if IsWait(step) { WaitKeepsParked(c, step, t); }
    else if IsWake(step) { WakeKeepsParked(c, step, t); }
    else if IsLife(step) { LifeKeepsParked(c, step, t); }
    else { PriorityKeepsParked(c, step, t); }
  }

  lemma {:induction false} RunKeepsParked(c: Core, steps: seq<Step>, end: Core, t: Task)
    requires Inv(c) && Run(c, steps, end) && Parked(CardOf(c, t)) && forall i :: 0 <= i < |steps| ==> !Revives(steps[i], t)
    ensures Parked(CardOf(end, t)) && Inv(end)
    decreases |steps|
  {
    if steps != [] {
      StepKeepsInv(c, steps[0]);
      StepKeepsParked(c, steps[0], t);
      RunKeepsParked(Apply(c, steps[0]), steps[1..], end, t);
    }
  }

  /** A suspended task is not ready, held back or asleep in any run before it is resumed, or created anew. */
  lemma SuspendedUntilResumed(c: Core, t: Task, steps: seq<Step>, end: Core)
    requires Inv(c) && Enabled(c, Suspend(t)) && Run(Apply(c, Suspend(t)), steps, end)
    requires forall i :: 0 <= i < |steps| ==> steps[i] != Resume(t) && steps[i] != ResumeFromISR(t) && !(steps[i].Create? && steps[i].t == t)
    ensures !IsReady(end, t) && end.event.home(t) == Nowhere && WakeOf(end, t) == Never
  {
    StepKeepsInv(c, Suspend(t));
    SuspendCard(c, t, t);
    RunKeepsParked(Apply(c, Suspend(t)), steps, end, t);
  }
}
