/** Tasks of one priority take turns: in every run of the scheduler, between two selections of one
  * task every other that stays ready at its priority is selected. */
module TaskTurns {
  import Rings
  import opened TaskLists
  import opened TaskMachine
  import opened TaskRuns
  import opened TaskCards

  /** Task u comes before task t in the rotation of a list. */
  ghost predicate Before(f: Filing<ListId>, l: ListId, u: Task, t: Task) {
    Rings.Ahead(f.at(l), u, t)
  }

  // ---------------------------------------------------------------------------
  // Moving others keeps the order.
  // ---------------------------------------------------------------------------

  lemma TakeKeepsTurns(f: Filing<ListId>, x: Task, l: ListId, u: Task, t: Task)
    requires Filed(f) && Before(f, l, u, t) && x != u && x != t
    ensures Before(Take(f, x), l, u, t)
  {
    if f.home(x) == In(l) {
      assert x in f.at(l).items;
      Rings.DropKeepsOrder(f.at(l), x, t, u);
    }
  }

  lemma PutEndKeepsTurns(f: Filing<ListId>, m: ListId, x: Task, l: ListId, u: Task, t: Task)
    requires Filed(f) && f.home(x) == Nowhere && Before(f, l, u, t) && x != u && x != t
    ensures Before(PutEnd(f, m, x), l, u, t)
  {
    assert x !in f.at(l).items;
    Rings.AppendKeepsOrder(f.at(l), x, t, u);
  }

  lemma MoveKeepsTurns(f: Filing<ListId>, x: Task, m: ListId, l: ListId, u: Task, t: Task)
    requires Filed(f) && Before(f, l, u, t) && x != u && x != t
    ensures Before(PutEnd(Take(f, x), m, x), l, u, t) && Filed(PutEnd(Take(f, x), m, x))
  {
    TakeOk(f, x);
    MoveEndOk(f, x, m);
    TakeKeepsTurns(f, x, l, u, t);
    PutEndKeepsTurns(Take(f, x), m, x, l, u, t);
  }

  lemma {:induction false} ReadyAllKeepsTurns(f: Filing<ListId>, prio: Task -> int, ts: seq<Task>, l: ListId, u: Task, t: Task)
    requires Filed(f) && Before(f, l, u, t) && u !in ts && t !in ts
    ensures Filed(ReadyAll(f, prio, ts)) && Before(ReadyAll(f, prio, ts), l, u, t)
  {
    if ts != [] {
      var k := |ts| - 1;
      ReadyAllKeepsTurns(f, prio, ts[..k], l, u, t);
      MoveKeepsTurns(ReadyAll(f, prio, ts[..k]), ts[k], Ready(prio(ts[k])), l, u, t);
    }
  }

  lemma ComesLast(f: Filing<ListId>, prio: Task -> int, x: Task, u: Task)
    requires Filed(f) && u != x && f.home(u) == In(Ready(prio(x))) != f.home(x)
    requires var r := f.at(Ready(prio(x))); !(r.pos > 0 && Rings.Selected(r) == u)
    ensures Before(ToReady(f, prio, x), Ready(prio(x)), u, x)
  {
    var l := Ready(prio(x));
    TakeOk(f, x);
    assert u in Take(f, x).at(l).items && x !in Take(f, x).at(l).items;
    Rings.AppendGoesLast(Take(f, x).at(l), x, u);
  }

  /** A task that is readied comes after every other of its priority, but for the one selected last. */
  lemma ReadiedComesLast(c: Core, x: Task, u: Task)
    requires Filed(c.state) && u != x
    requires c.state.home(u) == In(Ready(c.tcb.prio(x))) != c.state.home(x)
    requires var r := c.state.at(Ready(c.tcb.prio(x))); !(r.pos > 0 && Rings.Selected(r) == u)
    ensures Before(ToReady(c.state, c.tcb.prio, x), Ready(c.tcb.prio(x)), u, x)
  {
    ComesLast(c.state, c.tcb.prio, x, u);
  }

  // ---------------------------------------------------------------------------
  // Tasks readied together take their turns in the order in which they are readied.
  // ---------------------------------------------------------------------------

  /** Task u is on the ready list and not the one selected last there. */
  ghost predicate YetToCome(f: Filing<ListId>, l: ListId, u: Task)
    requires Filed(f)
  {
    f.home(u) == In(l) && (f.at(l).pos > 0 ==> Rings.Selected(f.at(l)) != u)
  }

  predicate OnReadyList(h: Home<ListId>) {
    h.In? && h.list.Ready?
  }

  lemma ReadyingKeepsWaitingTurns(f: Filing<ListId>, prio: Task -> int, x: Task, l: ListId, u: Task)
    requires Filed(f) && l.Ready? && !OnReadyList(f.home(x)) && (u == x ==> l == Ready(prio(x))) && (u != x ==> YetToCome(f, l, u))
    ensures Filed(ToReady(f, prio, x)) && YetToCome(ToReady(f, prio, x), l, u)
  {
    TakeOk(f, x);
    MoveEndOk(f, x, Ready(prio(x)));
    var r := Take(f, x).at(Ready(prio(x)));
    assert x !in r.items;
    Rings.AppendKeepsSelected(r, x);
  }

  lemma {:induction false} ReadiedAreYetToCome(f: Filing<ListId>, prio: Task -> int, ts: seq<Task>, u: Task)
    requires Filed(f) && Rings.NoDup(ts) && forall i :: 0 <= i < |ts| ==> !OnReadyList(f.home(ts[i]))
    requires u in ts || YetToCome(f, Ready(prio(u)), u)
    ensures Filed(ReadyAll(f, prio, ts)) && YetToCome(ReadyAll(f, prio, ts), Ready(prio(u)), u)
  {
    if ts != [] {
      var k := |ts| - 1;
      var x := ts[k];
      ReadyAllHome(f, prio, ts[..k], x);
      if u != x { ReadiedAreYetToCome(f, prio, ts[..k], u); }
      ReadyingKeepsWaitingTurns(ReadyAll(f, prio, ts[..k]), prio, x, Ready(prio(u)), u);
    }
  }

  /** Task u is readied before task t, or was ready and yet to come. */
  ghost predicate Precedes(f: Filing<ListId>, prio: Task -> int, ts: seq<Task>, u: Task, t: Task)
    requires Filed(f)
  {
    t in ts && if u in ts then Rings.IndexOf(ts, u) < Rings.IndexOf(ts, t) else YetToCome(f, Ready(prio(u)), u)
  }

  lemma PrefixPrecedes(f: Filing<ListId>, prio: Task -> int, ts: seq<Task>, u: Task, t: Task)
    requires Filed(f) && Rings.NoDup(ts) && ts != [] && Precedes(f, prio, ts, u, t)
    ensures var before, x := ts[..|ts| - 1], ts[|ts| - 1];
            u != x && (u in before || YetToCome(f, Ready(prio(u)), u)) && if t == x then t !in before else Precedes(f, prio, before, u, t)
  {
  }

  lemma {:induction false} ReadiedInOrder(f: Filing<ListId>, prio: Task -> int, ts: seq<Task>, u: Task, t: Task)
    requires Filed(f) && Rings.NoDup(ts) && forall i :: 0 <= i < |ts| ==> !OnReadyList(f.home(ts[i]))
    requires Precedes(f, prio, ts, u, t) && u != t && prio(u) == prio(t)
    ensures Before(ReadyAll(f, prio, ts), Ready(prio(u)), u, t)
  {
    var k := |ts| - 1;
    var x := ts[k];
    PrefixPrecedes(f, prio, ts, u, t);
    ReadyAllHome(f, prio, ts[..k], t);
    if t == x {
      ReadiedAreYetToCome(f, prio, ts[..k], u);
      ComesLast(ReadyAll(f, prio, ts[..k]), prio, t, u);
    } else {
      ReadiedInOrder(f, prio, ts[..k], u, t);
      MoveKeepsTurns(ReadyAll(f, prio, ts[..k]), x, Ready(prio(x)), Ready(prio(u)), u, t);
    }
  }

  /** Both are on ready list p. */
  predicate BothAt(c: Core, p: int, u: Task, t: Task) {
    c.state.home(u) == In(Ready(p)) && c.state.home(t) == In(Ready(p))
  }

  // ---------------------------------------------------------------------------
  // Every step keeps the order of two tasks that it does not move, unless it selects the first.
  // ---------------------------------------------------------------------------

  lemma TickKeepsTurns(c: Core, p: int, u: Task, t: Task)
    requires Good(c, 1) && Waiting(c) && BothAt(c, p, u, t) && Before(c.state, Ready(p), u, t)
    ensures Before(TickNow(c).state, Ready(p), u, t) && BothAt(TickNow(c), p, u, t)
  {
    AdvanceOk(c);
    var a := Advance(c);
    DueIsExact(a);
    ReadyAllKeepsTurns(a.state, a.tcb.prio, Due(a), Ready(p), u, t);
    ReadyAllHome(a.state, a.tcb.prio, Due(a), u);
    ReadyAllHome(a.state, a.tcb.prio, Due(a), t);
  }

  lemma {:induction false} TicksKeepTurns(c: Core, n: nat, p: int, u: Task, t: Task)
    requires Good(c, 1) && Waiting(c) && c.event.at(PendingReady).items == []
    requires BothAt(c, p, u, t) && Before(c.state, Ready(p), u, t)
    ensures Before(TicksNow(c, n).state, Ready(p), u, t) && BothAt(TicksNow(c, n), p, u, t)
  {
    if n > 0 {
      TicksKeepTurns(c, n - 1, p, u, t);
      TicksOk(c, n - 1);
      TickKeepsTurns(TicksNow(c, n - 1), p, u, t);
    }
  }

  lemma ResumeKeepsTurns(c: Core, p: int, u: Task, t: Task)
    requires Good(c, 1) && Waiting(c) && BothAt(c, p, u, t) && Before(c.state, Ready(p), u, t)
    ensures Before(ResumeNow(c).state, Ready(p), u, t)
  {
    var ts := c.event.at(PendingReady).items;
    assert forall x :: x in ts ==> c.event.home(x) == In(PendingReady);
    ReadyAllKeepsTurns(c.state, c.tcb.prio, ts, Ready(p), u, t);
    FlushOk(c);
    TicksKeepTurns(Flush(c), c.pended, p, u, t);
  }

  lemma SwitchKeepsTurns(c: Core, p: int, u: Task, t: Task)
    requires Inv(c) && Enabled(c, SwitchContext) && BothAt(c, p, u, t) && Before(c.state, Ready(p), u, t)
    requires c.suspended == 0 ==> Apply(c, SwitchContext).current != u
    ensures Before(Apply(c, SwitchContext).state, Ready(p), u, t)
    ensures c.suspended == 0 ==> Apply(c, SwitchContext).current != t
  {
    if c.suspended == 0 {
      var l := Ready(HighestReady(c, MAX_PRIORITIES - 1));
      var r := c.state.at(l);
      if l == Ready(p) {
        Rings.SelectTakesTheLeader(r, u);
        Rings.SelectTakesTheLeader(r, t);
      } else {
        assert Rings.Selected(Rings.Advance(r)) in r.items;
      }
    }
  }

  lemma TimeKeepsTurns(c: Core, step: Step, p: int, u: Task, t: Task)
    requires Inv(c) && Enabled(c, step) && IsTime(step) && BothAt(c, p, u, t) && Before(c.state, Ready(p), u, t)
    requires step.SwitchContext? && c.suspended == 0 ==> Apply(c, step).current != u
    ensures Before(Apply(c, step).state, Ready(p), u, t)
  {
    match step
    case Tick => if c.suspended == 0 { TickKeepsTurns(c, p, u, t); }
    case SuspendAll =>
    case ResumeAll => if c.suspended == 1 { ResumeKeepsTurns(c.(suspended := 0), p, u, t); }
    case SwitchContext => SwitchKeepsTurns(c, p, u, t);
  }

  lemma SleepKeepsTurns(c: Core, n: int, indefinitely: bool, p: int, u: Task, t: Task)
    requires Good(c, 1) && IsReady(c, c.current) && 0 < n <= MAX_DELAY && Before(c.state, Ready(p), u, t)
    requires BothAt(Sleep(c, n, indefinitely), p, u, t)
    ensures Before(Sleep(c, n, indefinitely).state, Ready(p), u, t)
  {
    SleepOk(c, n, indefinitely);
    TakeOk(c.state, c.current);
    TakeKeepsTurns(c.state, c.current, Ready(p), u, t);
    if n == MAX_DELAY && indefinitely {
      PutEndKeepsTurns(Take(c.state, c.current), SuspendedTasks, c.current, Ready(p), u, t);
    }
  }

  lemma QueuedKeepsTurns(c: Core, e: nat, n: int, p: int, u: Task, t: Task)
    requires Inv(c) && Enabled(c, WaitOn(e, n)) && Before(c.state, Ready(p), u, t) && BothAt(Sleep(Queued(c, e), n, true), p, u, t)
    ensures Before(Sleep(Queued(c, e), n, true).state, Ready(p), u, t)
  {
    PutSortedOk(c.event, EventList(e), c.current, c.tcb.eventValue);
    SleepKeepsTurns(Queued(c, e), n, true, p, u, t);
  }

  lemma AppendedKeepsTurns(c: Core, e: nat, v: int, n: int, p: int, u: Task, t: Task)
    requires Inv(c) && Enabled(c, WaitUnordered(e, v, n)) && Before(c.state, Ready(p), u, t) && BothAt(Sleep(Appended(c, e, v), n, true), p, u, t)
    ensures Before(Sleep(Appended(c, e, v), n, true).state, Ready(p), u, t)
  {
    PutEndOk(c.event, EventList(e), c.current);
    SleepKeepsTurns(Appended(c, e, v), n, true, p, u, t);
  }

  lemma WaitKeepsTurns(c: Core, step: Step, p: int, u: Task, t: Task)
    requires Inv(c) && Enabled(c, step) && IsWait(step) && Before(c.state, Ready(p), u, t) && BothAt(ApplyWaits(c, step), p, u, t)
    ensures Before(ApplyWaits(c, step).state, Ready(p), u, t)
  {
    match step
    case Delay(n) => SleepKeepsTurns(c, n, false, p, u, t);
    case WaitOn(e, n) => QueuedKeepsTurns(c, e, n, p, u, t);
    case WaitUnordered(e, v, n) => AppendedKeepsTurns(c, e, v, n, p, u, t);
  }

  lemma WakeKeepsTurns(c: Core, step: Step, p: int, u: Task, t: Task)
    requires Inv(c) && Enabled(c, step) && IsWake(step) && BothAt(c, p, u, t) && Before(c.state, Ready(p), u, t)
    requires BothAt(ApplyWakes(c, step), p, u, t)
    ensures Before(ApplyWakes(c, step).state, Ready(p), u, t)
  {
    match step
    case WakeFirst(e) =>
      var x := c.event.at(EventList(e)).items[0];
      TakeHead(c.event, EventList(e));
      if c.suspended == 0 { MoveKeepsTurns(c.state, x, Ready(c.tcb.prio(x)), Ready(p), u, t); }
    case WakeOne(x, _) => MoveKeepsTurns(c.state, x, Ready(c.tcb.prio(x)), Ready(p), u, t);
    case Suspend(x) =>
      MoveEndOk(c.state, x, SuspendedTasks);
      MoveKeepsTurns(c.state, x, SuspendedTasks, Ready(p), u, t);
    case Resume(x) => if IsSuspended(c, x) { MoveKeepsTurns(c.state, x, Ready(c.tcb.prio(x)), Ready(p), u, t); }
    case ResumeFromISR(x) => if IsSuspended(c, x) { MoveKeepsTurns(c.state, x, Ready(c.tcb.prio(x)), Ready(p), u, t); }
  }

  lemma LifeKeepsTurns(c: Core, step: Step, p: int, u: Task, t: Task)
    requires Inv(c) && Enabled(c, step) && IsLife(step) && BothAt(c, p, u, t) && Before(c.state, Ready(p), u, t)
    requires BothAt(ApplyLives(c, step), p, u, t)
    ensures Before(ApplyLives(c, step).state, Ready(p), u, t)
  {
    match step
    case Create(x, q) => PutEndKeepsTurns(c.state, Ready(Clip(q)), x, Ready(p), u, t);
    case Delete(x) =>
      TakeOk(c.state, x);
      MoveEndOk(c.state, x, Termination);
      TakeKeepsTurns(c.state, x, Ready(p), u, t);
      MoveKeepsTurns(c.state, x, Termination, Ready(p), u, t);
    case Reap =>
      TakeHead(c.state, Termination);
      TakeKeepsTurns(c.state, c.state.at(Termination).items[0], Ready(p), u, t);
  }

  lemma ReprioritiseKeepsTurns(c: Core, x: Task, q: int, p: int, u: Task, t: Task)
    requires Filed(c.state) && Before(c.state, Ready(p), u, t) && x != u && x != t
    ensures Before(Reprioritise(c, x, q).state, Ready(p), u, t)
  {
    MoveKeepsTurns(c.state, x, Ready(q), Ready(p), u, t);
  }

  /** A change of its priority takes a ready task to another list; only setting a priority that stays
    * covered by an inherited one moves a task to the end of its own. */
  lemma PriorityMovesAway(c: Core, step: Step, p: int, x: Task)
    requires Inv(c) && Enabled(c, step) && IsPriority(step) && !step.SetPriority?
    requires c.state.home(x) == In(Ready(p)) && ApplyPriorities(c, step).state.home(x) == In(Ready(p))
    ensures ApplyPriorities(c, step).tcb.prio(x) == c.tcb.prio(x)
  {
    match step
    case TakeMutex =>
    case ResetEventValue =>
    case Inherit(y) => InheritCard(c, y, x);
    case Disinherit => DisinheritCard(c, x);
    case DisinheritAfterTimeout(y, q) => DisinheritAfterTimeoutCard(c, y, q, x);
  }

  lemma PriorityKeepsTurns(c: Core, step: Step, p: int, u: Task, t: Task)
    requires Inv(c) && Enabled(c, step) && IsPriority(step) && BothAt(c, p, u, t) && Before(c.state, Ready(p), u, t)
    requires BothAt(ApplyPriorities(c, step), p, u, t) && !(step.SetPriority? && (step.t == u || step.t == t))
    ensures Before(ApplyPriorities(c, step).state, Ready(p), u, t)
  {
    var d := ApplyPriorities(c, step);
    if !step.SetPriority? {
      PriorityMovesAway(c, step, p, u);
      PriorityMovesAway(c, step, p, t);
    }
    if !step.TakeMutex? && !step.ResetEventValue? {
      var x := if step.Disinherit? then c.current else step.t;
      if x != u && x != t {
        ReprioritiseKeepsTurns(c, x, d.tcb.prio(x), p, u, t);
      }
    }
  }

  lemma StepKeepsTurns(c: Core, step: Step, p: int, u: Task, t: Task)
    requires Inv(c) && Enabled(c, step) && BothAt(c, p, u, t) && Before(c.state, Ready(p), u, t)
    requires BothAt(Apply(c, step), p, u, t) && !(step.SetPriority? && (step.t == u || step.t == t))
    requires !(step.SwitchContext? && c.suspended == 0 && Apply(c, step).current == u)
    ensures Before(Apply(c, step).state, Ready(p), u, t)
  {
    if IsTime(step) { TimeKeepsTurns(c, step, p, u, t); }
    else if IsWait(step) { WaitKeepsTurns(c, step, p, u, t); }
    else if IsWake(step) { WakeKeepsTurns(c, step, p, u, t); }
    else if IsLife(step) { LifeKeepsTurns(c, step, p, u, t); }
    else { PriorityKeepsTurns(c, step, p, u, t); }
  }

  // ---------------------------------------------------------------------------
  // Runs.
  // ---------------------------------------------------------------------------

  /** The state after the first k steps. */
  ghost function After(c: Core, steps: seq<Step>, end: Core, k: nat): Core
    requires Run(c, steps, end) && k <= |steps|
    decreases k
  {
    if k == 0 then c else After(Apply(c, steps[0]), steps[1..], end, k - 1)
  }

  lemma {:induction false} AfterNext(c: Core, steps: seq<Step>, end: Core, k: nat)
    requires Inv(c) && Run(c, steps, end) && k < |steps|
    ensures Inv(After(c, steps, end, k)) && Enabled(After(c, steps, end, k), steps[k])
    ensures After(c, steps, end, k + 1) == Apply(After(c, steps, end, k), steps[k])
    decreases k
  {
    if k > 0 {
      StepKeepsInv(c, steps[0]);
      AfterNext(Apply(c, steps[0]), steps[1..], end, k - 1);
    }
  }

  /** Step k is a context switch that selects task t. */
  ghost predicate Selects(c: Core, steps: seq<Step>, end: Core, k: nat, t: Task)
    requires Run(c, steps, end)
  {
    k < |steps| && steps[k] == SwitchContext && After(c, steps, end, k).suspended == 0 && After(c, steps, end, k + 1).current == t
  }

  /** From state i to state k both tasks stay on ready list p, and their priorities are not set. */
  ghost predicate StayReady(c: Core, steps: seq<Step>, end: Core, i: nat, k: nat, p: int, u: Task, t: Task)
    requires Run(c, steps, end)
  {
    && i <= k <= |steps|
    && (forall j :: i <= j <= k ==> BothAt(After(c, steps, end, j), p, u, t))
    && (forall j :: i <= j < k ==> !(steps[j].SetPriority? && (steps[j].t == u || steps[j].t == t)))
  }

  lemma SelectionComesLast(c: Core, p: int, u: Task, t: Task)
    requires Inv(c) && Enabled(c, SwitchContext) && c.suspended == 0 && BothAt(c, p, u, t) && u != t
    requires Apply(c, SwitchContext).current == t
    ensures Before(Apply(c, SwitchContext).state, Ready(p), u, t)
  {
    var l := Ready(HighestReady(c, MAX_PRIORITIES - 1));
    var r := c.state.at(l);
    assert Rings.Selected(Rings.Advance(r)) in r.items;
    assert l == Ready(p);
    Rings.SelectTakesTheLeader(r, u);
    Rings.SelectTakesTheLeader(r, t);
  }

  lemma {:induction false} TurnsAreKept(c: Core, steps: seq<Step>, end: Core, i: nat, k: nat, p: int, u: Task, t: Task)
    requires Inv(c) && Run(c, steps, end) && StayReady(c, steps, end, i, k, p, u, t)
    requires Before(After(c, steps, end, i).state, Ready(p), u, t) && forall j :: i <= j < k ==> !Selects(c, steps, end, j, u)
    ensures Before(After(c, steps, end, k).state, Ready(p), u, t)
    decreases k
  {
    if i < k {
      TurnsAreKept(c, steps, end, i, k - 1, p, u, t);
      AfterNext(c, steps, end, k - 1);
      var b := After(c, steps, end, k - 1);
      assert !Selects(c, steps, end, k - 1, u);
      assert BothAt(b, p, u, t) && BothAt(Apply(b, steps[k - 1]), p, u, t);
      StepKeepsTurns(b, steps[k - 1], p, u, t);
    }
  }

  /** Between two selections of task t every task u that is ready at the same priority all the while is
    * selected. */
  lemma EverybodyGetsATurn(c: Core, steps: seq<Step>, end: Core, i: nat, k: nat, p: int, u: Task, t: Task) returns (j: nat)
    requires Inv(c) && Run(c, steps, end) && i < k && Selects(c, steps, end, i, t) && Selects(c, steps, end, k, t)
    requires u != t && StayReady(c, steps, end, i, k, p, u, t)
    ensures i < j < k && Selects(c, steps, end, j, u)
  {
    j := i;
    AfterNext(c, steps, end, i);
    SelectionComesLast(After(c, steps, end, i), p, u, t);
    if forall m :: i + 1 <= m < k ==> !Selects(c, steps, end, m, u) {
      TurnsAreKept(c, steps, end, i + 1, k, p, u, t);
      AfterNext(c, steps, end, k);
      SwitchKeepsTurns(After(c, steps, end, k), p, u, t);
      assert false;
    } else {
      j :| i + 1 <= j < k && Selects(c, steps, end, j, u);
    }
  }
}
