/** How attempts to take a mutex end, over every interleaving: with the mutex, or without it for one
  * of the reasons the source gives. */
module MutexOutcomes {
  import opened MutexProtocol

  // ---------------------------------------------------------------------------
  // An attempt that ends without the mutex has run out of time.
  // ---------------------------------------------------------------------------

  /** Timed out, and about to look again or to give a priority back. */
  predicate TimedOutPc(pc: Pc) {
    pc.Expired? || pc.Disinheriting?
  }

  /** Step j of task t says that its time is over: it called with no time to wait, or a wait timed out;
    * and it begins no other call before step k. */
  predicate RanOutOfTime(steps: seq<Step>, j: nat, k: nat, t: Task) {
    && j < k <= |steps| && steps[j].t == t
    && ((steps[j].Call? && !steps[j].ticks) || (steps[j].Window? && steps[j].answer.TimedOut?))
    && forall i :: j < i < k ==> !(steps[i].Call? && steps[i].t == t)
  }

  /** No ticks left to wait. */
  predicate OutOfTime(pc: Pc) {
    TimedOutPc(pc) || (pc.Top? && !pc.ticks)
  }

  lemma OneStepRunsOut(s: State, step: Step, t: Task)
    requires WaitLists(s) && Enabled(s, step) && OutOfTime(Apply(s, step).pc(t))
    ensures (step.t == t && ((step.Call? && !step.ticks) || (step.Window? && step.answer.TimedOut?))) ||
            (OutOfTime(s.pc(t)) && !(step.Call? && step.t == t))
  {
  }

  lemma {:induction false} OutOfTimeRanOut(s: State, steps: seq<Step>, end: State, k: nat, t: Task) returns (j: nat)
    requires Init(s) && Run(s, steps, end) && k <= |steps| && OutOfTime(After(s, steps, end, k).pc(t))
    ensures RanOutOfTime(steps, j, k, t)
    decreases k
  {
    AfterNext(s, steps, end, k - 1);
    InitOk(s);
    InvAfter(s, steps, end, k - 1);
    var c := After(s, steps, end, k - 1);
    OneStepRunsOut(c, steps[k - 1], t);
    if steps[k - 1].t == t && ((steps[k - 1].Call? && !steps[k - 1].ticks) || (steps[k - 1].Window? && steps[k - 1].answer.TimedOut?)) {
      j := k - 1;
    } else {
      j := OutOfTimeRanOut(s, steps, end, k - 1, t);
    }
  }

  lemma LeavesTheTake(s: State, step: Step, t: Task)
    requires WaitLists(s) && Enabled(s, step) && s.pc(t) != Away && Apply(s, step).pc(t) == Away
    ensures step.t == t && (step.Check? || step.Recheck? || step.GiveBack?)
    ensures var d, m := Apply(s, step), s.pc(t).m;
            if step.Check? && s.owner(m).Free? then d.owner(m) == Held(t) && d.held(t) == s.held(t) + 1
            else OutOfTime(s.pc(t)) && d.owner == s.owner && d.held == s.held && (!step.GiveBack? ==> s.owner(m).Held?)
  {
  }

  /** An attempt to take a mutex ends at step k of any run only with the mutex, found free at a check; or
    * without it after its time has run out, with the mutex held at its last look. */
  lemma TakeEndsHeldOrOutOfTime(s: State, steps: seq<Step>, end: State, k: nat, t: Task) returns (j: nat)
    requires Init(s) && Run(s, steps, end) && k < |steps|
    requires After(s, steps, end, k).pc(t) != Away && After(s, steps, end, k + 1).pc(t) == Away
    ensures var b, a, m := After(s, steps, end, k), After(s, steps, end, k + 1), After(s, steps, end, k).pc(t).m;
            || (steps[k] == Check(t) && b.owner(m).Free? && a.owner(m) == Held(t) && a.held(t) == 1)
            || (RanOutOfTime(steps, j, k, t) && a.owner == b.owner &&
                (((steps[k] == Check(t) || steps[k] == Recheck(t)) && b.owner(m).Held?) || steps[k] == GiveBack(t)))
  {
    AfterNext(s, steps, end, k);
    InitOk(s);
    InvAfter(s, steps, end, k);
    InvAfter(s, steps, end, k + 1);
    var b := After(s, steps, end, k);
    LeavesTheTake(b, steps[k], t);
    j := 0;
    if !(steps[k].Check? && b.owner(b.pc(t).m).Free?) {
      j := OutOfTimeRanOut(s, steps, end, k, t);
    }
  }

  // ---------------------------------------------------------------------------
  // An attempt whose time runs tries again.
  // ---------------------------------------------------------------------------

  /** At its check with time to wait, or waiting. */
  predicate Trying(pc: Pc, m: Mutex) {
    (pc.Top? && pc.m == m && pc.ticks) || (pc.Waiting? && pc.m == m)
  }

  lemma WindowInTime(s: State, t: Task)
    requires Priorities(s) && Ownership(s) && WaitLists(s) && Enabled(s, Window(t, InTime))
    ensures var d, m := Apply(s, Window(t, InTime)), s.pc(t).m;
            Trying(d.pc(t), m) && if s.owner(m).Free? then d.pc(t).Top? else t in d.waiters(m)
  {
    if s.owner(s.pc(t).m).Held? { BlockSorts(s, Window(t, InTime)); }
  }

  lemma OneStepTrying(s: State, step: Step, t: Task, m: Mutex)
    requires WaitLists(s) && Enabled(s, step) && Trying(s.pc(t), m) && step != Check(t)
    ensures Trying(Apply(s, step).pc(t), m)
  {
    if step.Give? && s.waiters(step.m) != [] {
      assert s.waiters(step.m)[0] in s.waiters(step.m);
    }
  }

  lemma {:induction false} StaysTrying(s: State, steps: seq<Step>, end: State, j: nat, k: nat, t: Task, m: Mutex)
    requires Init(s) && Run(s, steps, end) && j <= k <= |steps| && Trying(After(s, steps, end, j).pc(t), m)
    requires forall i :: j <= i < k ==> steps[i] != Check(t)
    ensures Trying(After(s, steps, end, k).pc(t), m)
    decreases k
  {
    if j < k {
      StaysTrying(s, steps, end, j, k - 1, t, m);
      AfterNext(s, steps, end, k - 1);
      InitOk(s);
      InvAfter(s, steps, end, k - 1);
      OneStepTrying(After(s, steps, end, k - 1), steps[k - 1], t, m);
    }
  }

  /** A task in time either found the mutex free, or joined those that wait for it; from then on until its
    * next check it is at that check or waits, for the same mutex and with time to wait. */
  lemma InTimeTakeTriesAgain(s: State, steps: seq<Step>, end: State, j: nat, k: nat, t: Task)
    requires Init(s) && Run(s, steps, end) && j < k <= |steps| && steps[j] == Window(t, InTime)
    requires forall i :: j < i < k ==> steps[i] != Check(t)
    ensures var b := After(s, steps, end, j);
            && b.pc(t).Mid? && Trying(After(s, steps, end, k).pc(t), b.pc(t).m)
            && (b.owner(b.pc(t).m).Free? || t in After(s, steps, end, j + 1).waiters(b.pc(t).m))
  {
    AfterNext(s, steps, end, j);
    InitOk(s);
    InvAfter(s, steps, end, j);
    WindowInTime(After(s, steps, end, j), t);
    StaysTrying(s, steps, end, j + 1, k, t, After(s, steps, end, j).pc(t).m);
  }

  // ---------------------------------------------------------------------------
  // An attempt without time to wait does not wait.
  // ---------------------------------------------------------------------------

  /** At a check the task gets a free mutex; otherwise it goes on if it has time to wait, and gives up if not. */
  lemma CheckDecides(s: State, t: Task)
    requires Enabled(s, Check(t))
    ensures var d, m := Apply(s, Check(t)), s.pc(t).m;
            if s.owner(m).Free? then d.owner(m) == Held(t) && d.held(t) == s.held(t) + 1 && d.pc(t).Away?
            else d.owner == s.owner && d.held == s.held && if s.pc(t).ticks then d.pc(t).Mid? && d.pc(t).m == m else d.pc(t).Away?
    ensures forall u :: u != t ==> Apply(s, Check(t)).pc(u) == s.pc(u) && Apply(s, Check(t)).held(u) == s.held(u)
  {
  }

  lemma OneStepBeforeCheck(s: State, step: Step, t: Task, m: Mutex, ticks: bool)
    requires WaitLists(s) && Enabled(s, step) && step != Check(t) && s.pc(t) == Top(m, false, ticks, false)
    ensures Apply(s, step).pc(t) == Top(m, false, ticks, false)
  {
    if step.Give? && s.waiters(step.m) != [] {
      assert s.waiters(step.m)[0] in s.waiters(step.m);
    }
  }

  /** A task that calls take is at its check, with the time it was given, until it has checked. */
  lemma {:induction false} CallComesToItsCheck(s: State, steps: seq<Step>, end: State, j: nat, k: nat, t: Task, m: Mutex, ticks: bool)
    requires Init(s) && Run(s, steps, end) && j < k <= |steps| && steps[j] == Call(t, m, ticks)
    requires forall i :: j < i < k ==> steps[i] != Check(t)
    ensures After(s, steps, end, k).pc(t) == Top(m, false, ticks, false)
    decreases k
  {
    AfterNext(s, steps, end, k - 1);
    if j < k - 1 {
      CallComesToItsCheck(s, steps, end, j, k - 1, t, m, ticks);
      InitOk(s);
      InvAfter(s, steps, end, k - 1);
      OneStepBeforeCheck(After(s, steps, end, k - 1), steps[k - 1], t, m, ticks);
    }
  }

  /** A call without time to wait is over after its first check, with the mutex if it was free. */
  lemma CallWithoutTimeDoesNotWait(s: State, steps: seq<Step>, end: State, j: nat, k: nat, t: Task, m: Mutex)
    requires Init(s) && Run(s, steps, end) && j < k < |steps| && steps[j] == Call(t, m, false) && steps[k] == Check(t)
    requires forall i :: j < i < k ==> steps[i] != Check(t)
    ensures var b, a := After(s, steps, end, k), After(s, steps, end, k + 1);
            a.pc(t).Away? && if b.owner(m).Free? then a.owner(m) == Held(t) else a.owner == b.owner
  {
    CallComesToItsCheck(s, steps, end, j, k, t, m, false);
    AfterNext(s, steps, end, k);
    CheckDecides(After(s, steps, end, k), t);
  }

  // ---------------------------------------------------------------------------
  // Giving.
  // ---------------------------------------------------------------------------

  /** uxMutexesHeld counts what it is meant to. */
  ghost predicate HeldCounts(s: State) {
    forall t :: s.held(t) != 0 ==> s.held(t) == 1 && exists m :: s.owner(m) == Held(t)
  }

  lemma StepKeepsHeldCounts(s: State, step: Step)
    requires Ownership(s) && HeldCounts(s) && Enabled(s, step)
    ensures HeldCounts(Apply(s, step))
  {
    var d := Apply(s, step);
    forall t | d.held(t) != 0
      ensures d.held(t) == 1 && exists m :: d.owner(m) == Held(t)
    {
      if step.Check? && step.t == t && s.owner(s.pc(t).m).Free? {
        assert d.owner(s.pc(t).m) == Held(t);
      } else {
        var m :| s.owner(m) == Held(t);
        assert d.owner(m) == Held(t);
      }
    }
  }

  lemma {:induction false} RunKeepsHeldCounts(s: State, steps: seq<Step>, end: State)
    requires Inv(s) && HeldCounts(s) && Run(s, steps, end)
    ensures Inv(end) && HeldCounts(end)
    decreases |steps|
  {
    if steps != [] {
      StepKeepsInv(s, steps[0]);
      StepKeepsHeldCounts(s, steps[0]);
      RunKeepsHeldCounts(Apply(s, steps[0]), steps[1..], end);
    }
  }

  /** In every run a task counts exactly the mutexes that it holds, and has its base priority when it holds none. */
  lemma HeldMeansOwner(s: State, steps: seq<Step>, end: State, t: Task)
    requires Init(s) && Run(s, steps, end)
    ensures end.held(t) == 1 || (end.held(t) == 0 && end.prio(t) == end.base(t))
    ensures end.held(t) == 1 <==> exists m :: end.owner(m) == Held(t)
  {
    InitOk(s);
    RunKeepsHeldCounts(s, steps, end);
  }

  /** A mutex that is given is free, its holder is back at its base priority, and the first that waits is
    * off the list and back at its check; everybody else stays. */
  lemma GiveHandsOn(s: State, t: Task, m: Mutex)
    requires Inv(s) && Enabled(s, Give(t, m))
    ensures var d, ws := Apply(s, Give(t, m)), s.waiters(m);
            && d.owner(m) == Free && d.held(t) == 0 && d.prio(t) == d.base(t) == s.base(t)
            && (ws != [] ==> d.waiters(m) == ws[1..] && d.pc(ws[0]).Top? && d.pc(ws[0]).m == m && d.pc(ws[0]).ticks)
            && (ws == [] ==> d.waiters(m) == [])
            && (forall u :: u != t ==> d.prio(u) == s.prio(u)) && (forall u :: ws == [] || u != ws[0] ==> d.pc(u) == s.pc(u))
  {
    if s.waiters(m) != [] {
      assert s.waiters(m)[0] in s.waiters(m);
    }
  }
}
