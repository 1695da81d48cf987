/** How calls on a queue end, over every interleaving: served, or unserved for one of the reasons
  * the source gives; who leaves the event lists, and what becomes of the messages. */
module QueueOutcomes {
  import Rings
  import opened QueueProtocol

  // ---------------------------------------------------------------------------
  // Runs step by step.
  // ---------------------------------------------------------------------------

  /** The state after the first k steps. */
  ghost function After(s: State, steps: seq<Step>, end: State, k: nat): State
    requires Run(s, steps, end) && k <= |steps|
    decreases k
  {
    if k == 0 then s else After(QueueProtocol.Apply(s, steps[0]), steps[1..], end, k - 1)
  }

  lemma {:induction false} AfterNext(s: State, steps: seq<Step>, end: State, k: nat)
    requires Run(s, steps, end) && k < |steps|
    ensures Enabled(After(s, steps, end, k), steps[k]) && LockHasRoom(After(s, steps, end, k), steps[k])
    ensures After(s, steps, end, k + 1) == QueueProtocol.Apply(After(s, steps, end, k), steps[k])
    decreases k
  {
    if k > 0 {
      AfterNext(QueueProtocol.Apply(s, steps[0]), steps[1..], end, k - 1);
    }
  }

  lemma {:induction false} InvAfter(s: State, steps: seq<Step>, end: State, k: nat)
    requires Inv(s) && Run(s, steps, end) && k <= |steps|
    ensures Inv(After(s, steps, end, k))
    decreases k
  {
    if k > 0 {
      AfterNext(s, steps, end, k - 1);
      InvAfter(s, steps, end, k - 1);
      StepKeepsInv(After(s, steps, end, k - 1), steps[k - 1]);
    }
  }

  /** The step is one of task t in its own code. */
  predicate Own(step: Step, t: Task) {
    match step
    case TickExpires(_) => false
    case IsrSend(_) => false
    case IsrReceive => false
    case _ => step.t == t
  }

  lemma OthersLeaveTheTask(s: State, step: Step, t: Task)
    requires Enabled(s, step) && t in s.pc && !Own(step, t)
    ensures var d := QueueProtocol.Apply(s, step); t in d.pc && d.pc[t] == s.pc[t]
  {
  }

  // ---------------------------------------------------------------------------
  // A call that gives up has timed out.
  // ---------------------------------------------------------------------------

  /** Timed out, and on the way to giving up. */
  predicate GivesUp(pc: Pc) {
    pc.Expired? || ((pc.UnlockTx? || pc.UnlockRx? || pc.Resume?) && pc.after == GiveUp)
  }

  /** Step j is the examination of the time-out by task t, with the given answer, and until step k the
    * task begins no other call, checks no queue and examines no time-out. */
  predicate LatestTimeOut(steps: seq<Step>, j: nat, k: nat, t: Task, expired: bool) {
    && j < k <= |steps| && steps[j] == DoTimeOut(t, expired)
    && forall i :: j < i < k ==> !(Own(steps[i], t) && (steps[i].Begin? || steps[i].DoCheck? || steps[i].DoTimeOut?))
  }

  lemma OneStepGivesUp(s: State, step: Step, t: Task)
    requires Enabled(s, step) && t in s.pc && GivesUp(QueueProtocol.Apply(s, step).pc[t])
    ensures step == DoTimeOut(t, true) ||
            (GivesUp(s.pc[t]) && !(Own(step, t) && (step.Begin? || step.DoCheck? || step.DoTimeOut?)))
  {
  }

  lemma {:induction false} GivingUpHasTimedOut(s: State, steps: seq<Step>, end: State, k: nat, t: Task) returns (j: nat)
    requires Init(s) && Run(s, steps, end) && k <= |steps| && t in After(s, steps, end, k).pc && GivesUp(After(s, steps, end, k).pc[t])
    ensures LatestTimeOut(steps, j, k, t, true)
    decreases k
  {
    AfterNext(s, steps, end, k - 1);
    var c := After(s, steps, end, k - 1);
    TasksAreFixed(c, steps[k - 1], t);
    OneStepGivesUp(c, steps[k - 1], t);
    if steps[k - 1] == DoTimeOut(t, true) {
      j := k - 1;
    } else {
      j := GivingUpHasTimedOut(s, steps, end, k - 1, t);
    }
  }

  lemma TasksAreFixed(s: State, step: Step, t: Task)
    requires Enabled(s, step)
    ensures t in QueueProtocol.Apply(s, step).pc <==> t in s.pc
  {
  }

  /** What a served call does to the number of messages. */
  predicate ServedWith(call: Call, before: int, cap: int, after: int) {
    match call
    case Receive => before > 0 && after == before - 1
    case Peek => before > 0 && after == before
    case Send => before < cap && after == before + 1
    case Overwrite => after == if before > 0 then before else 1
  }

  /** The queue has nothing for the call. */
  predicate NothingFor(call: Call, n: int, cap: int) {
    match call
    case Receive => n == 0
    case Peek => n == 0
    case Send => n == cap
    case Overwrite => false
  }

  /** A check serves the call and ends it if the queue has something for it; otherwise it changes no
    * count, and ends the call if it may not wait. */
  lemma CheckServesOrWaits(s: State, t: Task, mayWait: bool)
    requires Inv(s) && Enabled(s, DoCheck(t, mayWait))
    ensures var d, call := QueueProtocol.Apply(s, DoCheck(t, mayWait)), s.pc[t].call;
            if NothingFor(call, s.n, s.cap) then d.n == s.n && (if mayWait then d.pc[t] == Enter(call) else d.pc[t] == Out)
            else ServedWith(call, s.n, s.cap, d.n) && d.pc[t] == Out
  {
  }

  /** The only other ways out. */
  lemma LeavesUnserved(s: State, step: Step, t: Task)
    requires Inv(s) && Enabled(s, step) && !step.DoCheck?
    requires t in s.pc && s.pc[t] != Out && QueueProtocol.Apply(s, step).pc[t] == Out
    ensures GivesUp(s.pc[t]) && QueueProtocol.Apply(s, step).n == s.n
    ensures (step == DoResume(t) && !Reader(s.pc[t].call)) || (step == DoExpired(t) && s.n == 0)
  {
  }

  /** A call ends at step k of any run only in one of three ways: its check is served; its check finds
    * nothing and it may not wait; or its latest examination of the time-out found the time expired,
    * and a reader has then looked once more and found the queue empty. */
  lemma CallEndsServedOrTimedOut(s: State, steps: seq<Step>, end: State, k: nat, t: Task) returns (j: nat)
    requires Init(s) && Run(s, steps, end) && k < |steps|
    requires var b, a := After(s, steps, end, k), After(s, steps, end, k + 1); t in b.pc && b.pc[t] != Out && t in a.pc && a.pc[t] == Out
    ensures var b, a := After(s, steps, end, k), After(s, steps, end, k + 1);
            var call := b.pc[t].call;
            || ((steps[k] == DoCheck(t, true) || steps[k] == DoCheck(t, false)) && ServedWith(call, b.n, b.cap, a.n))
            || (steps[k] == DoCheck(t, false) && NothingFor(call, b.n, b.cap) && a.n == b.n)
            || (LatestTimeOut(steps, j, k, t, true) && a.n == b.n && (Reader(call) ==> steps[k] == DoExpired(t) && b.n == 0))
  {
    var b := After(s, steps, end, k);
    AfterNext(s, steps, end, k);
    InvAfter(s, steps, end, k);
    j := 0;
    if !Own(steps[k], t) {
      OthersLeaveTheTask(b, steps[k], t);
    } else if steps[k].DoCheck? {
      CheckServesOrWaits(b, t, steps[k].mayWait);
    } else {
      LeavesUnserved(b, steps[k], t);
      j := GivingUpHasTimedOut(s, steps, end, k, t);
    }
  }

  lemma OneStepAfterExpiry(s: State, step: Step, t: Task)
    requires Inv(s) && Enabled(s, step) && t in s.pc && GivesUp(s.pc[t])
    requires !(Own(step, t) && (step.Begin? || step.DoCheck? || step.DoTimeOut?))
    ensures var d := QueueProtocol.Apply(s, step);
            || (GivesUp(d.pc[t]) && d.pc[t].call == s.pc[t].call) || d.pc[t] == Out
            || (d.pc[t] == Check(s.pc[t].call) && step == DoExpired(t) && s.n > 0)
  {
  }

  /** A step of a task that is out of its call, or at its check, that neither begins one nor checks. */
  lemma StaysPut(s: State, step: Step, t: Task)
    requires Enabled(s, step) && t in s.pc && (s.pc[t].Out? || s.pc[t].Check?)
    requires !(Own(step, t) && (step.Begin? || step.DoCheck? || step.DoTimeOut?))
    ensures QueueProtocol.Apply(s, step).pc[t] == s.pc[t]
  {
  }

  /** Step l is task t looking again after its time-out and finding messages. */
  ghost predicate LooksAgain(s: State, steps: seq<Step>, end: State, l: nat, t: Task)
    requires Run(s, steps, end)
  {
    l < |steps| && steps[l] == DoExpired(t) && After(s, steps, end, l).n > 0
  }

  ghost predicate HasLooked(s: State, steps: seq<Step>, end: State, j: nat, k: nat, t: Task)
    requires Run(s, steps, end)
  {
    exists l :: j < l < k && LooksAgain(s, steps, end, l, t)
  }

  ghost predicate OnItsWayOut(s: State, steps: seq<Step>, end: State, j: nat, k: nat, t: Task)
    requires Run(s, steps, end) && k <= |steps|
  {
    var c := After(s, steps, end, k);
    t in c.pc && (GivesUp(c.pc[t]) || c.pc[t] == Out || (c.pc[t].Check? && HasLooked(s, steps, end, j, k, t)))
  }

  lemma OneStepOnTheWayOut(s: State, steps: seq<Step>, end: State, j: nat, k: nat, t: Task)
    requires Init(s) && Run(s, steps, end) && k < |steps| && LatestTimeOut(steps, j, k + 1, t, true) && j < k
    requires OnItsWayOut(s, steps, end, j, k, t)
    ensures OnItsWayOut(s, steps, end, j, k + 1, t)
  {
    var b := After(s, steps, end, k);
    AfterNext(s, steps, end, k);
    InvAfter(s, steps, end, k);
    if GivesUp(b.pc[t]) {
      OneStepAfterExpiry(b, steps[k], t);
      if steps[k] == DoExpired(t) && b.n > 0 { assert LooksAgain(s, steps, end, k, t); }
    } else {
      StaysPut(b, steps[k], t);
    }
  }

  lemma {:induction false} TimedOutIsOnItsWayOut(s: State, steps: seq<Step>, end: State, j: nat, k: nat, t: Task)
    requires Init(s) && Run(s, steps, end) && LatestTimeOut(steps, j, k, t, true)
    ensures OnItsWayOut(s, steps, end, j, k, t)
    decreases k
  {
    AfterNext(s, steps, end, k - 1);
    if j < k - 1 {
      TimedOutIsOnItsWayOut(s, steps, end, j, k - 1, t);
      OneStepOnTheWayOut(s, steps, end, j, k - 1, t);
    }
  }

  lemma OnlyWaitersWait(s: State, t: Task)
    requires Inv(s) && t in s.pc && (GivesUp(s.pc[t]) || s.pc[t] == Out || s.pc[t].Check?)
    ensures t !in s.recv.waiting && t !in s.send.waiting
  {
  }

  /** From a time-out on a call does not wait any more: until its next check it is on its way out or out,
    * or back at its check because a reader looked again and found messages. */
  lemma TimedOutCallDoesNotWait(s: State, steps: seq<Step>, end: State, j: nat, k: nat, t: Task)
    requires Init(s) && Run(s, steps, end) && LatestTimeOut(steps, j, k, t, true)
    ensures var c := After(s, steps, end, k);
            && t in c.pc && t !in c.recv.waiting && t !in c.send.waiting
            && (GivesUp(c.pc[t]) || c.pc[t] == Out || (c.pc[t].Check? && exists l :: j < l < k && LooksAgain(s, steps, end, l, t)))
  {
    TimedOutIsOnItsWayOut(s, steps, end, j, k, t);
    InvAfter(s, steps, end, k);
    OnlyWaitersWait(After(s, steps, end, k), t);
  }

  // ---------------------------------------------------------------------------
  // A call whose time runs tries again.
  // ---------------------------------------------------------------------------

  /** About to test the queue, or found it empty or full. */
  predicate Tests(pc: Pc) {
    pc.Test? || pc.Place?
  }

  predicate Finishing(pc: Pc, after: QueueProtocol.After) {
    (pc.UnlockTx? || pc.UnlockRx? || pc.Resume?) && pc.after == after
  }

  /** Step l is the test of task t, and the queue has something for its call. */
  ghost predicate TestSucceeds(s: State, steps: seq<Step>, end: State, l: nat, t: Task, call: Call)
    requires Run(s, steps, end)
  {
    l < |steps| && steps[l] == DoTest(t) && var c := After(s, steps, end, l); !NothingFor(call, c.n, c.cap)
  }

  /** After l steps task t is on the event list of its call. */
  ghost predicate OnItsList(s: State, steps: seq<Step>, end: State, l: nat, t: Task, call: Call)
    requires Run(s, steps, end)
  {
    l <= |steps| && var c := After(s, steps, end, l); t in (if Reader(call) then c.recv else c.send).waiting
  }

  ghost predicate HasTested(s: State, steps: seq<Step>, end: State, j: nat, k: nat, t: Task, call: Call)
    requires Run(s, steps, end)
  {
    exists l :: j < l < k && TestSucceeds(s, steps, end, l, t, call)
  }

  ghost predicate HasWaited(s: State, steps: seq<Step>, end: State, j: nat, k: nat, t: Task, call: Call)
    requires Run(s, steps, end)
  {
    exists l :: j < l <= k && OnItsList(s, steps, end, l, t, call)
  }

  /** Where a call may be between the examination of its time and its next check. */
  ghost predicate OnItsWay(s: State, steps: seq<Step>, end: State, j: nat, k: nat, t: Task, call: Call)
    requires Run(s, steps, end) && k <= |steps|
  {
    var c := After(s, steps, end, k);
    && t in c.pc && c.pc[t] != Out && c.pc[t].call == call
    && (|| Tests(c.pc[t])
        || (Finishing(c.pc[t], Retry) && HasTested(s, steps, end, j, k, t, call))
        || ((Finishing(c.pc[t], Sleep) || c.pc[t].Blocked?) && HasWaited(s, steps, end, j, k, t, call))
        || (c.pc[t].Check? && (HasTested(s, steps, end, j, k, t, call) || HasWaited(s, steps, end, j, k, t, call))))
  }

  lemma OneStepOfTest(s: State, step: Step, t: Task)
    requires Inv(s) && Enabled(s, step) && t in s.pc && Tests(s.pc[t])
    requires !(Own(step, t) && (step.Begin? || step.DoCheck? || step.DoTimeOut?))
    ensures var d, call := QueueProtocol.Apply(s, step), s.pc[t].call;
            && d.pc[t] != Out && d.pc[t].call == call
            && (|| Tests(d.pc[t])
                || (Finishing(d.pc[t], Retry) && step == DoTest(t) && !NothingFor(call, s.n, s.cap))
                || (Finishing(d.pc[t], Sleep) && t in (if Reader(call) then d.recv else d.send).waiting))
  {
    if step.DoPlace? && step.t == t {
      var side := if Reader(s.pc[t].call) then s.recv else s.send;
      InsertOk(side.waiting, step.at, t);
    }
  }

  lemma OneStepOfFinish(s: State, step: Step, t: Task)
    requires Enabled(s, step) && t in s.pc && (Finishing(s.pc[t], Retry) || Finishing(s.pc[t], Sleep) || s.pc[t].Blocked?)
    requires !(Own(step, t) && (step.Begin? || step.DoCheck? || step.DoTimeOut?))
    ensures var d := QueueProtocol.Apply(s, step);
            && d.pc[t] != Out && d.pc[t].call == s.pc[t].call
            && (Finishing(s.pc[t], Retry) ==> Finishing(d.pc[t], Retry) || d.pc[t].Check?)
            && (!Finishing(s.pc[t], Retry) ==> Finishing(d.pc[t], Sleep) || d.pc[t].Blocked? || d.pc[t].Check?)
  {
  }

  lemma WitnessesStay(s: State, steps: seq<Step>, end: State, j: nat, k: nat, t: Task, call: Call)
    requires Run(s, steps, end)
    ensures HasTested(s, steps, end, j, k, t, call) ==> HasTested(s, steps, end, j, k + 1, t, call)
    ensures HasWaited(s, steps, end, j, k, t, call) ==> HasWaited(s, steps, end, j, k + 1, t, call)
  {
    if l :| j < l < k && TestSucceeds(s, steps, end, l, t, call) {
      assert l < k + 1;
    }
    if l :| j < l <= k && OnItsList(s, steps, end, l, t, call) {
      assert l <= k + 1;
    }
  }

  lemma TestMovesOn(s: State, steps: seq<Step>, end: State, j: nat, k: nat, t: Task, call: Call)
    requires Init(s) && Run(s, steps, end) && j < k < |steps| && LatestTimeOut(steps, j, k + 1, t, false)
    requires var b := After(s, steps, end, k); t in b.pc && Tests(b.pc[t]) && b.pc[t].call == call
    ensures OnItsWay(s, steps, end, j, k + 1, t, call)
  {
    var b, d := After(s, steps, end, k), After(s, steps, end, k + 1);
    assert d == QueueProtocol.Apply(b, steps[k]) && Enabled(b, steps[k]) by { AfterNext(s, steps, end, k); }
    OneStepOfTest(b, steps[k], t) by { InvAfter(s, steps, end, k); }
    if Finishing(d.pc[t], Retry) {
      assert TestSucceeds(s, steps, end, k, t, call);
    } else if Finishing(d.pc[t], Sleep) {
      assert OnItsList(s, steps, end, k + 1, t, call);
    }
  }

  lemma OneStepOnItsWay(s: State, steps: seq<Step>, end: State, j: nat, k: nat, t: Task, call: Call)
    requires Init(s) && Run(s, steps, end) && j < k < |steps| && LatestTimeOut(steps, j, k + 1, t, false)
    requires OnItsWay(s, steps, end, j, k, t, call)
    ensures OnItsWay(s, steps, end, j, k + 1, t, call)
  {
    var b := After(s, steps, end, k);
    if Tests(b.pc[t]) {
      TestMovesOn(s, steps, end, j, k, t, call);
    } else {
      AfterNext(s, steps, end, k);
      WitnessesStay(s, steps, end, j, k, t, call);
      if b.pc[t].Check? { StaysPut(b, steps[k], t); } else { OneStepOfFinish(b, steps[k], t); }
    }
  }

  lemma {:induction false} InTimeIsOnItsWay(s: State, steps: seq<Step>, end: State, j: nat, k: nat, t: Task)
    requires Init(s) && Run(s, steps, end) && LatestTimeOut(steps, j, k, t, false)
    ensures t in After(s, steps, end, j).pc && After(s, steps, end, j).pc[t].Locked?
    ensures OnItsWay(s, steps, end, j, k, t, After(s, steps, end, j).pc[t].call)
    decreases k
  {
    AfterNext(s, steps, end, k - 1);
    if j < k - 1 {
      InTimeIsOnItsWay(s, steps, end, j, k - 1, t);
      OneStepOnItsWay(s, steps, end, j, k - 1, t, After(s, steps, end, j).pc[t].call);
    }
  }

  /** While its time runs a call does not end, and does not wait for nothing: after the examination of
    * its time, until its next check, it stays in the same call; and when it is back at its check, it has
    * tested the queue and found something, or it has been on its event list. */
  lemma InTimeCallTriesAgain(s: State, steps: seq<Step>, end: State, j: nat, k: nat, t: Task)
    requires Init(s) && Run(s, steps, end) && LatestTimeOut(steps, j, k, t, false)
    ensures var b, c := After(s, steps, end, j), After(s, steps, end, k);
            && t in b.pc && b.pc[t] != Out && t in c.pc && c.pc[t] != Out && c.pc[t].call == b.pc[t].call
            && (c.pc[t].Check? ==>
                  || (exists l :: j < l < k && TestSucceeds(s, steps, end, l, t, b.pc[t].call))
                  || (exists l :: j < l <= k && OnItsList(s, steps, end, l, t, b.pc[t].call)))
  {
    InTimeIsOnItsWay(s, steps, end, j, k, t);
  }

  // ---------------------------------------------------------------------------
  // Every turn of the loop examines the time.
  // ---------------------------------------------------------------------------

  predicate BeforeExamination(pc: Pc) {
    pc.Enter? || pc.Suspended? || pc.Locked?
  }

  ghost predicate HasExamined(steps: seq<Step>, i: nat, k: nat, t: Task) {
    exists j :: i < j < k <= |steps| && (steps[j] == DoTimeOut(t, true) || steps[j] == DoTimeOut(t, false))
  }

  lemma OneStepBeforeExamination(s: State, step: Step, t: Task)
    requires Enabled(s, step) && t in s.pc && BeforeExamination(s.pc[t])
    ensures var d := QueueProtocol.Apply(s, step);
            if step == DoTimeOut(t, true) || step == DoTimeOut(t, false) then d.pc[t] != Out && d.pc[t].call == s.pc[t].call
            else BeforeExamination(d.pc[t]) && d.pc[t].call == s.pc[t].call
  {
  }

  /** A task whose check found nothing and that may wait does not come to its next check, or to the end of
    * its call, before it has examined its time. */
  lemma {:induction false} EveryTurnExaminesTheTime(s: State, steps: seq<Step>, end: State, i: nat, k: nat, t: Task)
    requires Run(s, steps, end) && i < k <= |steps| && steps[i] == DoCheck(t, true)
    requires var b := After(s, steps, end, i); t in b.pc && b.pc[t].Check? && NothingFor(b.pc[t].call, b.n, b.cap) && b.cap >= 1
    ensures t in After(s, steps, end, k).pc
    ensures BeforeExamination(After(s, steps, end, k).pc[t]) || HasExamined(steps, i, k, t)
    decreases k
  {
    AfterNext(s, steps, end, k - 1);
    if i < k - 1 {
      EveryTurnExaminesTheTime(s, steps, end, i, k - 1, t);
      if HasExamined(steps, i, k - 1, t) {
        var j :| i < j < k - 1 && (steps[j] == DoTimeOut(t, true) || steps[j] == DoTimeOut(t, false));
        assert j < k;
      } else {
        OneStepBeforeExamination(After(s, steps, end, k - 1), steps[k - 1], t);
      }
    }
  }

  // ---------------------------------------------------------------------------
  // Messages.
  // ---------------------------------------------------------------------------

  /** What a step does to the number of messages: plus one for a message put into a slot, minus one for a
    * message taken out. */
  function Change(s: State, step: Step): int
    requires Enabled(s, step)
  {
    match step
    case IsrSend(overwrite) => if overwrite && s.n > 0 then 0 else 1
    case IsrReceive => -1
    case DoCheck(t, _) =>
      (match s.pc[t].call
       case Receive => if s.n > 0 then -1 else 0
       case Peek => 0
       case Send => if s.n < s.cap then 1 else 0
       case Overwrite => if s.n > 0 then 0 else 1)
    case _ => 0
  }

  ghost function Total(s: State, steps: seq<Step>, end: State): int
    requires Run(s, steps, end)
    decreases |steps|
  {
    if steps == [] then 0 else Change(s, steps[0]) + Total(QueueProtocol.Apply(s, steps[0]), steps[1..], end)
  }

  /** Over every run the number of messages is what was put in less what was taken out, and never below
    * zero or above the length of the queue. */
  lemma {:induction false} MessagesAreConserved(s: State, steps: seq<Step>, end: State)
    requires Inv(s) && Run(s, steps, end)
    ensures end.n == s.n + Total(s, steps, end) && 0 <= end.n <= end.cap == s.cap
    decreases |steps|
  {
    if steps != [] {
      StepKeepsInv(s, steps[0]);
      MessagesAreConserved(QueueProtocol.Apply(s, steps[0]), steps[1..], end);
    }
  }

  // ---------------------------------------------------------------------------
  // The event lists.
  // ---------------------------------------------------------------------------

  /** The first m tasks of a list have been woken, and the rest stay in order. */
  ghost predicate FirstWoken(before: Side, after: Side, m: int) {
    && 0 <= m <= |before.waiting| && after.waiting == before.waiting[m..]
    && forall t :: t in before.waiting[..m] ==> t in after.woken
  }

  lemma {:induction false} WakeTakesTheFirst(side: Side, k: nat)
    ensures FirstWoken(side, Wake(side, k), Min(k, |side.waiting|))
  {
    var m := Min(k, |side.waiting|);
    if k > 0 {
      WakeTakesTheFirst(side, k - 1);
      var l := Min(k - 1, |side.waiting|);
      if l < m {
        assert side.waiting[l..][1..] == side.waiting[m..];
        assert side.waiting[..m] == side.waiting[..l] + [side.waiting[l]];
      }
    }
  }

  /** How many waiting receivers a step wakes: one for a message that arrives, or is left by a peek, while
    * the queue is not locked; when it is unlocked, as many as messages arrived meanwhile. */
  function WokenReceivers(s: State, step: Step): nat
    requires Enabled(s, step)
  {
    match step
    case IsrSend(_) => if s.recv.lock == UNLOCKED then 1 else 0
    case DoCheck(t, _) => if !s.pc[t].call.Receive? && !NothingFor(s.pc[t].call, s.n, s.cap) then 1 else 0
    case DoUnlockTx(_) => Max0(s.recv.lock)
    case _ => 0
  }

  function WokenSenders(s: State, step: Step): nat
    requires Enabled(s, step)
  {
    match step
    case IsrReceive => if s.send.lock == UNLOCKED then 1 else 0
    case DoCheck(t, _) => if s.pc[t].call.Receive? && s.n > 0 then 1 else 0
    case DoUnlockRx(_) => Max0(s.send.lock)
    case _ => 0
  }

  lemma SameList(before: Side, after: Side)
    requires after.waiting == before.waiting
    ensures FirstWoken(before, after, 0)
  {
  }

  lemma HeadIsFirst(before: Side, back: Side, after: Side)
    requires back.waiting == before.waiting && after == WakeHead(back)
    ensures FirstWoken(before, after, Min(1, |before.waiting|))
  {
    if before.waiting != [] {
      assert before.waiting[..1] == [before.waiting[0]];
    }
  }

  lemma SomeAreFirst(before: Side, k: nat, lock: int)
    ensures FirstWoken(before, Wake(before, k).(lock := lock), Min(k, |before.waiting|))
  {
    WakeTakesTheFirst(before, k);
  }

  lemma CheckWakesReceivers(s: State, t: Task, mayWait: bool)
    requires 0 <= s.n <= s.cap && Enabled(s, DoCheck(t, mayWait))
    ensures FirstWoken(s.recv, QueueProtocol.Apply(s, DoCheck(t, mayWait)).recv, Min(WokenReceivers(s, DoCheck(t, mayWait)), |s.recv.waiting|))
  {
    var d := QueueProtocol.Apply(s, DoCheck(t, mayWait));
    if WokenReceivers(s, DoCheck(t, mayWait)) == 1 {
      HeadIsFirst(s.recv, Back(s.recv, t), d.recv);
    } else {
      SameList(s.recv, d.recv);
    }
  }

  lemma CheckWakesSenders(s: State, t: Task, mayWait: bool)
    requires 0 <= s.n <= s.cap && Enabled(s, DoCheck(t, mayWait))
    ensures FirstWoken(s.send, QueueProtocol.Apply(s, DoCheck(t, mayWait)).send, Min(WokenSenders(s, DoCheck(t, mayWait)), |s.send.waiting|))
  {
    var d := QueueProtocol.Apply(s, DoCheck(t, mayWait));
    if WokenSenders(s, DoCheck(t, mayWait)) == 1 {
      HeadIsFirst(s.send, Back(s.send, t), d.send);
    } else {
      SameList(s.send, d.send);
    }
  }

  lemma OthersWakeReceivers(s: State, step: Step)
    requires Enabled(s, step) && !step.DoCheck? && !step.DoPlace? && !step.TickExpires?
    ensures FirstWoken(s.recv, QueueProtocol.Apply(s, step).recv, Min(WokenReceivers(s, step), |s.recv.waiting|))
  {
    var d := QueueProtocol.Apply(s, step);
    if step.DoUnlockTx? {
      SomeAreFirst(s.recv, Max0(s.recv.lock), UNLOCKED);
    } else if step.IsrSend? && s.recv.lock == UNLOCKED {
      HeadIsFirst(s.recv, s.recv, d.recv);
    } else {
      SameList(s.recv, d.recv);
    }
  }

  lemma OthersWakeSenders(s: State, step: Step)
    requires Enabled(s, step) && !step.DoCheck? && !step.DoPlace? && !step.TickExpires?
    ensures FirstWoken(s.send, QueueProtocol.Apply(s, step).send, Min(WokenSenders(s, step), |s.send.waiting|))
  {
    var d := QueueProtocol.Apply(s, step);
    if step.DoUnlockRx? {
      SomeAreFirst(s.send, Max0(s.send.lock), UNLOCKED);
    } else if step.IsrReceive? && s.send.lock == UNLOCKED {
      HeadIsFirst(s.send, s.send, d.send);
    } else {
      SameList(s.send, d.send);
    }
  }

  /** The first to wait is the first to be woken: a step that is neither a task joining a list nor a time-out
    * takes off the front of each list exactly as many as it has work for. A locked list is left alone. */
  lemma TheFirstAreWoken(s: State, step: Step)
    requires Inv(s) && Enabled(s, step) && LockHasRoom(s, step) && !step.DoPlace? && !step.TickExpires?
    ensures FirstWoken(s.recv, QueueProtocol.Apply(s, step).recv, Min(WokenReceivers(s, step), |s.recv.waiting|))
    ensures FirstWoken(s.send, QueueProtocol.Apply(s, step).send, Min(WokenSenders(s, step), |s.send.waiting|))
  {
    if step.DoCheck? {
      CheckWakesReceivers(s, step.t, step.mayWait);
      CheckWakesSenders(s, step.t, step.mayWait);
    } else {
      OthersWakeReceivers(s, step);
      OthersWakeSenders(s, step);
    }
  }

  /** Each lock counts the interrupts of its side from the locking to the unlocking. */
  lemma LocksCount(s: State, step: Step)
    requires Inv(s) && Enabled(s, step) && LockHasRoom(s, step)
    ensures var d := QueueProtocol.Apply(s, step);
            && d.recv.lock == (match step
                               case DoLock(_) => 0
                               case DoUnlockTx(_) => UNLOCKED
                               case IsrSend(_) => if s.recv.lock == UNLOCKED then UNLOCKED else s.recv.lock + 1
                               case _ => s.recv.lock)
            && d.send.lock == (match step
                               case DoLock(_) => 0
                               case DoUnlockRx(_) => UNLOCKED
                               case IsrReceive => if s.send.lock == UNLOCKED then UNLOCKED else s.send.lock + 1
                               case _ => s.send.lock)
  {
  }

  predicate PutIn(before: seq<Task>, after: seq<Task>, at: nat, t: Task) {
    at < |after| && after[at] == t && before == after[..at] + after[at + 1..]
  }

  ghost predicate TakenOut(before: seq<Task>, after: seq<Task>, t: Task) {
    t !in after && (after == before || exists at :: PutIn(after, before, at, t))
  }

  lemma DeleteTakesOut(s: seq<Task>, t: Task)
    requires Rings.NoDup(s)
    ensures TakenOut(s, Delete(s, t), t)
  {
    if t in s {
      Rings.WithoutMembers(s, t);
      assert PutIn(Delete(s, t), s, Rings.IndexOf(s, t), t);
    }
  }

  /** A task that joins a list is put in at the given place; a task whose time comes is taken out; the
    * others stay in order, and nobody is woken. */
  lemma JoiningAndLeaving(s: State, step: Step)
    requires Inv(s) && Enabled(s, step) && (step.DoPlace? || step.TickExpires?)
    ensures var d, t := QueueProtocol.Apply(s, step), step.t;
            && d.recv.woken == s.recv.woken && d.send.woken == s.send.woken
            && (step.DoPlace? && Reader(s.pc[t].call) ==> PutIn(s.recv.waiting, d.recv.waiting, step.at, t) && d.send.waiting == s.send.waiting)
            && (step.DoPlace? && !Reader(s.pc[t].call) ==> PutIn(s.send.waiting, d.send.waiting, step.at, t) && d.recv.waiting == s.recv.waiting)
            && (step.TickExpires? ==> TakenOut(s.recv.waiting, d.recv.waiting, t) && TakenOut(s.send.waiting, d.send.waiting, t))
  {
    if step.DoPlace? {
      var ws := if Reader(s.pc[step.t].call) then s.recv.waiting else s.send.waiting;
      var w := Insert(ws, step.at, step.t);
      assert w[..step.at] == ws[..step.at] && w[step.at + 1..] == ws[step.at..];
    } else {
      DeleteTakesOut(s.recv.waiting, step.t);
      DeleteTakesOut(s.send.waiting, step.t);
    }
  }
}
