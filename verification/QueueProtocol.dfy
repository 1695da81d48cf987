/** The blocking protocol of `queue.c` as a state machine: every critical section
  * and every interrupt mask region is one step, any ready task may take the next
  * step unless another task has suspended the scheduler, and interrupts may run
  * between any two steps. */
module QueueProtocol {
  import Rings

  type Task = nat

  datatype Call = Send | Overwrite | Receive | Peek

  /** What a task does once it has unlocked the queue. */
  datatype After = Sleep | Retry | GiveUp

  datatype Pc =
    | Out                               // not in a queue function
    | Check(call: Call)                 // at the critical section that heads the loop
    | Enter(call: Call)                 // nothing to do: about to suspend the scheduler
    | Suspended(call: Call)             // scheduler suspended, queue not yet locked
    | Locked(call: Call)                // queue locked, time-out not yet examined
    | Test(call: Call)                  // not timed out, about to test empty or full
    | Place(call: Call)                 // was empty or full: about to join the event list
    | UnlockTx(call: Call, after: After)
    | UnlockRx(call: Call, after: After)
    | Resume(call: Call, after: After)
    | Blocked(call: Call)
    | Expired(call: Call)               // timed out and unlocked, about to test again

  /** One direction of the queue: its lock count, its event list, and the tasks
    * the queue has taken off that list which are not yet back at Check. */
  datatype Side = Side(lock: int, waiting: seq<Task>, woken: set<Task>)

  datatype Holder = Nobody | Holder(task: Task)

  datatype State = State(
    n: int,                 // uxMessagesWaiting
    cap: int,               // uxLength
    recv: Side,             // cTxLock and xTasksWaitingToReceive
    send: Side,             // cRxLock and xTasksWaitingToSend
    pc: map<Task, Pc>,
    susp: Holder)           // who has suspended the scheduler

  const UNLOCKED: int := -1
  const LOCK_MAX: int := 127

  /** The `(int8_t)` cast of an incremented lock count. */
  function Int8(x: int): int {
    if x > LOCK_MAX then x - 256 else x
  }

  function Max0(x: int): nat {
    if x > 0 then x else 0
  }

  function Min(x: nat, y: nat): nat {
    if x < y then x else y
  }

  predicate Reader(c: Call) { c.Receive? || c.Peek? }

  // ---------------------------------------------------------------------------
  // The steps.
  // ---------------------------------------------------------------------------

  /** `xTaskRemoveFromEventList`, if the list is not empty. */
  function WakeHead(side: Side): (r: Side)
    ensures r.lock == side.lock
  {
    if side.waiting == [] then side else side.(waiting := side.waiting[1..], woken := side.woken + {side.waiting[0]})
  }

  /** The same k times. */
  function Wake(side: Side, k: nat): (r: Side)
    ensures r.lock == side.lock
  {
    if k == 0 then side else WakeHead(Wake(side, k - 1))
  }

  /** What an interrupt does to the side whose tasks it has work for. */
  function Signal(side: Side): Side {
    if side.lock == UNLOCKED then WakeHead(side) else side.(lock := Int8(side.lock + 1))
  }

  /** `prvUnlockQueue` for one direction. */
  function Drain(side: Side): Side {
    Wake(side, Max0(side.lock)).(lock := UNLOCKED)
  }

  function Lock(side: Side): Side {
    if side.lock == UNLOCKED then side.(lock := 0) else side
  }

  function Insert(s: seq<Task>, at: nat, t: Task): seq<Task>
    requires at <= |s|
  {
    s[..at] + [t] + s[at..]
  }

  function Delete(s: seq<Task>, t: Task): seq<Task> {
    if t in s then Rings.Without(s, t) else s
  }

  datatype Step =
    | Begin(t: Task, call: Call)
    | DoCheck(t: Task, mayWait: bool)
    | DoSuspend(t: Task)
    | DoLock(t: Task)
    | DoTimeOut(t: Task, expired: bool)
    | DoTest(t: Task)
    | DoPlace(t: Task, at: nat)
    | DoUnlockTx(t: Task)
    | DoUnlockRx(t: Task)
    | DoResume(t: Task)
    | Awake(t: Task)
    | DoExpired(t: Task)
    | TickExpires(t: Task)
    | IsrSend(overwrite: bool)
    | IsrReceive

  predicate MayRun(s: State, t: Task) {
    t in s.pc && (s.susp == Nobody || s.susp == Holder(t))
  }

  predicate Enabled(s: State, step: Step) {
    match step
    case Begin(t, call) => MayRun(s, t) && s.pc[t].Out? && (call.Overwrite? ==> s.cap == 1)
    case DoCheck(t, _) => MayRun(s, t) && s.pc[t].Check?
    case DoSuspend(t) => MayRun(s, t) && s.pc[t].Enter?
    case DoLock(t) => MayRun(s, t) && s.pc[t].Suspended?
    case DoTimeOut(t, _) => MayRun(s, t) && s.pc[t].Locked?
    case DoTest(t) => MayRun(s, t) && s.pc[t].Test?
    case DoPlace(t, at) => MayRun(s, t) && s.pc[t].Place? && at <= |(if Reader(s.pc[t].call) then s.recv else s.send).waiting|
    case DoUnlockTx(t) => MayRun(s, t) && s.pc[t].UnlockTx?
    case DoUnlockRx(t) => MayRun(s, t) && s.pc[t].UnlockRx?
    case DoResume(t) => MayRun(s, t) && s.pc[t].Resume?
    case Awake(t) => MayRun(s, t) && s.pc[t].Blocked? && t !in s.recv.waiting && t !in s.send.waiting
    case DoExpired(t) => MayRun(s, t) && s.pc[t].Expired?
    case TickExpires(t) => s.susp == Nobody && (t in s.recv.waiting || t in s.send.waiting)
    case IsrSend(overwrite) => if overwrite then s.cap == 1 else s.n < s.cap
    case IsrReceive => s.n > 0
  }

  function Goto(s: State, t: Task, pc: Pc): State {
    s.(pc := s.pc[t := pc])
  }

  /** A task at its check no longer counts as woken. */
  function Back(side: Side, t: Task): Side {
    side.(woken := side.woken - {t})
  }

  /** Whether the critical section at the head of the loop finds something to do. */
  predicate Serves(s: State, call: Call) {
    match call
    case Receive => s.n > 0
    case Peek => s.n > 0
    case Send => s.n < s.cap
    case Overwrite => true
  }

  /** The critical section at the head of the loop (queue.c:768-904, 1299-1358,
    * 1444-1529, 1659-1725). */
  function Checked(s: State, t: Task, mayWait: bool): State
    requires t in s.pc && s.pc[t].Check?
  {
    var call, recv, send := s.pc[t].call, Back(s.recv, t), Back(s.send, t);
    if !Serves(s, call) then
      Goto(s.(recv := recv, send := send), t, if mayWait then Enter(call) else Out)
    else match call
      case Receive => Goto(s.(n := s.n - 1, recv := recv, send := WakeHead(send)), t, Out)
      case Peek => Goto(s.(recv := WakeHead(recv), send := send), t, Out)
      case Send => Goto(s.(n := s.n + 1, recv := WakeHead(recv), send := send), t, Out)
      case Overwrite => Goto(s.(n := if s.n > 0 then s.n else 1, recv := WakeHead(recv), send := send), t, Out)
  }

  function Apply(s: State, step: Step): State
    requires Enabled(s, step)
  {
    match step
    case Begin(t, call) => Goto(s, t, Check(call))
    case DoCheck(t, mayWait) => Checked(s, t, mayWait)
    case DoSuspend(t) => Goto(s, t, Suspended(s.pc[t].call)).(susp := Holder(t))
    case DoLock(t) => Goto(s, t, Locked(s.pc[t].call)).(recv := Lock(s.recv), send := Lock(s.send))
    case DoTimeOut(t, expired) => Goto(s, t, if expired then UnlockTx(s.pc[t].call, GiveUp) else Test(s.pc[t].call))
    case DoTest(t) =>
      var call := s.pc[t].call;
      Goto(s, t, if s.n == (if Reader(call) then 0 else s.cap) then Place(call) else UnlockTx(call, Retry))
    case DoPlace(t, at) =>
      var call := s.pc[t].call;
      var b := Goto(s, t, UnlockTx(call, Sleep));
      if Reader(call) then b.(recv := s.recv.(waiting := Insert(s.recv.waiting, at, t)))
      else b.(send := s.send.(waiting := Insert(s.send.waiting, at, t)))
    case DoUnlockTx(t) => Goto(s.(recv := Drain(s.recv)), t, UnlockRx(s.pc[t].call, s.pc[t].after))
    case DoUnlockRx(t) => Goto(s.(send := Drain(s.send)), t, Resume(s.pc[t].call, s.pc[t].after))
    case DoResume(t) =>
      var call := s.pc[t].call;
      var next := match s.pc[t].after
        case Sleep => Blocked(call)
        case Retry => Check(call)
        case GiveUp => if Reader(call) then Expired(call) else Out;
      Goto(s, t, next).(susp := Nobody)
    case Awake(t) => Goto(s, t, Check(s.pc[t].call))
    case DoExpired(t) => Goto(s, t, if s.n == 0 then Out else Check(s.pc[t].call))
    case TickExpires(t) =>
      s.(recv := s.recv.(waiting := Delete(s.recv.waiting, t)), send := s.send.(waiting := Delete(s.send.waiting, t)))
    case IsrSend(overwrite) => s.(n := if overwrite && s.n > 0 then s.n else s.n + 1, recv := Signal(s.recv))
    case IsrReceive => s.(n := s.n - 1, send := Signal(s.send))
  }

  /** The bound on interrupt activity in one locked window. */
  predicate LockHasRoom(s: State, step: Step) {
    && (step.IsrSend? ==> s.recv.lock < LOCK_MAX)
    && (step.IsrReceive? ==> s.send.lock < LOCK_MAX)
  }

  ghost predicate Run(s: State, steps: seq<Step>, end: State)
    decreases |steps|
  {
    if steps == [] then s == end
    else Enabled(s, steps[0]) && LockHasRoom(s, steps[0]) && Run(Apply(s, steps[0]), steps[1..], end)
  }

  ghost predicate Init(s: State) {
    && s.n == 0 && s.cap >= 1 && s.susp == Nobody
    && s.recv == Side(UNLOCKED, [], {}) && s.send == Side(UNLOCKED, [], {})
    && forall t :: t in s.pc ==> s.pc[t] == Out
  }

  // ---------------------------------------------------------------------------
  // The invariant.
  // ---------------------------------------------------------------------------

  /** Everything there is for this side beyond its woken tasks is in the lock count. */
  predicate Accounted(side: Side, amount: int) {
    amount <= |side.woken| + Max0(side.lock)
  }

  /** A waiting receiver is accounted for: every message beyond the woken receivers
    * is remembered in the lock count, and symmetrically for senders and free slots. */
  predicate NoneForgotten(s: State) {
    && (s.recv.waiting != [] ==> Accounted(s.recv, s.n))
    && (s.send.waiting != [] ==> Accounted(s.send, s.cap - s.n))
  }

  predicate InWindow(pc: Pc) { pc.Suspended? || RxHeld(pc) || pc.Resume? }

  predicate TxHeld(pc: Pc) { pc.Locked? || pc.Test? || pc.Place? || pc.UnlockTx? }

  predicate RxHeld(pc: Pc) { TxHeld(pc) || pc.UnlockRx? }

  predicate Waits(pc: Pc, reader: bool) {
    (((pc.UnlockTx? || pc.UnlockRx? || pc.Resume?) && pc.after == Sleep) || pc.Blocked?) && Reader(pc.call) == reader
  }

  /** One task at a time in the window, and the locks follow its progress. */
  ghost predicate Window(pc: map<Task, Pc>, susp: Holder, tx: int, rx: int, cap: int) {
    && (forall t :: t in pc && InWindow(pc[t]) ==> susp == Holder(t))
    && (susp.Holder? ==> susp.task in pc && InWindow(pc[susp.task]))
    && tx >= UNLOCKED && rx >= UNLOCKED
    && (tx >= 0 <==> susp.Holder? && TxHeld(pc[susp.task]))
    && (rx >= 0 <==> susp.Holder? && RxHeld(pc[susp.task]))
    && (forall t :: t in pc && pc[t] != Out && pc[t].call == Overwrite ==> pc[t].Check? && cap == 1)
  }

  ghost predicate SideOk(side: Side, pc: map<Task, Pc>, reader: bool) {
    && Rings.NoDup(side.waiting)
    && (forall t :: t in side.waiting ==> t in pc && Waits(pc[t], reader) && t !in side.woken)
    && (forall t :: t in side.woken ==> t in pc && (Waits(pc[t], reader) || (pc[t].Check? && Reader(pc[t].call) == reader)))
  }

  /** A task about to join an event list saw the queue empty (or full); whatever
    * interrupts have done since is in the lock count. */
  ghost predicate PlacementCovered(s: State) {
    forall t :: t in s.pc && s.pc[t].Place? ==>
      if Reader(s.pc[t].call) then Accounted(s.recv, s.n) else Accounted(s.send, s.cap - s.n)
  }

  ghost predicate Control(s: State) {
    0 <= s.n <= s.cap && s.cap >= 1 && Window(s.pc, s.susp, s.recv.lock, s.send.lock, s.cap)
  }

  ghost predicate Sides(s: State) {
    SideOk(s.recv, s.pc, true) && SideOk(s.send, s.pc, false)
  }

  ghost predicate Inv(s: State) {
    Control(s) && Sides(s) && PlacementCovered(s) && NoneForgotten(s)
  }

  lemma WakeHeadOk(side: Side, pc: map<Task, Pc>, reader: bool)
    requires SideOk(side, pc, reader)
    ensures SideOk(WakeHead(side), pc, reader)
  {
    if side.waiting != [] {
      assert side.waiting == [side.waiting[0]] + side.waiting[1..];
    }
  }

  lemma {:induction false} WakeOk(side: Side, pc: map<Task, Pc>, reader: bool, k: nat)
    requires SideOk(side, pc, reader)
    ensures SideOk(Wake(side, k), pc, reader)
  {
    if k > 0 {
      WakeOk(side, pc, reader, k - 1);
      WakeHeadOk(Wake(side, k - 1), pc, reader);
    }
  }

  ghost predicate Apart(side: Side) {
    Rings.NoDup(side.waiting) && forall t :: t in side.waiting ==> t !in side.woken
  }

  lemma WakeHeadCounts(side: Side)
    requires Apart(side)
    ensures Apart(WakeHead(side))
    ensures |WakeHead(side).woken| == |side.woken| + Min(1, |side.waiting|)
    ensures |WakeHead(side).waiting| == |side.waiting| - Min(1, |side.waiting|)
  {
    if side.waiting != [] {
      assert side.waiting[0] in side.waiting;
      assert forall t :: t in side.waiting[1..] ==> t in side.waiting && t != side.waiting[0];
    }
  }

  /** Whoever leaves the list is counted. */
  lemma {:induction false} WakeCounts(side: Side, k: nat)
    requires Apart(side)
    ensures Apart(Wake(side, k))
    ensures |Wake(side, k).woken| == |side.woken| + Min(k, |side.waiting|)
    ensures |Wake(side, k).waiting| == |side.waiting| - Min(k, |side.waiting|)
  {
    if k > 0 {
      WakeCounts(side, k - 1);
      WakeHeadCounts(Wake(side, k - 1));
    }
  }

  lemma BackOk(side: Side, pc: map<Task, Pc>, reader: bool, t: Task)
    requires SideOk(side, pc, reader) && t in pc && pc[t].Check?
    ensures SideOk(Back(side, t), pc, reader) && t !in side.waiting
    ensures |Back(side, t).woken| >= |side.woken| - 1
    ensures Reader(pc[t].call) != reader ==> Back(side, t) == side
  {
    if Reader(pc[t].call) != reader {
      assert t !in side.woken;
    }
  }

  lemma InsertOk(s: seq<Task>, at: nat, t: Task)
    requires at <= |s| && Rings.NoDup(s) && t !in s
    ensures Rings.NoDup(Insert(s, at, t)) && forall u :: u in Insert(s, at, t) <==> u in s || u == t
  {
    Rings.InsertAtMembers(s, at, t);
  }

  lemma DeleteOk(s: seq<Task>, t: Task)
    requires Rings.NoDup(s)
    ensures Rings.NoDup(Delete(s, t)) && forall u :: u in Delete(s, t) <==> u in s && u != t
  {
    if t in s {
      Rings.WithoutMembers(s, t);
    }
  }

  /** Moving one task keeps a side it does not wait on. */
  lemma GotoOk(side: Side, pc: map<Task, Pc>, reader: bool, t: Task, to: Pc)
    requires SideOk(side, pc, reader) && t in pc
    requires t in side.waiting ==> Waits(to, reader)
    requires t in side.woken ==> Waits(to, reader) || (to.Check? && Reader(to.call) == reader)
    ensures SideOk(side, pc[t := to], reader)
  {
  }

  /** A task that leaves its check keeps both sides, whether or not it wakes another on the way. */
  lemma LeaveCheckOk(side: Side, pc: map<Task, Pc>, reader: bool, t: Task, to: Pc)
    requires SideOk(side, pc, reader) && t in pc && pc[t].Check?
    ensures SideOk(Back(side, t), pc[t := to], reader)
    ensures SideOk(WakeHead(Back(side, t)), pc[t := to], reader)
  {
    BackOk(side, pc, reader, t);
    GotoOk(Back(side, t), pc, reader, t, to);
    WakeHeadOk(Back(side, t), pc[t := to], reader);
  }

  lemma CheckedShape(s: State, t: Task, mayWait: bool)
    requires t in s.pc && s.pc[t].Check?
    ensures var r := Checked(s, t, mayWait);
            && r.pc == s.pc[t := if Serves(s, s.pc[t].call) || !mayWait then Out else Enter(s.pc[t].call)]
            && r.susp == s.susp && r.cap == s.cap && r.recv.lock == s.recv.lock && r.send.lock == s.send.lock
            && (r.recv == Back(s.recv, t) || r.recv == WakeHead(Back(s.recv, t)))
            && (r.send == Back(s.send, t) || r.send == WakeHead(Back(s.send, t)))
  {
  }

  lemma CheckKeepsSides(s: State, t: Task, mayWait: bool)
    requires Inv(s) && Enabled(s, DoCheck(t, mayWait))
    ensures Sides(Checked(s, t, mayWait))
  {
    CheckedShape(s, t, mayWait);
    var to := if Serves(s, s.pc[t].call) || !mayWait then Out else Enter(s.pc[t].call);
    LeaveCheckOk(s.recv, s.pc, true, t, to);
    LeaveCheckOk(s.send, s.pc, false, t, to);
  }

  lemma WindowUntouched(pc: map<Task, Pc>, susp: Holder, tx: int, rx: int, cap: int, t: Task, to: Pc)
    requires Window(pc, susp, tx, rx, cap) && t in pc && !InWindow(pc[t]) && !InWindow(to)
    requires to != Out && to.call == Overwrite ==> to.Check? && cap == 1
    ensures Window(pc[t := to], susp, tx, rx, cap)
  {
  }

  lemma CheckKeepsRange(s: State, t: Task, mayWait: bool)
    requires Control(s) && Enabled(s, DoCheck(t, mayWait))
    ensures 0 <= Checked(s, t, mayWait).n <= s.cap
    ensures s.pc[t].call == Overwrite ==> Serves(s, s.pc[t].call)
  {
  }

  lemma CheckKeepsControl(s: State, t: Task, mayWait: bool)
    requires Inv(s) && Enabled(s, DoCheck(t, mayWait))
    ensures Control(Checked(s, t, mayWait))
  {
    CheckedShape(s, t, mayWait);
    CheckKeepsRange(s, t, mayWait);
    var to := if Serves(s, s.pc[t].call) || !mayWait then Out else Enter(s.pc[t].call);
    WindowUntouched(s.pc, s.susp, s.recv.lock, s.send.lock, s.cap, t, to);
  }

  /** While a task checks, nobody is in the window. */
  lemma CheckKeepsPlacement(s: State, t: Task, mayWait: bool)
    requires Inv(s) && Enabled(s, DoCheck(t, mayWait))
    ensures PlacementCovered(Checked(s, t, mayWait))
  {
    CheckedShape(s, t, mayWait);
    var d := Checked(s, t, mayWait);
    forall u | u in d.pc
      ensures !d.pc[u].Place?
    {
      assert u != t ==> d.pc[u] == s.pc[u];
    }
  }

  lemma CheckKeepsCounts(s: State, t: Task, mayWait: bool)
    requires Inv(s) && Enabled(s, DoCheck(t, mayWait))
    ensures NoneForgotten(Checked(s, t, mayWait))
  {
    var recv, send := Back(s.recv, t), Back(s.send, t);
    BackOk(s.recv, s.pc, true, t);
    BackOk(s.send, s.pc, false, t);
    if Serves(s, s.pc[t].call) {
      match s.pc[t].call
      case Receive => WakeHeadCounts(send);
      case Peek => WakeHeadCounts(recv);
      case Send => WakeHeadCounts(recv);
      case Overwrite => WakeHeadCounts(recv);
    }
  }

  lemma IsrKeepsSides(s: State, step: Step)
    requires Inv(s) && Enabled(s, step) && LockHasRoom(s, step) && (step.IsrSend? || step.IsrReceive?)
    ensures Sides(Apply(s, step))
  {
    WakeHeadOk(s.recv, s.pc, true);
    WakeHeadOk(s.send, s.pc, false);
  }

  lemma SignalCounts(side: Side, n: int)
    requires Apart(side) && UNLOCKED <= side.lock < LOCK_MAX
    ensures Accounted(side, n) && (side.lock >= 0 || side.waiting != []) ==> Accounted(Signal(side), n + 1)
    ensures Signal(side).waiting != [] ==> side.waiting != []
  {
    WakeHeadCounts(side);
  }

  lemma IsrKeepsControl(s: State, step: Step)
    requires Inv(s) && Enabled(s, step) && LockHasRoom(s, step) && (step.IsrSend? || step.IsrReceive?)
    ensures Control(Apply(s, step))
  {
  }

  lemma IsrSendCounts(s: State, overwrite: bool)
    requires Inv(s) && Enabled(s, IsrSend(overwrite)) && s.recv.lock < LOCK_MAX
    ensures Accounted(s.recv, s.n) && (s.recv.lock >= 0 || s.recv.waiting != []) ==>
              Accounted(Apply(s, IsrSend(overwrite)).recv, Apply(s, IsrSend(overwrite)).n)
  {
    SignalCounts(s.recv, s.n);
  }

  lemma IsrReceiveCounts(s: State)
    requires Inv(s) && Enabled(s, IsrReceive) && s.send.lock < LOCK_MAX
    ensures Accounted(s.send, s.cap - s.n) && (s.send.lock >= 0 || s.send.waiting != []) ==>
              Accounted(Apply(s, IsrReceive).send, s.cap - Apply(s, IsrReceive).n)
  {
    SignalCounts(s.send, s.cap - s.n);
  }

  lemma PlacersHoldTheLocks(s: State, t: Task)
    requires Inv(s) && t in s.pc && s.pc[t].Place?
    ensures s.recv.lock >= 0 && s.send.lock >= 0
    ensures if Reader(s.pc[t].call) then Accounted(s.recv, s.n) else Accounted(s.send, s.cap - s.n)
  {
    assert InWindow(s.pc[t]) && TxHeld(s.pc[t]);
  }

  lemma IsrKeepsPlacement(s: State, step: Step)
    requires Inv(s) && Enabled(s, step) && LockHasRoom(s, step) && (step.IsrSend? || step.IsrReceive?)
    ensures PlacementCovered(Apply(s, step))
  {
    if step.IsrSend? {
      IsrSendCounts(s, step.overwrite);
    } else {
      IsrReceiveCounts(s);
    }
    forall t | t in s.pc && s.pc[t].Place?
      ensures var d := Apply(s, step);
              if Reader(s.pc[t].call) then Accounted(d.recv, d.n) else Accounted(d.send, d.cap - d.n)
    {
      PlacersHoldTheLocks(s, t);
    }
  }

  lemma IsrKeepsCounts(s: State, step: Step)
    requires Inv(s) && Enabled(s, step) && LockHasRoom(s, step) && (step.IsrSend? || step.IsrReceive?)
    ensures PlacementCovered(Apply(s, step)) && NoneForgotten(Apply(s, step))
  {
    IsrKeepsPlacement(s, step);
    if step.IsrSend? {
      SignalCounts(s.recv, s.n);
    } else {
      SignalCounts(s.send, s.cap - s.n);
    }
  }

  lemma PlaceKeepsInv(s: State, t: Task, at: nat)
    requires Inv(s) && Enabled(s, DoPlace(t, at))
    ensures Inv(Apply(s, DoPlace(t, at)))
  {
    var to := UnlockTx(s.pc[t].call, Sleep);
    GotoOk(s.recv, s.pc, true, t, to);
    GotoOk(s.send, s.pc, false, t, to);
    if Reader(s.pc[t].call) {
      InsertOk(s.recv.waiting, at, t);
    } else {
      InsertOk(s.send.waiting, at, t);
    }
  }

  lemma UnlockKeepsSides(s: State, step: Step)
    requires Inv(s) && Enabled(s, step) && (step.DoUnlockTx? || step.DoUnlockRx?)
    ensures Sides(Apply(s, step))
  {
    var t := step.t;
    var to := Apply(s, step).pc[t];
    GotoOk(s.recv, s.pc, true, t, to);
    GotoOk(s.send, s.pc, false, t, to);
    if step.DoUnlockTx? {
      WakeOk(s.recv, s.pc[t := to], true, Max0(s.recv.lock));
    } else {
      WakeOk(s.send, s.pc[t := to], false, Max0(s.send.lock));
    }
  }

  lemma UnlockKeepsControl(s: State, step: Step)
    requires Inv(s) && Enabled(s, step) && (step.DoUnlockTx? || step.DoUnlockRx?)
    ensures Control(Apply(s, step)) && PlacementCovered(Apply(s, step))
  {
    var t, pc := step.t, s.pc[step.t];
    if step.DoUnlockTx? {
      WindowAdvances(s.pc, s.susp, s.recv.lock, s.send.lock, s.cap, t, UnlockRx(pc.call, pc.after), UNLOCKED, s.send.lock);
    } else {
      WindowAdvances(s.pc, s.susp, s.recv.lock, s.send.lock, s.cap, t, Resume(pc.call, pc.after), s.recv.lock, UNLOCKED);
    }
    NobodyElsePlaces(s, step);
  }

  /** The task in the window is the only one that can be about to join an event list. */
  lemma NobodyElsePlaces(s: State, step: Step)
    requires Inv(s) && Enabled(s, step) && (step.DoUnlockTx? || step.DoUnlockRx?)
    ensures PlacementCovered(Apply(s, step))
  {
  }

  /** The task in the window moves on in it. */
  lemma WindowAdvances(pc: map<Task, Pc>, susp: Holder, tx: int, rx: int, cap: int, t: Task, to: Pc, tx': int, rx': int)
    requires Window(pc, susp, tx, rx, cap) && t in pc && InWindow(pc[t]) && InWindow(to) && to.call == pc[t].call
    requires tx' >= UNLOCKED && (tx' >= 0 <==> TxHeld(to)) && rx' >= UNLOCKED && (rx' >= 0 <==> RxHeld(to))
    ensures Window(pc[t := to], susp, tx', rx', cap)
  {
  }

  lemma UnlockKeepsCounts(s: State, step: Step)
    requires Inv(s) && Enabled(s, step) && (step.DoUnlockTx? || step.DoUnlockRx?)
    ensures NoneForgotten(Apply(s, step))
  {
    if step.DoUnlockTx? {
      WakeCounts(s.recv, Max0(s.recv.lock));
    } else {
      WakeCounts(s.send, Max0(s.send.lock));
    }
  }

  lemma ExpiryKeepsInv(s: State, t: Task)
    requires Inv(s) && Enabled(s, TickExpires(t))
    ensures Inv(Apply(s, TickExpires(t)))
  {
    DeleteOk(s.recv.waiting, t);
    DeleteOk(s.send.waiting, t);
  }

  /** The steps that only move a task. */
  predicate Moves(step: Step) {
    step.Begin? || step.DoSuspend? || step.DoLock? || step.DoTimeOut? || step.DoTest? || step.DoResume? || step.Awake? || step.DoExpired?
  }

  lemma MoveKeepsSides(s: State, step: Step)
    requires Inv(s) && Enabled(s, step) && Moves(step)
    ensures Sides(Apply(s, step))
  {
    var to := Apply(s, step).pc[step.t];
    GotoOk(s.recv, s.pc, true, step.t, to);
    GotoOk(s.send, s.pc, false, step.t, to);
  }

  lemma MoveKeepsControl(s: State, step: Step)
    requires Inv(s) && Enabled(s, step) && Moves(step)
    ensures Control(Apply(s, step))
  {
    var t, d := step.t, Apply(s, step);
    var to := d.pc[t];
    if step.DoLock? || step.DoTimeOut? || step.DoTest? {
      WindowAdvances(s.pc, s.susp, s.recv.lock, s.send.lock, s.cap, t, to, d.recv.lock, d.send.lock);
    } else if step.DoSuspend? {
      WindowOpens(s.pc, s.susp, s.recv.lock, s.send.lock, s.cap, t, to);
    } else if step.DoResume? {
      WindowCloses(s.pc, s.susp, s.recv.lock, s.send.lock, s.cap, t, to);
    } else {
      WindowUntouched(s.pc, s.susp, s.recv.lock, s.send.lock, s.cap, t, to);
    }
  }

  lemma WindowOpens(pc: map<Task, Pc>, susp: Holder, tx: int, rx: int, cap: int, t: Task, to: Pc)
    requires Window(pc, susp, tx, rx, cap) && t in pc && pc[t].Enter? && to == Suspended(pc[t].call)
    requires susp == Nobody || susp == Holder(t)
    ensures Window(pc[t := to], Holder(t), tx, rx, cap)
  {
  }

  lemma WindowCloses(pc: map<Task, Pc>, susp: Holder, tx: int, rx: int, cap: int, t: Task, to: Pc)
    requires Window(pc, susp, tx, rx, cap) && t in pc && pc[t].Resume? && !InWindow(to)
    requires to == Out || to.call == pc[t].call
    ensures Window(pc[t := to], Nobody, tx, rx, cap)
  {
  }

  lemma MoveKeepsCounts(s: State, step: Step)
    requires Inv(s) && Enabled(s, step) && Moves(step)
    ensures PlacementCovered(Apply(s, step)) && NoneForgotten(Apply(s, step))
  {
  }

  lemma CheckKeepsInv(s: State, t: Task, mayWait: bool)
    requires Inv(s) && Enabled(s, DoCheck(t, mayWait))
    ensures Inv(Checked(s, t, mayWait))
  {
    CheckKeepsSides(s, t, mayWait);
    CheckKeepsControl(s, t, mayWait);
    CheckKeepsPlacement(s, t, mayWait);
    CheckKeepsCounts(s, t, mayWait);
  }

  lemma IsrKeepsInv(s: State, step: Step)
    requires Inv(s) && Enabled(s, step) && LockHasRoom(s, step) && (step.IsrSend? || step.IsrReceive?)
    ensures Inv(Apply(s, step))
  {
    IsrKeepsSides(s, step);
    IsrKeepsControl(s, step);
    IsrKeepsCounts(s, step);
  }

  lemma UnlockKeepsInv(s: State, step: Step)
    requires Inv(s) && Enabled(s, step) && (step.DoUnlockTx? || step.DoUnlockRx?)
    ensures Inv(Apply(s, step))
  {
    UnlockKeepsSides(s, step);
    UnlockKeepsControl(s, step);
    UnlockKeepsCounts(s, step);
  }

  lemma MoveKeepsInv(s: State, step: Step)
    requires Inv(s) && Enabled(s, step) && Moves(step)
    ensures Inv(Apply(s, step))
  {
    MoveKeepsSides(s, step);
    MoveKeepsControl(s, step);
    MoveKeepsCounts(s, step);
  }

  lemma StepKeepsInv(s: State, step: Step)
    requires Inv(s) && Enabled(s, step) && LockHasRoom(s, step)
    ensures Inv(Apply(s, step))
  {
    if step.DoCheck? {
      CheckKeepsInv(s, step.t, step.mayWait);
    } else if step.IsrSend? || step.IsrReceive? {
      IsrKeepsInv(s, step);
    } else if step.DoPlace? {
      PlaceKeepsInv(s, step.t, step.at);
    } else if step.DoUnlockTx? || step.DoUnlockRx? {
      UnlockKeepsInv(s, step);
    } else if step.TickExpires? {
      ExpiryKeepsInv(s, step.t);
    } else {
      MoveKeepsInv(s, step);
    }
  }

  lemma {:induction false} RunKeepsInv(s: State, steps: seq<Step>, end: State)
    requires Inv(s) && Run(s, steps, end)
    ensures Inv(end)
    decreases |steps|
  {
    if steps != [] {
      StepKeepsInv(s, steps[0]);
      RunKeepsInv(Apply(s, steps[0]), steps[1..], end);
    }
  }

  /** In every reachable state of every interleaving no waiter is forgotten; in
    * particular, with the queue unlocked and every woken task back at its check,
    * a receiver waits only on an empty queue and a sender only on a full one. */
  lemma NoLostWakeup(s: State, steps: seq<Step>, end: State)
    requires Init(s) && Run(s, steps, end)
    ensures NoneForgotten(end)
    ensures end.recv.waiting != [] && end.recv.woken == {} && end.recv.lock == UNLOCKED ==> end.n == 0
    ensures end.send.waiting != [] && end.send.woken == {} && end.send.lock == UNLOCKED ==> end.n == end.cap
  {
    RunKeepsInv(s, steps, end);
  }

  // ---------------------------------------------------------------------------
  // The drain loop of `prvUnlockQueue`.
  // ---------------------------------------------------------------------------

  lemma {:induction false} NobodyLeft(side: Side, k: nat, n: nat)
    requires k <= n && Wake(side, k).waiting == []
    ensures Wake(side, n) == Wake(side, k)
  {
    if k < n {
      NobodyLeft(side, k, n - 1);
    }
  }

  /** The loop of `prvUnlockQueue` over one lock count. */
  method Unlock(side: Side) returns (r: Side)
    ensures r == Drain(side)
  {
    r := side;
    var lock := side.lock;
    ghost var k: nat := 0;
    while lock > 0
      invariant Max0(lock) + k == Max0(side.lock)
      invariant r == Wake(side, k)
    {
      if r.waiting == [] {
        NobodyLeft(side, k, Max0(side.lock));
        break;
      }
      r := r.(waiting := r.waiting[1..], woken := r.woken + {r.waiting[0]});
      lock, k := lock - 1, k + 1;
    }
    r := r.(lock := UNLOCKED);
  }

  // ---------------------------------------------------------------------------
  // Where the protocol stops being safe.
  // ---------------------------------------------------------------------------

  function Signals(side: Side, k: nat): Side {
    if k == 0 then side else Signal(Signals(side, k - 1))
  }

  lemma {:induction false} SignalsWrap(side: Side, k: nat)
    requires side.lock == 0
    ensures Signals(side, k) ==
            if k <= 127 then side.(lock := k)
            else if k <= 255 then side.(lock := k - 256)
            else Wake(side.(lock := UNLOCKED), k - 255)
  {
    if k > 0 {
      SignalsWrap(side, k - 1);
    }
  }

  lemma {:induction false} WakeIgnoresLock(side: Side, lock: int, k: nat)
    ensures Wake(side.(lock := lock), k).(lock := UNLOCKED) == Wake(side.(lock := UNLOCKED), k)
  {
    if k > 0 {
      WakeIgnoresLock(side, lock, k - 1);
    }
  }

  /** How many tasks k posts in one window wake. */
  function WokenBy(k: nat): nat {
    if k <= LOCK_MAX then k else if k <= 255 then 0 else k - 255
  }

  /** What is left after k posts and the unlock. */
  lemma AfterSignals(side: Side, k: nat)
    requires side.lock == 0
    ensures Drain(Signals(side, k)) == Wake(side.(lock := UNLOCKED), WokenBy(k))
  {
    SignalsWrap(side, k);
    if k <= LOCK_MAX {
      WakeIgnoresLock(side, k, k);
    }
  }

  /** In one window k interrupts post to a queue that held n messages, all accounted for, when
    * it was locked.  After the unlock every message is accounted for exactly when the 8-bit
    * count did not wrap, or the messages posted after it came round to `queueUNLOCKED` woke
    * everybody, or the tasks woken before the window make up for the lost ones. */
  lemma LockCountIsExact(side: Side, n: nat, k: nat)
    requires Apart(side) && side.lock == 0 && (side.waiting != [] ==> Accounted(side, n))
    ensures var after := Drain(Signals(side, k));
            (after.waiting != [] ==> Accounted(after, n + k)) <==>
            k <= LOCK_MAX || |side.waiting| <= Max0(k - 255) || n + Min(k, 255) <= |side.woken|
  {
    AfterSignals(side, k);
    WakeCounts(side.(lock := UNLOCKED), WokenBy(k));
  }

  /** 128 posts in one window: the receiver stays blocked on 128 messages. */
  lemma LockCountWraps()
    ensures var side := Drain(Signals(Side(0, [7], {}), 128)); side == Side(UNLOCKED, [7], {}) && !Accounted(side, 128)
  {
    AfterSignals(Side(0, [7], {}), 128);
  }

  /** `xQueueGenericReset` on a queue in use. */
  function Reset(s: State): State {
    s.(n := 0, recv := s.recv.(lock := UNLOCKED), send := WakeHead(s.send).(lock := UNLOCKED))
  }

  /** Reset frees every slot but wakes one sender, so it keeps the guarantee exactly
    * when at most one sender waits or that sender and those already woken fill the queue. */
  lemma ResetIsExact(s: State)
    requires Inv(s) && s.susp == Nobody
    ensures NoneForgotten(Reset(s)) <==> |s.send.waiting| <= 1 || s.cap <= |s.send.woken| + 1
  {
    WakeHeadCounts(s.send);
  }

  lemma {:induction false} RunExtends(s: State, steps: seq<Step>, mid: State, step: Step)
    requires Run(s, steps, mid) && Enabled(mid, step) && LockHasRoom(mid, step)
    ensures Run(s, steps + [step], Apply(mid, step))
    decreases |steps|
  {
    var longer := steps + [step];
    if steps == [] {
      assert longer[1..] == [];
    } else {
      RunExtends(Apply(s, steps[0]), steps[1..], mid, step);
      assert longer[1..] == steps[1..] + [step];
    }
  }

  lemma Then(s: State, steps: seq<Step>, mid: State, step: Step) returns (longer: seq<Step>, end: State)
    requires Run(s, steps, mid) && Enabled(mid, step) && LockHasRoom(mid, step)
    ensures Run(s, longer, end) && end == Apply(mid, step)
  {
    RunExtends(s, steps, mid, step);
    longer, end := steps + [step], Apply(mid, step);
  }

  /** A queue at rest on which nobody has to receive. */
  predicate FullAndQuiet(s: State) {
    s.n == s.cap && s.susp == Nobody && s.recv == Side(UNLOCKED, [], {}) && s.send.lock == UNLOCKED && s.send.woken == {}
  }

  /** The sender finds the queue full and suspends the scheduler. */
  lemma SenderSuspends(s: State, steps: seq<Step>, mid: State, t: Task) returns (longer: seq<Step>, end: State)
    requires Run(s, steps, mid) && FullAndQuiet(mid) && t in mid.pc && mid.pc[t] == Out
    ensures Run(s, longer, end) && end == mid.(pc := mid.pc[t := Suspended(Send)], susp := Holder(t))
  {
    longer, end := Then(s, steps, mid, Begin(t, Send));
    longer, end := Then(s, longer, end, DoCheck(t, true));
    longer, end := Then(s, longer, end, DoSuspend(t));
  }

  /** On its way to the event list. */
  lemma SenderLocks(s: State, steps: seq<Step>, mid: State, t: Task) returns (longer: seq<Step>, end: State)
    requires Run(s, steps, mid) && FullAndQuiet(mid) && t in mid.pc && mid.pc[t] == Out
    ensures Run(s, longer, end)
    ensures end == mid.(pc := mid.pc[t := Place(Send)], susp := Holder(t), recv := mid.recv.(lock := 0), send := mid.send.(lock := 0))
  {
    longer, end := SenderSuspends(s, steps, mid, t);
    longer, end := Then(s, longer, end, DoLock(t));
    longer, end := Then(s, longer, end, DoTimeOut(t, false));
    longer, end := Then(s, longer, end, DoTest(t));
  }

  lemma SenderBlocks(s: State, steps: seq<Step>, mid: State, t: Task) returns (longer: seq<Step>, end: State)
    requires Run(s, steps, mid) && FullAndQuiet(mid) && t in mid.pc && mid.pc[t] == Out
    ensures Run(s, longer, end) && FullAndQuiet(end)
    ensures end == mid.(pc := mid.pc[t := Blocked(Send)], send := mid.send.(waiting := mid.send.waiting + [t]))
  {
    longer, end := SenderLocks(s, steps, mid, t);
    longer, end := Then(s, longer, end, DoPlace(t, |mid.send.waiting|));
    assert Insert(mid.send.waiting, |mid.send.waiting|, t) == mid.send.waiting + [t];
    longer, end := Then(s, longer, end, DoUnlockTx(t));
    longer, end := Then(s, longer, end, DoUnlockRx(t));
    longer, end := Then(s, longer, end, DoResume(t));
  }

  /** Interrupts fill a queue of length 2. */
  lemma InterruptsFillTheQueue() returns (start: State, steps: seq<Step>, end: State)
    ensures Init(start) && Run(start, steps, end)
    ensures end == State(2, 2, Side(UNLOCKED, [], {}), Side(UNLOCKED, [], {}), map[3 := Out, 4 := Out], Nobody)
  {
    start := State(0, 2, Side(UNLOCKED, [], {}), Side(UNLOCKED, [], {}), map[3 := Out, 4 := Out], Nobody);
    steps, end := [], start;
    steps, end := Then(start, steps, end, IsrSend(false));
    steps, end := Then(start, steps, end, IsrSend(false));
  }

  lemma TwoSendersBlock() returns (start: State, steps: seq<Step>, end: State)
    ensures Init(start) && Run(start, steps, end)
    ensures end.susp == Nobody && end.n == 2 && end.cap == 2 && end.send == Side(UNLOCKED, [3, 4], {})
  {
    start, steps, end := InterruptsFillTheQueue();
    steps, end := SenderBlocks(start, steps, end, 3);
    steps, end := SenderBlocks(start, steps, end, 4);
  }

  /** A run in which two senders block on a full queue of length 2: a reset now leaves one of
    * them blocked on a free slot. */
  lemma ResetForgetsASender() returns (start: State, steps: seq<Step>, end: State)
    ensures Init(start) && Run(start, steps, end) && end.susp == Nobody
    ensures NoneForgotten(end) && !NoneForgotten(Reset(end))
  {
    start, steps, end := TwoSendersBlock();
    NoLostWakeup(start, steps, end);
    RunKeepsInv(start, steps, end);
    ResetIsExact(end);
  }
}
