/** Mutexes with priority inheritance: `xQueueSemaphoreTake` and the give path of
  * `xQueueGenericSend` (queue.c) with `xTaskPriorityInherit`, `xTaskPriorityDisinherit`
  * and `vTaskPriorityDisinheritAfterTimeout` (tasks.c) as one state machine.  A mutex
  * is never touched by an interrupt, so the stretch in which the taker has suspended
  * the scheduler is one step; every critical section outside it is a step of its own. */
module MutexProtocol {
  import Rings

  datatype Task = Task(id: nat)
  datatype Mutex = Mutex(id: nat)

  const MAX_PRIORITIES := 7

  datatype Owner = Free | Held(task: Task)

  datatype Pc =
    | Away                                                     // not taking a mutex
    | Top(m: Mutex, inherited: bool, ticks: bool, woken: bool) // at the critical section heading the loop
    | Mid(m: Mutex, inherited: bool)                           // it was held: about to suspend the scheduler
    | Waiting(m: Mutex, inherited: bool)                       // on xTasksWaitingToReceive
    | Expired(m: Mutex, inherited: bool, ticks: bool)          // timed out, about to look again
    | Disinheriting(m: Mutex)

  datatype State = State(
    owner: Mutex -> Owner,
    waiters: Mutex -> seq<Task>,
    prio: Task -> int,        // uxPriority
    base: Task -> int,        // uxBasePriority
    held: Task -> int,        // uxMutexesHeld
    item: Task -> int,        // value of xEventListItem
    pc: Task -> Pc)

  function Set<K(==), V>(f: K -> V, k: K, v: V): K -> V {
    x => if x == k then v else f(x)
  }

  // ---------------------------------------------------------------------------
  // The operations of tasks.c.
  // ---------------------------------------------------------------------------

  function Reprioritise(s: State, t: Task, p: int): State {
    s.(prio := Set(s.prio, t, p), item := Set(s.item, t, MAX_PRIORITIES - p))
  }

  /** `xTaskPriorityInherit`, called by task t */
  function Inherit(s: State, t: Task, h: Task): State {
    if s.prio(h) < s.prio(t) then Reprioritise(s, h, s.prio(t)) else s
  }

  predicate InheritanceOccurred(s: State, t: Task, h: Task) {
    s.prio(h) < s.prio(t) || s.base(h) < s.prio(t)
  }

  /** `xTaskPriorityDisinherit` */
  function Disinherit(s: State, h: Task): State
    requires s.held(h) > 0
  {
    var b := s.(held := Set(s.held, h, s.held(h) - 1));
    if s.prio(h) != s.base(h) && s.held(h) == 1 then Reprioritise(b, h, s.base(h)) else b
  }

  /** `prvGetDisinheritPriorityAfterTimeout` */
  function HighestWaiting(s: State, m: Mutex): int {
    if s.waiters(m) == [] then 0 else MAX_PRIORITIES - s.item(s.waiters(m)[0])
  }

  /** The priority `vTaskPriorityDisinheritAfterTimeout` decides on. */
  function PriorityToUse(s: State, h: Task, highest: int): int {
    if s.base(h) < highest then highest else s.base(h)
  }

  function DisinheritAfterTimeout(s: State, h: Task, highest: int): State {
    var p := PriorityToUse(s, h, highest);
    if s.prio(h) != p && s.held(h) == 1 then Reprioritise(s, h, p) else s
  }

  // ---------------------------------------------------------------------------
  // The steps.
  // ---------------------------------------------------------------------------

  /** What `xTaskCheckForTimeOut` says.  A time-out sets xTicksToWait to 0, unless it is seen
    * by the tick count having overflowed and passed the entry time again. */
  datatype Answer = InTime | TimedOut(ticksLeft: bool)

  datatype Step =
    | Call(t: Task, m: Mutex, ticks: bool)
    | Check(t: Task)
    | Window(t: Task, answer: Answer)
    | TickExpires(t: Task)
    | Recheck(t: Task)
    | GiveBack(t: Task)
    | Give(t: Task, m: Mutex)

  /** Preemption: when a task takes a mutex, no task just woken for that mutex and
    * not yet back at its check has a higher priority. */
  ghost predicate Preempts(s: State, t: Task, m: Mutex) {
    forall u :: s.pc(u).Top? && s.pc(u).m == m && s.pc(u).woken ==> s.prio(u) <= s.prio(t)
  }

  /** A task calls take only while it holds nothing. */
  ghost predicate Enabled(s: State, step: Step) {
    match step
    case Call(t, m, _) => s.pc(t).Away? && s.held(t) == 0
    case Check(t) => s.pc(t).Top? && (s.owner(s.pc(t).m).Free? ==> Preempts(s, t, s.pc(t).m))
    case Window(t, _) => s.pc(t).Mid?
    case TickExpires(t) => s.pc(t).Waiting?
    case Recheck(t) => s.pc(t).Expired?
    case GiveBack(t) => s.pc(t).Disinheriting?
    case Give(t, m) => s.owner(m) == Held(t) && s.pc(t).Away? && s.held(t) > 0
  }

  function Goto(s: State, t: Task, pc: Pc): State {
    s.(pc := Set(s.pc, t, pc))
  }

  function Items(item: Task -> int, ws: seq<Task>): (vals: seq<int>)
    ensures |vals| == |ws| && forall i :: 0 <= i < |ws| ==> vals[i] == item(ws[i])
  {
    seq(|ws|, i requires 0 <= i < |ws| => item(ws[i]))
  }

  /** `vTaskPlaceOnEventList`: sorted insertion by event item value. */
  function PlaceOn(s: State, m: Mutex, t: Task): State {
    var ws := s.waiters(m);
    var k := Rings.SortedSlot(Items(s.item, ws), s.item(t));
    s.(waiters := Set(s.waiters, m, ws[..k] + [t] + ws[k..]))
  }

  function Remove(ws: seq<Task>, t: Task): seq<Task> {
    if t in ws then Rings.Without(ws, t) else ws
  }

  function Apply(s: State, step: Step): State
    requires Enabled(s, step)
  {
    match step
    case Call(t, m, ticks) => Goto(s, t, Top(m, false, ticks, false))
    case Check(t) =>
      var Top(m, inherited, ticks, woken) := s.pc(t);
      if s.owner(m).Free? then
        Goto(s, t, Away).(owner := Set(s.owner, m, Held(t)), held := Set(s.held, t, s.held(t) + 1))
      else
        Goto(s, t, if ticks then Mid(m, inherited) else Away)
    case Window(t, answer) =>
      var Mid(m, inherited) := s.pc(t);
      if answer.TimedOut? then Goto(s, t, Expired(m, inherited, answer.ticksLeft))
      else if s.owner(m).Free? then Goto(s, t, Top(m, inherited, true, false))
      else
        var h := s.owner(m).task;
        Goto(PlaceOn(Inherit(s, t, h), m, t), t, Waiting(m, InheritanceOccurred(s, t, h)))
    case TickExpires(t) =>
      var Waiting(m, inherited) := s.pc(t);
      Goto(s, t, Top(m, inherited, true, false)).(waiters := Set(s.waiters, m, Remove(s.waiters(m), t)))
    case Recheck(t) =>
      var Expired(m, inherited, ticks) := s.pc(t);
      Goto(s, t, if s.owner(m).Free? then Top(m, inherited, ticks, false) else if inherited then Disinheriting(m) else Away)
    case GiveBack(t) =>
      var m := s.pc(t).m;
      var b := Goto(s, t, Away);
      if s.owner(m).Free? then b else DisinheritAfterTimeout(b, s.owner(m).task, HighestWaiting(s, m))
    case Give(t, m) =>
      var b := Disinherit(s, t).(owner := Set(s.owner, m, Free));
      if s.waiters(m) == [] then b
      else
        var w := s.waiters(m)[0];
        var inherited := s.pc(w).Waiting? && s.pc(w).inherited;
        Goto(b, w, Top(m, inherited, true, true)).(waiters := Set(s.waiters, m, s.waiters(m)[1..]))
  }

  ghost predicate Run(s: State, steps: seq<Step>, end: State)
    decreases |steps|
  {
    if steps == [] then s == end
    else Enabled(s, steps[0]) && Run(Apply(s, steps[0]), steps[1..], end)
  }

  ghost predicate Init(s: State) {
    && (forall m :: s.owner(m) == Free && s.waiters(m) == [])
    && (forall t :: s.pc(t) == Away && s.held(t) == 0 && 0 <= s.prio(t) == s.base(t) < MAX_PRIORITIES)
    && (forall t :: s.item(t) == MAX_PRIORITIES - s.prio(t))
  }

  // ---------------------------------------------------------------------------
  // The invariant.
  // ---------------------------------------------------------------------------

  /** No waiter outranks the holder. */
  ghost predicate NoInversion(s: State) {
    forall m, w :: s.owner(m).Held? && w in s.waiters(m) ==> s.prio(w) <= s.prio(s.owner(m).task)
  }

  ghost predicate Priorities(s: State) {
    && (forall t :: 0 <= s.base(t) <= s.prio(t) < MAX_PRIORITIES && s.item(t) == MAX_PRIORITIES - s.prio(t))
    && (forall t :: s.held(t) == 0 ==> s.prio(t) == s.base(t))
  }

  ghost predicate Ownership(s: State) {
    && (forall m :: s.owner(m).Held? ==> s.held(s.owner(m).task) == 1)
    && (forall m, n :: m != n && s.owner(m).Held? ==> s.owner(m) != s.owner(n))
    && (forall t :: s.pc(t) != Away ==> s.held(t) == 0)
  }

  ghost predicate SortedDown(prio: Task -> int, ws: seq<Task>) {
    forall i, j :: 0 <= i < j < |ws| ==> prio(ws[i]) >= prio(ws[j])
  }

  predicate On(pc: Pc, m: Mutex) {
    pc.Waiting? && pc.m == m
  }

  ghost predicate WaitLists(s: State) {
    && (forall m, t :: t in s.waiters(m) <==> On(s.pc(t), m))
    && (forall m :: Rings.NoDup(s.waiters(m)))
    && (forall m :: SortedDown(s.prio, s.waiters(m)))
  }

  ghost predicate WokenFor(s: State, m: Mutex, u: Task) {
    && s.pc(u).Top? && s.pc(u).m == m && s.pc(u).woken
    && forall w :: w in s.waiters(m) ==> s.prio(w) <= s.prio(u)
  }

  /** A free mutex with waiters has already woken one that outranks the rest. */
  ghost predicate SomebodyWoken(s: State) {
    forall m :: s.owner(m).Free? && s.waiters(m) != [] ==> exists u :: WokenFor(s, m, u)
  }

  /** A waiter that outranks the holder's base priority knows it lent its priority. */
  ghost predicate LendersKnow(s: State) {
    forall m, w :: s.owner(m).Held? && w in s.waiters(m) && s.base(s.owner(m).task) < s.prio(w) ==>
      s.pc(w).Waiting? && s.pc(w).inherited
  }

  predicate MayRepay(pc: Pc, m: Mutex) {
    match pc
    case Waiting(n, inherited) => n == m && inherited
    case Top(n, inherited, ticks, _) => n == m && inherited && ticks
    case Mid(n, inherited) => n == m && inherited
    case Expired(n, inherited, _) => n == m && inherited
    case Disinheriting(n) => n == m
    case Away => false
  }

  ghost predicate Lender(s: State, m: Mutex, z: Task) {
    s.owner(m).Held? && MayRepay(s.pc(z), m) && s.prio(z) == s.prio(s.owner(m).task)
  }

  /** A raised priority is that of a task which has yet to give it back. */
  ghost predicate RaisesAreLent(s: State) {
    forall m :: s.owner(m).Held? && s.base(s.owner(m).task) < s.prio(s.owner(m).task) ==> exists z :: Lender(s, m, z)
  }

  ghost predicate Inv(s: State) {
    && Priorities(s) && Ownership(s) && WaitLists(s)
    && NoInversion(s) && SomebodyWoken(s) && LendersKnow(s) && RaisesAreLent(s)
  }

  lemma InitOk(s: State)
    requires Init(s)
    ensures Inv(s)
  {
  }

  /** A step in which one task only moves on in its own code. */
  ghost predicate Quiet(s: State, t: Task, pc: Pc) {
    && !s.pc(t).Waiting? && !pc.Waiting? && s.held(t) == 0
    && (s.pc(t).Top? && s.pc(t).woken ==> s.owner(s.pc(t).m).Held?)
    && (forall m :: s.owner(m).Held? && MayRepay(s.pc(t), m) ==> MayRepay(pc, m))
  }

  lemma WitnessesStay(s: State, s': State)
    requires SomebodyWoken(s) && RaisesAreLent(s)
    requires forall m, u :: s'.owner(m).Free? && s'.waiters(m) != [] && WokenFor(s, m, u) ==> WokenFor(s', m, u)
    requires forall m, z :: s'.owner(m).Held? && Lender(s, m, z) ==> Lender(s', m, z)
    requires forall m :: s'.owner(m).Free? && s'.waiters(m) != [] ==> s.owner(m).Free? && s.waiters(m) != []
    requires forall m :: s'.owner(m).Held? && s'.base(s'.owner(m).task) < s'.prio(s'.owner(m).task) ==>
      s.owner(m).Held? && s.base(s.owner(m).task) < s.prio(s.owner(m).task)
    ensures SomebodyWoken(s') && RaisesAreLent(s')
  {
    forall m | s'.owner(m).Free? && s'.waiters(m) != []
      ensures exists u :: WokenFor(s', m, u)
    {
      var u :| WokenFor(s, m, u);
      assert WokenFor(s', m, u);
    }
    forall m | s'.owner(m).Held? && s'.base(s'.owner(m).task) < s'.prio(s'.owner(m).task)
      ensures exists z :: Lender(s', m, z)
    {
      var z :| Lender(s, m, z);
      assert Lender(s', m, z);
    }
  }

  lemma QuietKeepsInv(s: State, t: Task, pc: Pc)
    requires Inv(s) && Quiet(s, t, pc)
    ensures Inv(Goto(s, t, pc))
  {
    WitnessesStay(s, Goto(s, t, pc));
  }

  lemma TakeKeepsOrder(s: State, step: Step)
    requires Inv(s) && Enabled(s, step) && step.Check? && s.owner(s.pc(step.t).m).Free?
    ensures NoInversion(Apply(s, step)) && LendersKnow(Apply(s, step))
  {
    var mine := s.pc(step.t).m;
    forall w | w in s.waiters(mine)
      ensures s.prio(w) <= s.prio(step.t)
    {
      var u :| WokenFor(s, mine, u);
    }
  }

  lemma TakeKeepsTables(s: State, step: Step)
    requires Priorities(s) && Ownership(s) && WaitLists(s)
    requires Enabled(s, step) && step.Check? && s.owner(s.pc(step.t).m).Free?
    ensures Priorities(Apply(s, step)) && Ownership(Apply(s, step)) && WaitLists(Apply(s, step))
  {
  }

  lemma TakeKeepsInv(s: State, step: Step)
    requires Inv(s) && Enabled(s, step) && step.Check? && s.owner(s.pc(step.t).m).Free?
    ensures Inv(Apply(s, step))
  {
    TakeKeepsTables(s, step);
    TakeKeepsOrder(s, step);
    WitnessesStay(s, Apply(s, step));
  }

  lemma SortedWithout(prio: Task -> int, ws: seq<Task>, t: Task)
    requires Rings.NoDup(ws) && SortedDown(prio, ws)
    ensures Rings.NoDup(Remove(ws, t)) && SortedDown(prio, Remove(ws, t))
    ensures forall w :: w in Remove(ws, t) <==> w in ws && w != t
  {
    if t in ws {
      Rings.WithoutMembers(ws, t);
    }
  }

  /** Only the list of m and tasks on no list change. */
  lemma ListsStay(s: State, s': State, m: Mutex)
    requires WaitLists(s)
    requires forall n :: n != m ==> s'.waiters(n) == s.waiters(n)
    requires forall u :: s.pc(u).Waiting? ==> s'.prio(u) == s.prio(u)
    requires forall u, n :: n != m ==> (On(s'.pc(u), n) <==> On(s.pc(u), n))
    requires forall u :: u in s'.waiters(m) <==> On(s'.pc(u), m)
    requires Rings.NoDup(s'.waiters(m)) && SortedDown(s'.prio, s'.waiters(m))
    ensures WaitLists(s')
  {
    forall n
      ensures SortedDown(s'.prio, s'.waiters(n))
    {
      if n != m {
        assert forall i :: 0 <= i < |s.waiters(n)| ==> s.waiters(n)[i] in s.waiters(n);
      }
    }
  }

  lemma TickExpiresKeepsLists(s: State, step: Step)
    requires WaitLists(s) && Enabled(s, step) && step.TickExpires?
    ensures WaitLists(Apply(s, step))
    ensures forall n, w :: w in Apply(s, step).waiters(n) <==> w in s.waiters(n) && w != step.t
  {
    var t := step.t;
    var m := s.pc(t).m;
    SortedWithout(s.prio, s.waiters(m), t);
    assert Apply(s, step).waiters(m) == Remove(s.waiters(m), t);
    ListsStay(s, Apply(s, step), m);
  }

  lemma TickExpiresKeepsInv(s: State, step: Step)
    requires Inv(s) && Enabled(s, step) && step.TickExpires?
    ensures Inv(Apply(s, step))
  {
    var s' := Apply(s, step);
    TickExpiresKeepsLists(s, step);
    forall m | s'.waiters(m) != []
      ensures s.waiters(m) != []
    {
      assert s'.waiters(m)[0] in s'.waiters(m);
    }
    WitnessesStay(s, s');
  }

  lemma SortedByItem(prio: Task -> int, item: Task -> int, w: seq<Task>, v: seq<int>)
    requires forall u :: item(u) == MAX_PRIORITIES - prio(u)
    requires |w| == |v| && Rings.Sorted(v) && forall i {:trigger v[i]} :: 0 <= i < |w| ==> v[i] == item(w[i])
    ensures SortedDown(prio, w)
  {
    forall i, j | 0 <= i < j < |w|
      ensures prio(w[i]) >= prio(w[j])
    {
      assert v[i] <= v[j];
    }
  }

  lemma SortedPlace(prio: Task -> int, item: Task -> int, ws: seq<Task>, t: Task)
    requires forall u :: item(u) == MAX_PRIORITIES - prio(u)
    requires Rings.NoDup(ws) && SortedDown(prio, ws) && t !in ws
    ensures var k := Rings.SortedSlot(Items(item, ws), item(t)); var w := ws[..k] + [t] + ws[k..];
            Rings.NoDup(w) && SortedDown(prio, w) && forall u :: u in w <==> u in ws || u == t
  {
    var vals := Items(item, ws);
    var k := Rings.SortedSlot(vals, item(t));
    assert Rings.Sorted(vals);
    Rings.SortedInsertIsStable(vals, item(t));
    Rings.InsertAtMembers(ws, k, t);
    SortedByItem(prio, item, ws[..k] + [t] + ws[k..], vals[..k] + [item(t)] + vals[k..]);
  }

  /** The task that blocks is put where it belongs by its priority. */
  lemma BlockSorts(s: State, step: Step)
    requires Priorities(s) && Ownership(s) && WaitLists(s)
    requires Enabled(s, step) && step.Window? && step.answer.InTime? && s.owner(s.pc(step.t).m).Held?
    ensures var m, s' := s.pc(step.t).m, Apply(s, step);
            && Rings.NoDup(s'.waiters(m)) && SortedDown(s'.prio, s'.waiters(m))
            && forall w :: w in s'.waiters(m) <==> w in s.waiters(m) || w == step.t
  {
    var t := step.t;
    var m := s.pc(t).m;
    var b := Inherit(s, t, s.owner(m).task);
    assert SortedDown(b.prio, s.waiters(m)) by {
      assert forall i :: 0 <= i < |s.waiters(m)| ==> s.waiters(m)[i] in s.waiters(m);
    }
    SortedPlace(b.prio, b.item, s.waiters(m), t);
  }

  lemma BlockKeepsLists(s: State, step: Step)
    requires Priorities(s) && Ownership(s) && WaitLists(s)
    requires Enabled(s, step) && step.Window? && step.answer.InTime? && s.owner(s.pc(step.t).m).Held?
    ensures WaitLists(Apply(s, step))
    ensures var m := s.pc(step.t).m; forall w :: w in Apply(s, step).waiters(m) <==> w in s.waiters(m) || w == step.t
  {
    BlockSorts(s, step);
    ListsStay(s, Apply(s, step), s.pc(step.t).m);
  }

  lemma BlockKeepsTables(s: State, step: Step)
    requires Priorities(s) && Ownership(s) && Enabled(s, step) && step.Window? && step.answer.InTime? && s.owner(s.pc(step.t).m).Held?
    ensures Priorities(Apply(s, step)) && Ownership(Apply(s, step))
  {
  }

  lemma GiveBackKeepsTables(s: State, step: Step)
    requires Priorities(s) && Ownership(s) && WaitLists(s) && Enabled(s, step) && step.GiveBack?
    ensures Priorities(Apply(s, step)) && Ownership(Apply(s, step))
  {
  }

  lemma GiveKeepsTables(s: State, step: Step)
    requires Priorities(s) && Ownership(s) && WaitLists(s) && Enabled(s, step) && step.Give?
    ensures Priorities(Apply(s, step)) && Ownership(Apply(s, step))
  {
    if s.waiters(step.m) != [] {
      assert s.waiters(step.m)[0] in s.waiters(step.m);
    }
  }

  lemma BlockKeepsOrder(s: State, step: Step)
    requires Inv(s) && Enabled(s, step) && step.Window? && step.answer.InTime? && s.owner(s.pc(step.t).m).Held?
    ensures var s' := Apply(s, step); WaitLists(s') && NoInversion(s') && LendersKnow(s')
  {
    var s', t := Apply(s, step), step.t;
    var m := s.pc(t).m;
    BlockKeepsLists(s, step);
    forall n, w | s'.owner(n).Held? && w in s'.waiters(n)
      ensures s'.prio(w) <= s'.prio(s'.owner(n).task)
      ensures s'.base(s'.owner(n).task) < s'.prio(w) ==> s'.pc(w).Waiting? && s'.pc(w).inherited
    {
      assert (n == m && w == t) || w in s.waiters(n);
    }
  }

  lemma BlockKeepsWitnesses(s: State, step: Step)
    requires Inv(s) && Enabled(s, step) && step.Window? && step.answer.InTime? && s.owner(s.pc(step.t).m).Held?
    ensures SomebodyWoken(Apply(s, step)) && RaisesAreLent(Apply(s, step))
  {
    var t := step.t;
    var m := s.pc(t).m;
    var h := s.owner(m).task;
    var s' := Apply(s, step);
    BlockKeepsLists(s, step);
    forall n | s'.owner(n).Free? && s'.waiters(n) != []
      ensures exists u :: WokenFor(s', n, u)
    {
      var u :| WokenFor(s, n, u);
      assert WokenFor(s', n, u);
    }
    forall n | s'.owner(n).Held? && s'.base(s'.owner(n).task) < s'.prio(s'.owner(n).task)
      ensures exists z :: Lender(s', n, z)
    {
      if n == m && s.prio(h) < s.prio(t) {
        assert Lender(s', m, t);
      } else {
        var z :| Lender(s, n, z);
        assert Lender(s', n, z);
      }
    }
  }

  lemma GiveBackKeepsOrder(s: State, step: Step)
    requires Inv(s) && Enabled(s, step) && step.GiveBack? && s.owner(s.pc(step.t).m).Held?
    ensures var s' := Apply(s, step); WaitLists(s') && NoInversion(s') && LendersKnow(s')
  {
    ListsStay(s, Apply(s, step), s.pc(step.t).m);
  }

  lemma GiveBackKeepsWitnesses(s: State, step: Step)
    requires Inv(s) && Enabled(s, step) && step.GiveBack? && s.owner(s.pc(step.t).m).Held?
    ensures SomebodyWoken(Apply(s, step)) && RaisesAreLent(Apply(s, step))
  {
    var t := step.t;
    var m := s.pc(t).m;
    var h := s.owner(m).task;
    var s' := Apply(s, step);
    forall n | s'.owner(n).Free? && s'.waiters(n) != []
      ensures exists u :: WokenFor(s', n, u)
    {
      var u :| WokenFor(s, n, u);
      assert WokenFor(s', n, u);
    }
    forall n | s'.owner(n).Held? && s'.base(s'.owner(n).task) < s'.prio(s'.owner(n).task)
      ensures exists z :: Lender(s', n, z)
    {
      if n == m {
        var w := s.waiters(m)[0];
        assert w in s.waiters(m);
        assert Lender(s', m, w);
      } else {
        var z :| Lender(s, n, z);
        assert Lender(s', n, z);
      }
    }
  }

  lemma GiveKeepsLists(s: State, step: Step)
    requires Inv(s) && Enabled(s, step) && step.Give?
    ensures WaitLists(Apply(s, step))
    ensures var ws := s.waiters(step.m); ws != [] ==> WokenFor(Apply(s, step), step.m, ws[0])
  {
    var s' := Apply(s, step);
    var ws := s.waiters(step.m);
    if ws != [] {
      assert ws == [ws[0]] + ws[1..];
      assert s'.waiters(step.m) == ws[1..];
      assert forall w :: w in ws[1..] <==> w in ws && w != ws[0];
      assert forall w :: w in ws ==> s'.prio(w) == s.prio(w) <= s.prio(ws[0]);
    }
    ListsStay(s, s', step.m);
  }

  lemma GiveKeepsOrder(s: State, step: Step)
    requires Inv(s) && Enabled(s, step) && step.Give?
    ensures var s' := Apply(s, step); WaitLists(s') && NoInversion(s') && LendersKnow(s')
  {
    GiveKeepsLists(s, step);
    assert forall n :: n != step.m ==> Apply(s, step).waiters(n) == s.waiters(n);
  }

  lemma GiveKeepsWitnesses(s: State, step: Step)
    requires Inv(s) && Enabled(s, step) && step.Give?
    ensures SomebodyWoken(Apply(s, step)) && RaisesAreLent(Apply(s, step))
  {
    var m := step.m;
    var s' := Apply(s, step);
    GiveKeepsLists(s, step);
    assert forall n :: n != m ==> s'.waiters(n) == s.waiters(n);
    forall n | s'.owner(n).Free? && s'.waiters(n) != []
      ensures exists u :: WokenFor(s', n, u)
    {
      if n != m {
        var u :| WokenFor(s, n, u);
        assert WokenFor(s', n, u);
      }
    }
    forall n | s'.owner(n).Held? && s'.base(s'.owner(n).task) < s'.prio(s'.owner(n).task)
      ensures exists z :: Lender(s', n, z)
    {
      var z :| Lender(s, n, z);
      assert Lender(s', n, z);
    }
  }

  lemma StepKeepsInv(s: State, step: Step)
    requires Inv(s) && Enabled(s, step)
    ensures Inv(Apply(s, step))
  {
    var t := step.t;
    match step
    case Call(_, m, ticks) => QuietKeepsInv(s, t, Top(m, false, ticks, false));
    case Check(_) =>
      var Top(m, inherited, ticks, _) := s.pc(t);
      if s.owner(m).Free? { TakeKeepsInv(s, step); } else { QuietKeepsInv(s, t, if ticks then Mid(m, inherited) else Away); }
    case Window(_, answer) =>
      var Mid(m, inherited) := s.pc(t);
      if answer.TimedOut? { QuietKeepsInv(s, t, Expired(m, inherited, answer.ticksLeft)); }
      else if s.owner(m).Free? { QuietKeepsInv(s, t, Top(m, inherited, true, false)); }
      else { BlockKeepsTables(s, step); BlockKeepsOrder(s, step); BlockKeepsWitnesses(s, step); }
    case TickExpires(_) => TickExpiresKeepsInv(s, step);
    case Recheck(_) => QuietKeepsInv(s, t, Apply(s, step).pc(t));
    case GiveBack(_) =>
      if s.owner(s.pc(t).m).Free? {
        QuietKeepsInv(s, t, Away);
      } else {
        GiveBackKeepsTables(s, step);
        GiveBackKeepsOrder(s, step);
        GiveBackKeepsWitnesses(s, step);
      }
    case Give(_, _) => GiveKeepsTables(s, step); GiveKeepsOrder(s, step); GiveKeepsWitnesses(s, step);
  }

  lemma {:induction false} RunKeepsInv(s: State, steps: seq<Step>, end: State)
    requires Inv(s) && Run(s, steps, end)
    ensures Inv(end)
    decreases |steps|
  {
    if steps != [] {
      StepKeepsInv(s, steps[0]);
      RunKeepsInv(Apply(s, steps[0]), steps[1..], end);
    }
  }

  /** In every run from the start no task waits for a mutex whose holder runs at a
    * lower priority, also after waits that timed out and changes of holder. */
  lemma NoPriorityInversion(s: State, steps: seq<Step>, end: State, m: Mutex, w: Task)
    requires Init(s) && Run(s, steps, end)
    requires end.owner(m).Held? && w in end.waiters(m)
    ensures end.prio(w) <= end.prio(end.owner(m).task)
  {
    InitOk(s);
    RunKeepsInv(s, steps, end);
  }

  /** A task keeps a raised priority only while it holds a mutex that another task of
    * exactly that priority is still trying to take and will account for. */
  lemma RaisedOnlyWhileLent(s: State, steps: seq<Step>, end: State, m: Mutex, t: Task) returns (z: Task)
    requires Init(s) && Run(s, steps, end)
    requires end.owner(m) == Held(t) && end.prio(t) != end.base(t)
    ensures end.prio(z) == end.prio(t) > end.base(t) && end.pc(z) != Away && end.pc(z).m == m
  {
    InitOk(s);
    RunKeepsInv(s, steps, end);
    z :| Lender(end, m, z);
  }

  /** When a timed-out task lowers the holder's priority, a task other than the holder
    * is still ready at the priority the holder leaves: what the bitmap update in
    * `vTaskPriorityDisinheritAfterTimeout` relies on. */
  lemma ReadyPeerRemains(s: State, steps: seq<Step>, end: State, t: Task) returns (z: Task)
    requires Init(s) && Run(s, steps, end)
    requires end.pc(t).Disinheriting? && end.owner(end.pc(t).m).Held?
    requires var h := end.owner(end.pc(t).m).task; end.prio(h) != PriorityToUse(end, h, HighestWaiting(end, end.pc(t).m))
    ensures var h := end.owner(end.pc(t).m).task; z != h && end.prio(z) == end.prio(h)
    ensures end.pc(z) != Away && !end.pc(z).Waiting?
  {
    InitOk(s);
    RunKeepsInv(s, steps, end);
    z :| Lender(end, end.pc(t).m, z);
  }

  lemma {:induction false} RunExtends(s: State, steps: seq<Step>, mid: State, step: Step)
    requires Run(s, steps, mid) && Enabled(mid, step)
    ensures Run(s, steps + [step], Apply(mid, step))
    decreases |steps|
  {
    var longer := steps + [step];
    if steps == [] {
      assert longer[1..] == [];
    } else {
      RunExtends(Apply(s, steps[0]), steps[1..], mid, step);
      assert longer[1..] == steps[1..] + [step];
    }
  }

  /** Three tasks of priorities 1, 2 and 3. */
  function Start(): State {
    var prio := (t: Task) => if 0 <= t.id < 3 then t.id + 1 else 0;
    State(_ => Free, _ => [], prio, prio, _ => 0, (t: Task) => MAX_PRIORITIES - prio(t), _ => Away)
  }

  lemma Then(steps: seq<Step>, mid: State, step: Step) returns (longer: seq<Step>, end: State)
    requires Run(Start(), steps, mid) && Enabled(mid, step)
    ensures Run(Start(), longer, end) && end == Apply(mid, step)
  {
    RunExtends(Start(), steps, mid, step);
    longer, end := steps + [step], Apply(mid, step);
  }

  // ---------------------------------------------------------------------------
  // The assertion of `xQueueSemaphoreTake` that a task which is out of ticks never caused
  // an inheritance.
  // ---------------------------------------------------------------------------

  /** The state after the first k steps. */
  ghost function After(s: State, steps: seq<Step>, end: State, k: nat): State
    requires Run(s, steps, end) && k <= |steps|
    decreases k
  {
    if k == 0 then s else After(Apply(s, steps[0]), steps[1..], end, k - 1)
  }

  lemma {:induction false} AfterNext(s: State, steps: seq<Step>, end: State, k: nat)
    requires Run(s, steps, end) && k < |steps|
    ensures Enabled(After(s, steps, end, k), steps[k])
    ensures After(s, steps, end, k + 1) == Apply(After(s, steps, end, k), steps[k])
    decreases k
  {
    if k > 0 {
      AfterNext(Apply(s, steps[0]), steps[1..], end, k - 1);
    }
  }

  /** Out of ticks with an inheritance on record. */
  predicate Endangered(pc: Pc) {
    pc.Top? && pc.inherited && !pc.ticks
  }

  /** Step j is the check of task x, and it fails the assertion. */
  ghost predicate FailsAt(s: State, steps: seq<Step>, end: State, j: nat, x: Task)
    requires Run(s, steps, end) && j < |steps|
  {
    var c := After(s, steps, end, j);
    steps[j] == Check(x) && Endangered(c.pc(x)) && c.owner(c.pc(x).m).Held?
  }

  /** Step i is task x looking again after a time-out that used up its ticks: it has lent its
    * priority, and finds the mutex free. */
  ghost predicate FindsItFree(s: State, steps: seq<Step>, end: State, i: nat, x: Task)
    requires Run(s, steps, end) && i < |steps|
  {
    var c := After(s, steps, end, i);
    steps[i] == Recheck(x) && c.pc(x).Expired? && c.pc(x).inherited && !c.pc(x).ticks && c.owner(c.pc(x).m).Free?
  }

  /** Step j is the next one of task x after step i. */
  predicate NextOf(steps: seq<Step>, i: nat, j: nat, x: Task) {
    i < j < |steps| && steps[j].t == x && forall k :: i < k < j ==> steps[k].t != x
  }

  lemma OneStepEndangers(s: State, step: Step, x: Task)
    requires Enabled(s, step) && !Endangered(s.pc(x))
    ensures Endangered(Apply(s, step).pc(x)) <==>
            step == Recheck(x) && s.pc(x).inherited && !s.pc(x).ticks && s.owner(s.pc(x).m).Free?
  {
  }

  /** A task at its check stays there until its own next step. */
  lemma OthersLeaveTop(s: State, step: Step, x: Task)
    requires WaitLists(s) && Enabled(s, step) && s.pc(x).Top? && step.t != x
    ensures Apply(s, step).pc(x) == s.pc(x)
  {
    if step.Give? && s.waiters(step.m) != [] {
      assert s.waiters(step.m)[0] in s.waiters(step.m);
    }
  }

  lemma InvAfter(s: State, steps: seq<Step>, end: State, k: nat)
    requires Inv(s) && Run(s, steps, end) && k <= |steps|
    ensures Inv(After(s, steps, end, k))
    decreases k
  {
    if k > 0 {
      AfterNext(s, steps, end, k - 1);
      InvAfter(s, steps, end, k - 1);
      StepKeepsInv(After(s, steps, end, k - 1), steps[k - 1]);
    }
  }

  /** Where an endangered task came from. */
  lemma {:induction false} ComesFrom(s: State, steps: seq<Step>, end: State, j: nat, x: Task) returns (i: nat)
    requires Init(s) && Run(s, steps, end) && j < |steps| && Endangered(After(s, steps, end, j).pc(x))
    ensures i < j && FindsItFree(s, steps, end, i, x) && forall k :: i < k < j ==> steps[k].t != x
    decreases j
  {
    AfterNext(s, steps, end, j - 1);
    var c := After(s, steps, end, j - 1);
    if Endangered(c.pc(x)) {
      assert steps[j - 1].t != x;
      i := ComesFrom(s, steps, end, j - 1, x);
    } else {
      OneStepEndangers(c, steps[j - 1], x);
      i := j - 1;
    }
  }

  lemma {:induction false} StaysEndangered(s: State, steps: seq<Step>, end: State, i: nat, j: nat, x: Task)
    requires Init(s) && Run(s, steps, end) && i < j < |steps| && FindsItFree(s, steps, end, i, x)
    requires forall k :: i < k < j ==> steps[k].t != x
    ensures Endangered(After(s, steps, end, j).pc(x))
    decreases j
  {
    AfterNext(s, steps, end, j - 1);
    if i < j - 1 {
      StaysEndangered(s, steps, end, i, j - 1, x);
      InitOk(s);
      InvAfter(s, steps, end, j - 1);
      OthersLeaveTop(After(s, steps, end, j - 1), steps[j - 1], x);
    }
  }

  /** In every run: the assertion fails at a check if and only if the mutex is held there and
    * the task's step before was to look again after its ticks had run out, to find the mutex
    * it had lent its priority for free. */
  lemma AssertionFailsIff(s: State, steps: seq<Step>, end: State, j: nat, x: Task)
    requires Init(s) && Run(s, steps, end) && j < |steps|
    ensures FailsAt(s, steps, end, j, x) <==>
            && steps[j] == Check(x)
            && (exists i :: NextOf(steps, i, j, x) && FindsItFree(s, steps, end, i, x))
            && var c := After(s, steps, end, j); c.pc(x).Top? && c.owner(c.pc(x).m).Held?
  {
    AfterNext(s, steps, end, j);
    if FailsAt(s, steps, end, j, x) {
      var i := ComesFrom(s, steps, end, j, x);
      assert NextOf(steps, i, j, x) && FindsItFree(s, steps, end, i, x);
    }
    if i :| NextOf(steps, i, j, x) && FindsItFree(s, steps, end, i, x) {
      StaysEndangered(s, steps, end, i, j, x);
    }
  }

  /** Where a task that looks again came from. */
  lemma {:induction false} ExpiresBefore(s: State, steps: seq<Step>, end: State, j: nat, x: Task) returns (i: nat)
    requires Init(s) && Run(s, steps, end) && j < |steps|
    requires var pc := After(s, steps, end, j).pc(x); pc.Expired? && !pc.ticks
    ensures i < j && steps[i] == Window(x, TimedOut(false))
    decreases j
  {
    AfterNext(s, steps, end, j - 1);
    var c := After(s, steps, end, j - 1);
    if c.pc(x).Expired? && !c.pc(x).ticks {
      i := ExpiresBefore(s, steps, end, j - 1, x);
    } else {
      i := j - 1;
    }
  }

  /** A task none of whose waits has used up its ticks does not fail the assertion. */
  lemma FailsOnlyAfterATimeOut(s: State, steps: seq<Step>, end: State, j: nat, x: Task) returns (k: nat)
    requires Init(s) && Run(s, steps, end) && j < |steps| && FailsAt(s, steps, end, j, x)
    ensures k < j && steps[k] == Window(x, TimedOut(false))
  {
    AssertionFailsIff(s, steps, end, j, x);
    var i :| NextOf(steps, i, j, x) && FindsItFree(s, steps, end, i, x);
    k := ExpiresBefore(s, steps, end, i, x);
  }

  lemma MutexIsTaken(h: Task, x: Task, u: Task, m: Mutex) returns (steps: seq<Step>, end: State)
    requires h == Task(0) && x == Task(1) && u == Task(2)
    ensures Run(Start(), steps, end) && end.owner(m) == Held(h) && end.waiters(m) == [] && end.held(h) == 1
    ensures end.held(x) == end.held(u) == 0 && end.prio(h) < end.prio(x) && forall t :: end.pc(t) == Away
  {
    steps, end := [], Start();
    steps, end := Then(steps, end, Call(h, m, true));
    steps, end := Then(steps, end, Check(h));
  }

  lemma LenderRunsOutOfTicks(h: Task, x: Task, u: Task, m: Mutex) returns (steps: seq<Step>, end: State)
    requires h == Task(0) && x == Task(1) && u == Task(2)
    ensures Run(Start(), steps, end) && end.pc(x) == Top(m, true, true, false)
    ensures end.owner(m) == Held(h) && end.waiters(m) == [] && end.held(h) == 1 && end.held(x) == end.held(u) == 0
    ensures forall t :: t != x ==> end.pc(t) == Away
  {
    steps, end := MutexIsTaken(h, x, u, m);
    steps, end := Then(steps, end, Call(x, m, true));
    steps, end := Then(steps, end, Check(x));
    steps, end := Then(steps, end, Window(x, InTime));
    assert end.pc(x) == Waiting(m, true) && end.waiters(m) == [x];
    steps, end := Then(steps, end, TickExpires(x));
  }

  lemma LenderFindsItFree(h: Task, x: Task, u: Task, m: Mutex) returns (steps: seq<Step>, end: State)
    requires h == Task(0) && x == Task(1) && u == Task(2)
    ensures Run(Start(), steps, end) && end.pc(x) == Top(m, true, false, false)
    ensures end.owner(m) == Free && end.held(u) == 0 && forall t :: t != x ==> end.pc(t) == Away
  {
    steps, end := LenderRunsOutOfTicks(h, x, u, m);
    steps, end := Then(steps, end, Check(x));
    steps, end := Then(steps, end, Window(x, TimedOut(false)));
    steps, end := Then(steps, end, Give(h, m));
    steps, end := Then(steps, end, Recheck(x));
  }

  /** The assertion says that a task which is out of time never caused an inheritance.
    * It can fail: the mutex is given back after the timeout, and taken by a third task
    * before the timed-out one looks again. */
  lemma TimedOutLenderMeetsAHeldMutex() returns (steps: seq<Step>, end: State, x: Task)
    ensures Init(Start()) && Run(Start(), steps, end)
    ensures Enabled(end, Check(x)) && Endangered(end.pc(x)) && end.owner(end.pc(x).m).Held?
  {
    var h, u, m := Task(0), Task(2), Mutex(0);
    x := Task(1);
    steps, end := LenderFindsItFree(h, x, u, m);
    steps, end := Then(steps, end, Call(u, m, true));
    steps, end := Then(steps, end, Check(u));
  }
}
