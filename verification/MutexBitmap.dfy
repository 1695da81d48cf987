/** The ready bitmap while mutexes are taken and timed out on by the discipline of
  * module MutexProtocol, and the agreement of both on the priorities. */
module MutexBitmap {
  import P = MutexProtocol
  import opened TaskLists
  import opened TaskMachine
  import Scheduler
  import opened TaskCards

  function TaskOf(t: P.Task): Task {
    Task(t.id)
  }

  /** The scheduler and the mutex protocol agree: on priorities and held mutexes, and on the tasks
    * that are inside a call and do not wait; these run or have been preempted, so they are ready. */
  ghost predicate Agree(c: Core, s: P.State) {
    && (forall t :: c.tcb.prio(TaskOf(t)) == s.prio(t) && c.tcb.base(TaskOf(t)) == s.base(t) && c.tcb.held(TaskOf(t)) == s.held(t))
    && (forall t :: !s.pc(t).Away? && !s.pc(t).Waiting? ==> IsReady(c, TaskOf(t)))
  }

  /** A ready peer of the same priority keeps the list that the holder leaves from becoming empty. */
  lemma PeerKeepsTheBit(c: Core, holder: Task, peer: Task, highest: int)
    requires Inv(c) && peer != holder && IsReady(c, peer) && c.tcb.prio(peer) == c.tcb.prio(holder)
    ensures !Scheduler.LeavesAStaleBit(c, holder, highest)
  {
    var items := c.state.at(Ready(c.tcb.prio(holder))).items;
    assert peer in items;
    if IsReady(c, holder) {
      assert holder in items;
    }
  }

  /** In every run of the protocol the disinheritance after a time-out leaves the bitmap exact. */
  lemma TimeOutKeepsTheBitmap(s: P.State, steps: seq<P.Step>, end: P.State, t: P.Task, c: Core)
    requires P.Init(s) && P.Run(s, steps, end) && end.pc(t).Disinheriting? && end.owner(end.pc(t).m).Held?
    requires Inv(c) && Agree(c, end)
    ensures !Scheduler.LeavesAStaleBit(c, TaskOf(end.owner(end.pc(t).m).task), P.HighestWaiting(end, end.pc(t).m))
  {
    var h, highest := end.owner(end.pc(t).m).task, P.HighestWaiting(end, end.pc(t).m);
    assert c.tcb.prio(TaskOf(h)) == end.prio(h) && c.tcb.base(TaskOf(h)) == end.base(h);
    if end.prio(h) != P.PriorityToUse(end, h, highest) {
      var z := P.ReadyPeerRemains(s, steps, end, t);
      PeerKeepsTheBit(c, TaskOf(h), TaskOf(z), highest);
    }
  }

  // ---------------------------------------------------------------------------
  // Both machines change priorities alike.
  // ---------------------------------------------------------------------------

  ghost predicate SamePriorities(c: Core, s: P.State, u: P.Task) {
    c.tcb.prio(TaskOf(u)) == s.prio(u) && c.tcb.base(TaskOf(u)) == s.base(u) && c.tcb.held(TaskOf(u)) == s.held(u)
  }

  /** The running task gives a mutex: in both machines it holds one fewer, and is back at its base priority
    * if that was its last. */
  lemma DisinheritAgrees(c: Core, s: P.State, t: P.Task, u: P.Task)
    requires Inv(c) && Agree(c, s) && c.current == TaskOf(t) && Enabled(c, Disinherit)
    ensures s.held(t) > 0 && SamePriorities(Apply(c, Disinherit), P.Disinherit(s, t), u)
  {
    assert SamePriorities(c, s, t) && SamePriorities(c, s, u);
    DisinheritCard(c, TaskOf(u));
  }

  /** The running task waits for a mutex that h holds. */
  lemma InheritAgrees(c: Core, s: P.State, t: P.Task, h: P.Task, u: P.Task)
    requires Inv(c) && Agree(c, s) && c.current == TaskOf(t) && Enabled(c, Inherit(TaskOf(h)))
    ensures SamePriorities(Apply(c, Inherit(TaskOf(h))), P.Inherit(s, t, h), u)
  {
    assert SamePriorities(c, s, t) && SamePriorities(c, s, h) && SamePriorities(c, s, u);
    InheritCard(c, TaskOf(h), TaskOf(u));
  }

  /** A wait for a mutex that h holds has timed out. */
  lemma DisinheritAfterTimeoutAgrees(c: Core, s: P.State, h: P.Task, highest: int, u: P.Task)
    requires Inv(c) && Agree(c, s) && Enabled(c, DisinheritAfterTimeout(TaskOf(h), highest))
    ensures SamePriorities(Apply(c, DisinheritAfterTimeout(TaskOf(h), highest)), P.DisinheritAfterTimeout(s, h, highest), u)
  {
    assert SamePriorities(c, s, h) && SamePriorities(c, s, u);
    DisinheritAfterTimeoutCard(c, TaskOf(h), highest, TaskOf(u));
  }
}
