/** Tasks of one priority that are readied together take their turns in the order in which they became
  * due: those held back first, then the sleepers by wake time and by the order in which they went to sleep. */
module WakeOrder {
  import Rings
  import opened TaskLists
  import opened TaskMachine
  import opened TaskRuns
  import opened TaskCards
  import opened TaskTurns

  /** Both are on one list, u before t. */
  ghost predicate Listed<L(!new)>(f: Filing<L>, u: Task, t: Task)
    requires Filed(f)
  {
    f.home(u).In? && f.home(t) == f.home(u) && Rings.IndexOf(f.at(f.home(u).list).items, u) < Rings.IndexOf(f.at(f.home(u).list).items, t)
  }

  /** Both sleep, and u is to be woken earlier, or at the same time and is first on the list. */
  ghost predicate SleepsShorter(c: Core, u: Task, t: Task)
    requires Filed(c.state)
  {
    WakeOf(c, u).At? && WakeOf(c, t).At? &&
    (WakeOf(c, u).time < WakeOf(c, t).time || (WakeOf(c, u) == WakeOf(c, t) && Listed(c.state, u, t)))
  }

  /** Task t sleeps, and u has been readied or sleeps shorter. */
  ghost predicate Sooner(c: Core, u: Task, t: Task)
    requires Filed(c.state)
  {
    WakeOf(c, t).At? && (YetToCome(c.state, Ready(c.tcb.prio(u)), u) || SleepsShorter(c, u, t))
  }

  lemma MoveKeepsListed(f: Filing<ListId>, x: Task, m: ListId, u: Task, t: Task)
    requires Filed(f) && Listed(f, u, t) && x != u && x != t && f.home(u) != In(m)
    ensures Filed(PutEnd(Take(f, x), m, x)) && Listed(PutEnd(Take(f, x), m, x), u, t)
  {
    MoveEndOk(f, x, m);
    var l := f.home(u).list;
    var items := f.at(l).items;
    if f.home(x) == In(l) {
      TakeOk(f, x);
      PutEndOk(Take(f, x), m, x);
      Rings.IndexAfterCut(items, x, u);
      Rings.IndexAfterCut(items, x, t);
    }
  }

  lemma {:induction false} ReadyAllKeepsListed(f: Filing<ListId>, prio: Task -> int, ts: seq<Task>, u: Task, t: Task)
    requires Filed(f) && Listed(f, u, t) && u !in ts && t !in ts && !OnReadyList(f.home(u))
    ensures Filed(ReadyAll(f, prio, ts)) && Listed(ReadyAll(f, prio, ts), u, t)
  {
    if ts != [] {
      var k := |ts| - 1;
      ReadyAllKeepsListed(f, prio, ts[..k], u, t);
      ReadyAllHome(f, prio, ts[..k], u);
      MoveKeepsListed(ReadyAll(f, prio, ts[..k]), ts[k], Ready(prio(ts[k])), u, t);
    }
  }

  // ---------------------------------------------------------------------------
  // One tick.
  // ---------------------------------------------------------------------------

  lemma PrefixInOrder<L(!new)>(f: Filing<L>, l: L, n: nat, u: Task, t: Task)
    requires Filed(f) && n <= |f.at(l).items| && u in f.at(l).items[..n] && t in f.at(l).items[..n] && Listed(f, u, t)
    ensures Rings.IndexOf(f.at(l).items[..n], u) < Rings.IndexOf(f.at(l).items[..n], t)
  {
    var items, ts := f.at(l).items, f.at(l).items[..n];
    assert u in items && t in items;
    Rings.IndexUnique(items, Rings.IndexOf(ts, u), u);
    Rings.IndexUnique(items, Rings.IndexOf(ts, t), t);
  }

  lemma DueInOrder(a: Core, u: Task, t: Task)
    requires Good(a, 0) && u in Due(a) && t in Due(a) && Listed(a.state, u, t)
    ensures Rings.IndexOf(Due(a), u) < Rings.IndexOf(Due(a), t)
  {
    FrontIsPrefix(a.state.at(a.delayed).items, a.tcb.value, a.tick);
    PrefixInOrder(a.state, a.delayed, |Due(a)|, u, t);
  }

  lemma DueSleep(a: Core)
    requires Good(a, 0)
    ensures Rings.NoDup(Due(a)) && forall i :: 0 <= i < |Due(a)| ==> !OnReadyList(a.state.home(Due(a)[i]))
  {
    FrontIsPrefix(a.state.at(a.delayed).items, a.tcb.value, a.tick);
    DueIsExact(a);
    assert forall i :: 0 <= i < |Due(a)| ==> Due(a)[i] in Due(a);
  }

  /** The tasks that the tick takes off. */
  lemma TakenOff(c: Core) returns (ts: seq<Task>)
    requires Good(c, 1)
    ensures Good(Advance(c), 0) && Advance(c).state == c.state && ts == Due(Advance(c))
    ensures Ticked(c).state == ReadyAll(c.state, c.tcb.prio, ts) && Ticked(c).tcb == c.tcb
    ensures Rings.NoDup(ts) && forall i :: 0 <= i < |ts| ==> !OnReadyList(c.state.home(ts[i]))
    ensures forall u :: u in ts <==> WakeOf(c, u) == At(Now(c) + 1)
  {
    AdvanceOk(c);
    var a := Advance(c);
    ts := Due(a);
    DueSleep(a);
    forall u
      ensures u in ts <==> WakeOf(c, u) == At(Now(c) + 1)
    {
      DueIsWake(a, u);
    }
  }

  lemma TickedInOrder(c: Core, u: Task, t: Task)
    requires Good(c, 1) && Sooner(c, u, t) && u != t && c.tcb.prio(u) == c.tcb.prio(t) && WakeOf(c, t) == At(Now(c) + 1)
    ensures Before(Ticked(c).state, Ready(c.tcb.prio(u)), u, t)
  {
    var ts := TakenOff(c);
    if u in ts { DueInOrder(Advance(c), u, t); }
    assert Precedes(c.state, c.tcb.prio, ts, u, t);
    ReadiedInOrder(c.state, c.tcb.prio, ts, u, t);
  }

  lemma TickedSooner(c: Core, u: Task, t: Task)
    requires Good(c, 1) && Waiting(c) && c.event.at(PendingReady).items == [] && Sooner(c, u, t) && WakeOf(c, t) != At(Now(c) + 1)
    ensures Good(Ticked(c), 1) && Sooner(Ticked(c), u, t)
  {
    var ts := TakenOff(c);
    TickedOk(c);
    TickedIsExact(c, u);
    TickedIsExact(c, t);
    if u in ts || YetToCome(c.state, Ready(c.tcb.prio(u)), u) {
      ReadiedAreYetToCome(c.state, c.tcb.prio, ts, u);
    } else if WakeOf(c, u) == WakeOf(c, t) {
      ReadyAllKeepsListed(c.state, c.tcb.prio, ts, u, t);
    }
  }

  /** Of two tasks of one priority that a tick readies, the one that is first on the delayed list takes its
    * turn first. */
  lemma TickReadiesInOrder(c: Core, u: Task, t: Task)
    requires Inv(c) && c.suspended == 0 && u != t && c.tcb.prio(u) == c.tcb.prio(t)
    requires WakeOf(c, u) == At(Now(c) + 1) && WakeOf(c, t) == At(Now(c) + 1) && Listed(c.state, u, t)
    ensures Before(Apply(c, Tick).state, Ready(c.tcb.prio(u)), u, t)
  {
    TickedInOrder(c, u, t);
  }

  // ---------------------------------------------------------------------------
  // Several ticks.
  // ---------------------------------------------------------------------------

  /** Both have been readied, u first; or t still sleeps and u has been readied or sleeps shorter. */
  ghost predicate InOrder(c: Core, b: Core, u: Task, t: Task) {
    if WakeOf(c, t).At? && WakeOf(c, t).time <= Now(b)
    then BothAt(b, c.tcb.prio(u), u, t) && Before(b.state, Ready(c.tcb.prio(u)), u, t)
    else Filed(b.state) && Sooner(b, u, t)
  }

  lemma OneTickMoreInOrder(c: Core, b: Core, u: Task, t: Task)
    requires Good(b, 1) && Waiting(b) && b.event.at(PendingReady).items == []
    requires b.tcb.prio == c.tcb.prio && u != t && c.tcb.prio(u) == c.tcb.prio(t)
    requires Fares(c, b, t, Now(b)) && InOrder(c, b, u, t)
    ensures InOrder(c, Ticked(b), u, t)
  {
    TickedOk(b);
    if WakeOf(c, t).At? && WakeOf(c, t).time <= Now(b) {
      TickKeepsTurns(b, c.tcb.prio(u), u, t);
    } else if WakeOf(b, t) == At(Now(b) + 1) {
      TickedInOrder(b, u, t);
      BothReadied(b, u, t);
    } else {
      TickedSooner(b, u, t);
    }
  }

  lemma BothReadied(b: Core, u: Task, t: Task)
    requires Good(b, 1) && Waiting(b) && Sooner(b, u, t) && WakeOf(b, t) == At(Now(b) + 1) && b.tcb.prio(u) == b.tcb.prio(t)
    ensures BothAt(Ticked(b), b.tcb.prio(u), u, t)
  {
    TickedIsExact(b, u);
    TickedIsExact(b, t);
  }

  lemma NobodyYet(c: Core, u: Task, t: Task)
    requires Good(c, 1) && Sooner(c, u, t)
    ensures InOrder(c, c, u, t)
  {
    assert WakeOf(c, t).time > Now(c);
  }

  lemma NextTickInOrder(c: Core, n: nat, u: Task, t: Task)
    requires Good(c, 1) && Waiting(c) && c.event.at(PendingReady).items == []
    requires u != t && c.tcb.prio(u) == c.tcb.prio(t) && InOrder(c, TicksNow(c, n), u, t)
    ensures InOrder(c, TicksNow(c, n + 1), u, t)
  {
    var b := AfterTicks(c, n);
    OneTickMoreInOrder(c, b, u, t);
  }

  lemma {:induction false} TicksInOrder(c: Core, n: nat, u: Task, t: Task)
    requires Good(c, 1) && Waiting(c) && c.event.at(PendingReady).items == []
    requires u != t && c.tcb.prio(u) == c.tcb.prio(t) && Sooner(c, u, t)
    ensures InOrder(c, TicksNow(c, n), u, t)
  {
    if n == 0 {
      NobodyYet(c, u, t);
    } else {
      TicksInOrder(c, n - 1, u, t);
      NextTickInOrder(c, n - 1, u, t);
    }
  }

  // ---------------------------------------------------------------------------
  // Resuming the scheduler.
  // ---------------------------------------------------------------------------

  predicate HeldBack(c: Core, t: Task) {
    c.event.home(t) == In(PendingReady)
  }

  /** Task u was held back and t was not, or later; or neither was, and u sleeps shorter. */
  ghost predicate ReadiedSooner(c: Core, u: Task, t: Task)
    requires Filed(c.state) && Filed(c.event)
  {
    if HeldBack(c, u) then HeldBack(c, t) ==> Listed(c.event, u, t) else !HeldBack(c, t) && SleepsShorter(c, u, t)
  }

  lemma HeldBackAreBlocked(c: Core)
    requires Good(c, 1) && Waiting(c)
    ensures var ts := c.event.at(PendingReady).items;
            Rings.NoDup(ts) && (forall i :: 0 <= i < |ts| ==> !OnReadyList(c.state.home(ts[i]))) && forall t :: t in ts <==> HeldBack(c, t)
  {
    var ts := c.event.at(PendingReady).items;
    assert forall i :: 0 <= i < |ts| ==> ts[i] in ts;
  }

  lemma FlushInOrder(c: Core, u: Task, t: Task)
    requires Good(c, 1) && Waiting(c) && u != t && c.tcb.prio(u) == c.tcb.prio(t) && ReadiedSooner(c, u, t) && HeldBack(c, t)
    ensures Before(Flush(c).state, Ready(c.tcb.prio(u)), u, t)
  {
    var ts := c.event.at(PendingReady).items;
    HeldBackAreBlocked(c);
    assert Precedes(c.state, c.tcb.prio, ts, u, t);
    ReadiedInOrder(c.state, c.tcb.prio, ts, u, t);
  }

  lemma FlushSooner(c: Core, u: Task, t: Task)
    requires Good(c, 1) && Waiting(c) && ReadiedSooner(c, u, t) && !HeldBack(c, t) && WakeOf(c, t).At?
    ensures Good(Flush(c), 1) && Sooner(Flush(c), u, t)
  {
    FlushOk(c);
    var ts := c.event.at(PendingReady).items;
    HeldBackAreBlocked(c);
    if HeldBack(c, u) {
      ReadiedAreYetToCome(c.state, c.tcb.prio, ts, u);
    } else if WakeOf(c, u) == WakeOf(c, t) {
      ReadyAllKeepsListed(c.state, c.tcb.prio, ts, u, t);
    }
  }

  lemma ResumeNowInOrder(c: Core, u: Task, t: Task)
    requires Good(c, 1) && Waiting(c) && u != t && c.tcb.prio(u) == c.tcb.prio(t)
    requires ReadiedByResume(c, u) && ReadiedByResume(c, t) && ReadiedSooner(c, u, t)
    ensures Before(ResumeNow(c).state, Ready(c.tcb.prio(u)), u, t)
  {
    FlushOk(c);
    var b := Flush(c);
    if HeldBack(c, t) {
      FlushInOrder(c, u, t);
      TicksKeepTurns(b, c.pended, c.tcb.prio(u), u, t);
    } else {
      FlushSooner(c, u, t);
      TicksInOrder(b, c.pended, u, t);
      TicksOk(b, c.pended);
    }
  }

  /** Of two tasks of one priority that the outermost resume readies, those held back take their turns first,
    * in the order in which they were held back; then the sleepers, by wake time, and with one wake time by
    * their place on the delayed list. */
  lemma ResumeReadiesInOrder(c: Core, u: Task, t: Task)
    requires Inv(c) && c.suspended == 1 && u != t && c.tcb.prio(u) == c.tcb.prio(t)
    requires ReadiedByResume(c, u) && ReadiedByResume(c, t) && ReadiedSooner(c, u, t)
    ensures Before(Apply(c, ResumeAll).state, Ready(c.tcb.prio(u)), u, t)
  {
    ResumeNowInOrder(c.(suspended := 0), u, t);
  }
}
