/** Timeouts in wrapped time (tasks.c): `xTaskCheckForTimeOut`, which is called again and
  * again while a task waits, and the arithmetic of `vTaskDelayUntil`, both against a clock
  * that never wraps. */
module TimeOuts {
  import opened Words

  const MAX_DELAY := 0xFFFF_FFFF

  // The tick count and the overflow count of true time t.

  function Tick(t: nat): int {
    t % WRAP
  }

  function Overflows(t: nat): int {
    t / WRAP % WRAP
  }

  datatype Wait = Wait(overflowCount: int, timeOnEntering: int, ticksToWait: int)

  predicate InRange(w: Wait) {
    0 <= w.timeOnEntering < WRAP && 0 <= w.ticksToWait < WRAP
  }

  /** `xTaskCheckForTimeOut` */
  function Check(w: Wait, tick: int, overflows: int): (Wait, bool)
    requires InRange(w) && 0 <= tick < WRAP
  {
    var elapsed := Minus(tick, w.timeOnEntering);
    if w.ticksToWait == MAX_DELAY then (w, false)
    else if overflows != w.overflowCount && tick >= w.timeOnEntering then (w, true)
    else if elapsed < w.ticksToWait then (Wait(overflows, tick, w.ticksToWait - elapsed), false)
    else (w.(ticksToWait := 0), true)
  }

  // ---------------------------------------------------------------------------
  // One call is exact.
  // ---------------------------------------------------------------------------

  /** The wait was (re)based at true time e and has n ticks to go. */
  predicate BasedAt(w: Wait, e: nat, n: int) {
    w == Wait(Overflows(e), Tick(e), n) && 0 <= n < MAX_DELAY
  }

  lemma TrueElapsed(e: nat, t: nat)
    requires e <= t
    ensures t - e < WRAP ==> Minus(Tick(t), Tick(e)) == t - e
    ensures t - e < WRAP && t / WRAP != e / WRAP ==> Tick(t) < Tick(e)
    ensures t - e < WRAP ==> t / WRAP == e / WRAP || t / WRAP == e / WRAP + 1
    ensures t - e >= WRAP && t / WRAP <= e / WRAP + 1 ==> t / WRAP == e / WRAP + 1 && Tick(t) >= Tick(e)
  {
    var a, b := e / WRAP, t / WRAP;
    assert e == a * WRAP + Tick(e) && t == b * WRAP + Tick(t);
    Epochs(a, b, Tick(e), Tick(t));
  }

  lemma Epochs(a: int, b: int, x: int, y: int)
    requires 0 <= x < WRAP && 0 <= y < WRAP && a * WRAP + x <= b * WRAP + y
    ensures a <= b
    ensures b >= a + 1 ==> (b - a) * WRAP >= WRAP
    ensures b >= a + 2 ==> (b - a) * WRAP >= 2 * WRAP
  {
  }

  lemma OverflowsDiffer(e: nat, t: nat)
    requires t / WRAP == e / WRAP + 1
    ensures Overflows(t) != Overflows(e)
  {
  }

  /** Less than 2^32 ticks later, or before the tick count has overflowed a second time. */
  predicate SoonAfter(e: nat, t: nat) {
    e <= t && (t - e < WRAP || t / WRAP <= e / WRAP + 1)
  }

  /** Called soon enough after the base, the answer is whether the true elapsed time has reached the wait. */
  lemma CheckIsExact(w: Wait, e: nat, n: int, t: nat)
    requires BasedAt(w, e, n) && SoonAfter(e, t)
    ensures Check(w, Tick(t), Overflows(t)).1 <==> t - e >= n
    ensures t - e < n ==> BasedAt(Check(w, Tick(t), Overflows(t)).0, t, n - (t - e))
  {
    TrueElapsed(e, t);
    if t / WRAP != e / WRAP { OverflowsDiffer(e, t); }
  }

  /** On a time-out the base stays, and nothing is left to wait; only if 2^32 ticks or more have passed,
    * seen by the overflow, the whole wait is left in place. */
  lemma TimedOutLeaves(w: Wait, e: nat, n: int, t: nat)
    requires BasedAt(w, e, n) && SoonAfter(e, t) && t - e >= n
    ensures Check(w, Tick(t), Overflows(t)).0 == Wait(Overflows(e), Tick(e), if t - e < WRAP then 0 else n)
  {
    TrueElapsed(e, t);
    if t / WRAP != e / WRAP { OverflowsDiffer(e, t); }
  }

  /** A wait without a limit never times out and is not changed. */
  lemma EndlessWait(w: Wait, tick: int, overflows: int)
    requires InRange(w) && w.ticksToWait == MAX_DELAY && 0 <= tick < WRAP
    ensures Check(w, tick, overflows) == (w, false)
  {
  }

  /** How often the tick count has overflowed in between. */
  function Wraps(e: nat, t: nat): int {
    t / WRAP - e / WRAP
  }

  /** The elapsed time is that many whole turns of the tick count, or one fewer, and a rest. */
  lemma Elapsed(e: nat, t: nat)
    requires e <= t
    ensures Minus(Tick(t), Tick(e)) == (t - e) % WRAP
    ensures Wraps(e, t) == (t - e) / WRAP || Wraps(e, t) == (t - e) / WRAP + 1
    ensures Tick(t) >= Tick(e) <==> Wraps(e, t) == (t - e) / WRAP
  {
    var q, r := (t - e) / WRAP, (t - e) % WRAP;
    var k := Wraps(e, t);
    assert k * WRAP + Tick(t) - Tick(e) == q * WRAP + r;
    if Tick(t) >= Tick(e) {
      SameQuotient(k, Tick(t) - Tick(e), q, r);
    } else {
      assert (k - 1) * WRAP == k * WRAP - WRAP;
      SameQuotient(k - 1, Tick(t) - Tick(e) + WRAP, q, r);
    }
  }

  lemma SameQuotient(a: int, x: int, b: int, y: int)
    requires 0 <= x < WRAP && 0 <= y < WRAP && a * WRAP + x == b * WRAP + y
    ensures a == b && x == y
  {
  }

  /** For any call, however late: the answer is wrong if and only if 2^32 ticks or more have
    * passed, the time beyond the last whole turn is less than the wait, and the overflows give
    * nothing away: the last turn is not complete in the count of overflows, or that count has
    * itself come round. */
  lemma CheckIsWrongIff(w: Wait, e: nat, n: int, t: nat)
    requires BasedAt(w, e, n) && e <= t
    ensures (Check(w, Tick(t), Overflows(t)).1 <==> t - e < n) <==>
            && t - e >= WRAP && (t - e) % WRAP < n
            && (Wraps(e, t) != (t - e) / WRAP || Wraps(e, t) % WRAP == 0)
  {
    Elapsed(e, t);
    OverflowsAgreeIff(e, t);
    if t - e < WRAP {
      CheckIsExact(w, e, n, t);
    }
  }

  lemma OverflowsAgreeIff(e: nat, t: nat)
    requires e <= t
    ensures Overflows(t) == Overflows(e) <==> Wraps(e, t) % WRAP == 0
  {
    var a, b := e / WRAP, t / WRAP;
    var k := a / WRAP;
    var l := b / WRAP;
    assert b - a == (l - k) * WRAP + (b % WRAP - a % WRAP);
    var d := b % WRAP - a % WRAP;
    if d >= 0 {
      SameQuotient((b - a) / WRAP, (b - a) % WRAP, l - k, d);
    } else {
      assert (l - k - 1) * WRAP == (l - k) * WRAP - WRAP;
      SameQuotient((b - a) / WRAP, (b - a) % WRAP, l - k - 1, d + WRAP);
    }
  }

  /** A wait of 10 ticks that is first checked when the tick count has overflowed twice, 2^32 + 7
    * ticks after the base, is not over yet by the code's reckoning. */
  lemma ALateCheckIsWrong()
    ensures var e, t := WRAP - 5, 2 * WRAP + 2; var w := Wait(Overflows(e), Tick(e), 10);
            BasedAt(w, e, 10) && t - e >= 10 && !Check(w, Tick(t), Overflows(t)).1
  {
  }

  class TimeOut {
    var overflowCount: int
    var timeOnEntering: int
    var ticksToWait: int

    function State(): Wait
      reads this
    {
      Wait(overflowCount, timeOnEntering, ticksToWait)
    }

    /** `vTaskInternalSetTimeOutState` */
    method Set(tick: int, overflows: int)
      modifies `overflowCount, `timeOnEntering
      ensures State() == Wait(overflows, tick, ticksToWait)
    {
      overflowCount, timeOnEntering := overflows, tick;
    }

    /** `xTaskCheckForTimeOut`.  Whenever the wait was based at true time e and it is now true time
      * t, soon enough after e, the answer is whether the wait has truly elapsed; if it has not,
      * the wait is based at t and has the rest to go, and if it has, nothing is left to wait unless
      * 2^32 ticks have passed.  An endless wait never times out. */
    method CheckForTimeOut(tick: int, overflows: int, ghost e: nat, ghost t: nat) returns (timedOut: bool)
      requires InRange(State()) && 0 <= tick < WRAP
      modifies this
      ensures (State(), timedOut) == Check(old(State()), tick, overflows)
      ensures BasedAt(old(State()), e, old(ticksToWait)) && SoonAfter(e, t) && tick == Tick(t) && overflows == Overflows(t) ==>
                && (timedOut <==> t - e >= old(ticksToWait))
                && (!timedOut ==> BasedAt(State(), t, old(ticksToWait) - (t - e)))
                && (timedOut ==> State() == old(State()).(ticksToWait := if t - e < WRAP then 0 else old(ticksToWait)))
      ensures old(ticksToWait) == MAX_DELAY ==> !timedOut && State() == old(State())
    {
      ghost var w := State();
      if BasedAt(w, e, w.ticksToWait) && SoonAfter(e, t) {
        CheckIsExact(w, e, w.ticksToWait, t);
        if t - e >= w.ticksToWait { TimedOutLeaves(w, e, w.ticksToWait, t); }
      }
      var elapsedTime := Minus(tick, timeOnEntering);
      if ticksToWait == MAX_DELAY {
        timedOut := false;
      } else if overflows != overflowCount && tick >= timeOnEntering {
        timedOut := true;
      } else if elapsedTime < ticksToWait {
        ticksToWait := ticksToWait - elapsedTime;
        Set(tick, overflows);
        timedOut := false;
      } else {
        ticksToWait := 0;
        timedOut := true;
      }
    }
  }

  // ---------------------------------------------------------------------------
  // A wait that is checked again and again.
  // ---------------------------------------------------------------------------

  /** The index of the first call that answers true, or the number of calls. */
  function Polls(w: Wait, times: seq<nat>): nat
    requires InRange(w)
    decreases |times|
  {
    if times == [] then 0
    else
      var (v, timedOut) := Check(w, Tick(times[0]), Overflows(times[0]));
      if timedOut then 0 else 1 + Polls(v, times[1..])
  }

  /** Times do not go back, and each call comes soon enough after the one before. */
  predicate Timely(e: nat, times: seq<nat>)
    decreases |times|
  {
    times == [] ||
    (SoonAfter(e, times[0]) && Timely(times[0], times[1..]))
  }

  /** Across any sequence of calls, each of which moves the base, the first true answer to a
    * finite wait comes at the first call at which the whole wait has truly elapsed. */
  lemma {:induction false} RebasingIsExact(w: Wait, e: nat, n: int, times: seq<nat>, i: nat)
    requires BasedAt(w, e, n) && Timely(e, times) && i < |times|
    ensures i < Polls(w, times) ==> times[i] - e < n
    ensures i == Polls(w, times) ==> times[i] - e >= n
    decreases |times|
  {
    var t := times[0];
    CheckIsExact(w, e, n, t);
    if t - e < n {
      if i > 0 {
        RebasingIsExact(Check(w, Tick(t), Overflows(t)).0, t, n - (t - e), times[1..], i - 1);
      }
    }
  }

  // ---------------------------------------------------------------------------
  // vTaskDelayUntil
  // ---------------------------------------------------------------------------

  datatype Plan = Plan(wake: int, shouldDelay: bool, ticks: int)

  /** The new previous-wake time, whether to delay, and for how many ticks. */
  function DelayUntil(previousWake: int, increment: int, tick: int): Plan
    requires 0 <= previousWake < WRAP && 0 < increment < WRAP && 0 <= tick < WRAP
  {
    var timeToWake := Plus(previousWake, increment);
    Plan(timeToWake,
         if tick < previousWake then timeToWake < previousWake && timeToWake > tick
         else timeToWake < previousWake || timeToWake > tick,
         Minus(timeToWake, tick))
  }

  /** (p + increment) in ticks, without division. */
  lemma TickAfter(p: nat, k: nat)
    requires k < WRAP
    ensures Tick(p + k) == Plus(Tick(p), k)
  {
  }

  /** Called within 2^32 ticks of the previous wake time p, the task delays exactly when the
    * next wake time is still to come, and until that time. */
  lemma DelayUntilIsExact(p: nat, increment: nat, t: nat)
    requires 0 < increment < WRAP && p <= t < p + WRAP
    ensures var d := DelayUntil(Tick(p), increment, Tick(t));
            d.wake == Tick(p + increment) && (d.shouldDelay <==> p + increment > t) &&
            (d.shouldDelay ==> t + d.ticks == p + increment)
  {
    TickAfter(p, increment);
    TickAfter(p, t - p);
  }

  class Period {
    var previousWakeTime: int

    /** `vTaskDelayUntil`, up to handing the block time to the delayed list.  Whenever the
      * previous wake time was true time p and it is now true time t, less than 2^32 ticks
      * later, the task delays iff its next wake time is still to come, and until then. */
    method NextDelay(increment: int, tick: int, ghost p: nat, ghost t: nat) returns (shouldDelay: bool, ticks: int)
      requires 0 <= previousWakeTime < WRAP && 0 < increment < WRAP && 0 <= tick < WRAP
      modifies this
      ensures Plan(previousWakeTime, shouldDelay, ticks) == DelayUntil(old(previousWakeTime), increment, tick)
      ensures old(previousWakeTime) == Tick(p) ==> previousWakeTime == Tick(p + increment)
      ensures old(previousWakeTime) == Tick(p) && tick == Tick(t) && p <= t < p + WRAP ==>
                && (shouldDelay <==> p + increment > t)
                && (shouldDelay ==> t + ticks == p + increment)
    {
      if previousWakeTime == Tick(p) {
        TickAfter(p, increment);
        if tick == Tick(t) && p <= t < p + WRAP {
          DelayUntilIsExact(p, increment, t);
        }
      }
      var timeToWake := Plus(previousWakeTime, increment);
      shouldDelay := false;
      if tick < previousWakeTime {
        if timeToWake < previousWakeTime && timeToWake > tick {
          shouldDelay := true;
        }
      } else {
        if timeToWake < previousWakeTime || timeToWake > tick {
          shouldDelay := true;
        }
      }
      previousWakeTime := timeToWake;
      ticks := Minus(timeToWake, tick);
    }
  }

  /** Called later it works with the elapsed time modulo 2^32, which is right if and only if
    * that alone says that the wake time has passed. */
  lemma DelayUntilIsRightIff(p: nat, increment: nat, t: nat)
    requires 0 < increment < WRAP && p <= t
    ensures (DelayUntil(Tick(p), increment, Tick(t)).shouldDelay <==> p + increment > t) <==>
            t - p < WRAP || (t - p) % WRAP >= increment
  {
    var k := (t - p) % WRAP;
    SameTick(p, t, k);
    DelayUntilIsExact(p, increment, p + k);
  }

  /** A period of 10 ticks, called 2^32 + 3 ticks late, delays although its wake time has passed. */
  lemma ALateCallDelays()
    ensures DelayUntil(Tick(0), 10, Tick(WRAP + 3)).shouldDelay && 0 + 10 <= WRAP + 3
  {
    DelayUntilIsRightIff(0, 10, WRAP + 3);
  }

  lemma SameTick(p: nat, t: nat, k: nat)
    requires p <= t && k == (t - p) % WRAP
    ensures Tick(t) == Tick(p + k) && k < WRAP && (t - p < WRAP ==> t == p + k) && (t - p >= WRAP ==> t >= p + WRAP)
  {
    assert t == p + k + (t - p) / WRAP * WRAP;
    AddWraps(p + k, (t - p) / WRAP);
  }

  lemma {:induction false} AddWraps(x: nat, q: nat)
    ensures Tick(x + q * WRAP) == Tick(x)
    decreases q
  {
    if q > 0 {
      AddWraps(x, q - 1);
      assert x + q * WRAP == x + (q - 1) * WRAP + WRAP;
    }
  }

  /** The previous-wake times of calls at the given ticks, whatever these are. */
  function WakeAfter(previousWake: int, increment: int, ticks: seq<int>): int
    requires 0 <= previousWake < WRAP && 0 < increment < WRAP && forall i :: 0 <= i < |ticks| ==> 0 <= ticks[i] < WRAP
    decreases |ticks|
  {
    if ticks == [] then previousWake
    else WakeAfter(DelayUntil(previousWake, increment, ticks[0]).wake, increment, ticks[1..])
  }

  /** However late the calls are made, after k of them the wake time is k periods on: the
    * period never drifts. */
  lemma {:induction false} NeverDrifts(p: nat, increment: nat, ticks: seq<int>)
    requires 0 < increment < WRAP && forall i :: 0 <= i < |ticks| ==> 0 <= ticks[i] < WRAP
    ensures WakeAfter(Tick(p), increment, ticks) == Tick(p + |ticks| * increment)
    decreases |ticks|
  {
    if ticks != [] {
      TickAfter(p, increment);
      NeverDrifts(p + increment, increment, ticks[1..]);
      assert p + increment + (|ticks| - 1) * increment == p + |ticks| * increment;
    }
  }
}
