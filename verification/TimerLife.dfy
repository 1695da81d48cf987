/** One auto-reload timer over any number of wraps of the tick count: through the lists, the
  * catch-up loop and the start commands that the timer task sends to itself. */
module TimerLife {
  import opened Words
  import opened Timers

  /** Where the timer is: on one of the two lists with its wrapped expiry time, or in a start
    * command with the wrapped time of that command. */
  datatype Where = InCurrent(value: int) | InOverflow(value: int) | Commanded(time: int)

  datatype Life = Life(place: Where, last: int, calls: seq<int>)   // last: xLastTime; calls: the expiry each is for

  /** What the timer task does, with the true time at which it reads the tick count. */
  datatype Step =
    | Sample(now: nat)
    | Expire
    | Handle(now: nat)

  predicate Enabled(l: Life, step: Step) {
    match step
    case Sample(_) => true
    case Expire => l.place.InCurrent? && l.place.value <= l.last
    case Handle(_) => l.place.Commanded?
  }

  function AsTimer(value: int, period: int): Timer {
    Timer(0, value, period, true)
  }

  /** The callbacks of the catch-up loop. */
  function CatchUp(value: int, period: int): (s: seq<int>)
    requires Armed(AsTimer(value, period))
    ensures |s| == Callbacks(AsTimer(value, period)) && forall i :: 0 <= i < |s| ==> s[i] == value + i * period
  {
    DivisionIsPositive(WRAP - 1 - value, period);
    seq(Callbacks(AsTimer(value, period)), i => value + i * period)
  }

  lemma DivisionIsPositive(n: nat, p: int)
    requires 0 < p
    ensures n / p >= 0 && n / p * p <= n < n / p * p + p
  {
  }

  lemma DueIsAnExpiry(t: Timer, x: int) returns (k: nat)
    requires Armed(t) && t.autoReload && Due(t, Event(t.id, x)) == 1
    ensures x == t.value + k * t.period
  {
    DivisionIsPositive(x - t.value, t.period);
    k := (x - t.value) / t.period;
    assert x - t.value == k * t.period + (x - t.value) % t.period;
  }

  lemma DueIsCatchUp(t: Timer, x: int)
    requires Armed(t) && t.autoReload
    ensures Due(t, Event(t.id, x)) == (if x in CatchUp(t.value, t.period) then 1 else 0)
  {
    var calls := CatchUp(t.value, t.period);
    if x in calls {
      var k :| 0 <= k < |calls| && x == calls[k];
      CallbacksAreTheExpiries(t, k);
    }
    if Due(t, Event(t.id, x)) == 1 {
      var k := DueIsAnExpiry(t, x);
      CallbacksAreTheExpiries(t, k);
      assert calls[k] == x;
    }
  }

  ghost predicate Distinct(ts: seq<Timer>) {
    forall i, j :: 0 <= i < j < |ts| ==> ts[i].id != ts[j].id
  }

  lemma {:induction false} NothingDue(ts: seq<Timer>, e: Event, r: Restart)
    requires AllArmed(ts) && forall i :: 0 <= i < |ts| ==> ts[i].id != e.id && ts[i].id != r.id
    ensures AllDue(ts, e) == 0 && AllRestartsDue(ts, r) == 0
  {
    if ts != [] { NothingDue(ts[1..], e, r); }
  }

  lemma {:induction false} OnlyItsOwn(ts: seq<Timer>, i: nat, e: Event, r: Restart)
    requires AllArmed(ts) && Distinct(ts) && i < |ts| && e.id == r.id == ts[i].id
    ensures AllDue(ts, e) == Due(ts[i], e) && AllRestartsDue(ts, r) == RestartDue(ts[i], r)
  {
    if i == 0 {
      NothingDue(ts[1..], e, r);
    } else {
      OnlyItsOwn(ts[1..], i - 1, e, r);
    }
  }

  /** What `Service.SwitchTimerLists` does to one auto-reload timer among others on the old list: the
    * calls of its catch-up, each once, and one start command from the last of them. */
  lemma CatchUpAmongOthers(ts: seq<Timer>, i: nat, x: int)
    requires AllArmed(ts) && Distinct(ts) && i < |ts| && ts[i].autoReload
    ensures AllDue(ts, Event(ts[i].id, x)) == if x in CatchUp(ts[i].value, ts[i].period) then 1 else 0
    ensures AllRestartsDue(ts, Restart(ts[i].id, x)) == if x == LastExpiry(ts[i]) then 1 else 0
  {
    OnlyItsOwn(ts, i, Event(ts[i].id, x), Restart(ts[i].id, x));
    DueIsCatchUp(ts[i], x);
  }

  /** `prvInsertTimerInActiveList` for a command of time c: on a list, or called back by the caller. */
  function Placed(l: Life, command: int, period: int): Where
    requires 0 <= l.last < WRAP && 0 <= command < WRAP && 0 < period < WRAP
  {
    match Placement(Plus(command, period), l.last, command, period)
    case ProcessNow => Commanded(command)
    case CurrentList => InCurrent(Plus(command, period))
    case OverflowList => InOverflow(Plus(command, period))
  }

  predicate InRange(l: Life) {
    0 <= l.last < WRAP && match l.place case InCurrent(v) => 0 <= v < WRAP case InOverflow(v) => 0 <= v < WRAP case Commanded(c) => 0 <= c < WRAP
  }

  /** `prvSwitchTimerLists` */
  function Switched(l: Life, period: int): Life
    requires InRange(l) && 0 < period < WRAP
  {
    match l.place
    case InCurrent(v) => l.(place := Commanded(LastExpiry(AsTimer(v, period))), calls := l.calls + CatchUp(v, period))
    case InOverflow(v) => l.(place := InCurrent(v))
    case Commanded(_) => l
  }

  function Apply(l: Life, step: Step, period: int): Life
    requires Enabled(l, step) && InRange(l) && 0 < period < WRAP
  {
    match step
    case Sample(now) =>
      var tick := now % WRAP;
      if tick < l.last then Switched(l, period).(last := tick) else l.(last := tick)
    case Expire => l.(place := Placed(l, l.place.value, period), calls := l.calls + [l.place.value])
    case Handle(now) =>
      var d, c := l.(last := now % WRAP), l.place.time;
      var place := Placed(d, c, period);
      if place.Commanded? then d.(place := Commanded(Plus(c, period)), calls := l.calls + [Plus(c, period)]) else d.(place := place)
  }

  /** The k-th expiry of a timer started at true time s: s + p, s + 2p, and so on. */
  function Expiry(s: nat, period: nat, k: nat): (e: nat)
    ensures e >= period
  {
    s + period + k * period
  }

  lemma NextExpiry(s: nat, period: nat, k: nat)
    ensures Expiry(s, period, k + 1) == Expiry(s, period, k) + period
  {
  }

  lemma LaterExpiry(s: nat, period: nat, k: nat, i: nat)
    ensures Expiry(s, period, k + i) == Expiry(s, period, k) + i * period
  {
  }

  lemma ExpiriesGrow(s: nat, period: nat, k: nat, n: nat)
    requires k <= n
    ensures Expiry(s, period, k) <= Expiry(s, period, n)
  {
    LaterExpiry(s, period, k, n - k);
  }

  /** The state at true time last: the calls so far are for the first expiries, in order, none was
    * early, and the timer stands for the next one. */
  ghost predicate Stands(l: Life, s: nat, period: nat, last: nat) {
    && l.last == last % WRAP
    && (forall k :: 0 <= k < |l.calls| ==> l.calls[k] == Expiry(s, period, k) % WRAP)
    && (l.calls != [] ==> Expiry(s, period, |l.calls| - 1) <= last)
    && var next := Expiry(s, period, |l.calls|);
       match l.place
       case InCurrent(v) => v == next % WRAP && next / WRAP == last / WRAP
       case InOverflow(v) => v == next % WRAP && next / WRAP == last / WRAP + 1
       case Commanded(c) => c == (next - period) % WRAP
  }

  /** The timer task is not late: it reads the time at least once in 2^32 ticks while the timer is on
    * a list, and handles a command less than 2^32 ticks after its time. */
  predicate Timely(l: Life, s: nat, period: nat, last: nat, step: Step) {
    match step
    case Sample(now) => last <= now && (!l.place.Commanded? ==> now < last + WRAP)
    case Expire => true
    case Handle(now) => last <= now && var c := Expiry(s, period, |l.calls|) - period; c <= now < c + WRAP
  }

  function TimeAfter(last: nat, step: Step): nat {
    if step.Expire? then last else step.now
  }

  ghost predicate Run(l: Life, s: nat, period: nat, last: nat, steps: seq<Step>, end: Life, time: nat)
    requires 0 < period < WRAP
    decreases |steps|
  {
    if steps == [] then l == end && last == time
    else InRange(l) && Enabled(l, steps[0]) && Timely(l, s, period, last, steps[0]) &&
         Run(Apply(l, steps[0], period), s, period, TimeAfter(last, steps[0]), steps[1..], end, time)
  }

  // ---------------------------------------------------------------------------
  // Every timely step keeps the timer where it belongs.
  // ---------------------------------------------------------------------------

  lemma WrapOf(t: nat, u: nat)
    requires t <= u < t + WRAP
    ensures u / WRAP == t / WRAP + if u % WRAP < t % WRAP then 1 else 0
  {
    Split(t, u - t);
  }

  /** A command of true time c, handled in time, puts the timer where its expiry belongs, or finds
    * that it has passed. */
  lemma PlacedRight(l: Life, c: nat, now: nat, period: nat)
    requires 0 < period < WRAP && c <= now < c + WRAP && l.last == now % WRAP
    ensures match Placed(l, c % WRAP, period)
            case Commanded(time) => time == c % WRAP && c + period <= now
            case InCurrent(v) => v == (c + period) % WRAP && (c + period) / WRAP == now / WRAP && now < c + period
            case InOverflow(v) => v == (c + period) % WRAP && (c + period) / WRAP == now / WRAP + 1
  {
    PlacementIsExact(c, now - c, period);
    Split(c, period);
    Split(c, now - c);
  }

  /** The state after one more call, and before it, stands if its place is right. */
  lemma StandsAt(l: Life, s: nat, period: nat, now: nat, e: nat)
    requires l.last == now % WRAP && forall k :: 0 <= k < |l.calls| ==> l.calls[k] == Expiry(s, period, k) % WRAP
    requires l.calls != [] ==> Expiry(s, period, |l.calls| - 1) <= now
    requires e == Expiry(s, period, |l.calls|)
    requires match l.place
             case InCurrent(v) => v == e % WRAP && e / WRAP == now / WRAP
             case InOverflow(v) => v == e % WRAP && e / WRAP == now / WRAP + 1
             case Commanded(c) => c == (e - period) % WRAP
    ensures InRange(l) && Stands(l, s, period, now)
  {
  }

  /** A command of true time c is handled: either its expiry has passed and is called, or the timer
    * goes to the list of its expiry. */
  lemma HandlePlaces(l: Life, c: nat, now: nat, period: nat)
    requires 0 < period < WRAP && InRange(l) && l.place == Commanded(c % WRAP) && c <= now < c + WRAP
    ensures var d, e := Apply(l, Handle(now), period), c + period;
            && d.last == now % WRAP
            && match d.place
               case Commanded(time) => e <= now && time == e % WRAP && d.calls == l.calls + [e % WRAP]
               case InCurrent(v) => d.calls == l.calls && v == e % WRAP && e / WRAP == now / WRAP
               case InOverflow(v) => d.calls == l.calls && v == e % WRAP && e / WRAP == now / WRAP + 1
  {
    PlacedRight(l.(last := now % WRAP), c, now, period);
    Split(c, period);
  }

  lemma HandleStands(l: Life, s: nat, period: nat, last: nat, now: nat)
    requires 0 < period < WRAP && Stands(l, s, period, last) && InRange(l)
    requires Enabled(l, Handle(now)) && Timely(l, s, period, last, Handle(now))
    ensures var d := Apply(l, Handle(now), period); InRange(d) && Stands(d, s, period, now)
  {
    var d, e := Apply(l, Handle(now), period), Expiry(s, period, |l.calls|);
    HandlePlaces(l, e - period, now, period);
    if d.place.Commanded? {
      NextExpiry(s, period, |l.calls|);
      StandsAt(d, s, period, now, e + period);
    } else {
      StandsAt(d, s, period, now, e);
    }
  }

  lemma ExpireStands(l: Life, s: nat, period: nat, last: nat)
    requires 0 < period < WRAP && Stands(l, s, period, last) && InRange(l) && Enabled(l, Expire)
    ensures var d := Apply(l, Expire, period); InRange(d) && Stands(d, s, period, last)
  {
    var e := Expiry(s, period, |l.calls|);
    PlacedRight(l, e, last, period);
    NextExpiry(s, period, |l.calls|);
  }

  /** The i-th call of a catch-up from true time e is for e + i * p, before the wrap. */
  lemma CatchUpIsOnTime(e: nat, period: nat, i: nat)
    requires 0 < period < WRAP && i < Callbacks(AsTimer(e % WRAP, period))
    ensures var x := e + i * period; CatchUp(e % WRAP, period)[i] == x % WRAP && x / WRAP == e / WRAP
  {
    var v := e % WRAP;
    DivisionIsPositive(WRAP - 1 - v, period);
    MultiplesGrow(i, (WRAP - 1 - v) / period, period);
    MultiplesGrow(0, i, period);
    Split(e, i * period);
  }

  lemma SwitchCalls(l: Life, s: nat, period: nat, last: nat)
    requires 0 < period < WRAP && Stands(l, s, period, last) && InRange(l) && l.place.InCurrent?
    ensures var d := Switched(l, period); forall k :: 0 <= k < |d.calls| ==> d.calls[k] == Expiry(s, period, k) % WRAP
  {
    var n, d := |l.calls|, Switched(l, period);
    forall k | 0 <= k < |d.calls|
      ensures d.calls[k] == Expiry(s, period, k) % WRAP
    {
      if k >= n {
        CatchUpIsOnTime(Expiry(s, period, n), period, k - n);
        LaterExpiry(s, period, n, k - n);
      }
    }
  }

  /** The switch leaves a command from the last call of the catch-up, at a true time x before the wrap. */
  lemma SwitchPlaces(l: Life, period: nat, e: nat) returns (i: nat, x: nat)
    requires 0 < period < WRAP && InRange(l) && l.place == InCurrent(e % WRAP)
    ensures x == e + i * period && x / WRAP == e / WRAP
    ensures var d := Switched(l, period); d.place == Commanded(x % WRAP) && |d.calls| == |l.calls| + i + 1 && d.last == l.last
  {
    var v := e % WRAP;
    DivisionIsPositive(WRAP - 1 - v, period);
    i := (WRAP - 1 - v) / period;
    x := e + i * period;
    CatchUpIsOnTime(e, period, i);
  }

  lemma SwitchStands(l: Life, s: nat, period: nat, last: nat, now: nat)
    requires 0 < period < WRAP && Stands(l, s, period, last) && InRange(l) && l.place.InCurrent?
    requires last <= now && now / WRAP == last / WRAP + 1
    ensures var d := Switched(l, period).(last := now % WRAP); InRange(d) && Stands(d, s, period, now)
  {
    var n := |l.calls|;
    SwitchCalls(l, s, period, last);
    var i, x := SwitchPlaces(l, period, Expiry(s, period, n));
    LaterExpiry(s, period, n, i);
    NextExpiry(s, period, n + i);
    StandsAt(Switched(l, period).(last := now % WRAP), s, period, now, x + period);
  }

  lemma SampleStands(l: Life, s: nat, period: nat, last: nat, now: nat)
    requires 0 < period < WRAP && Stands(l, s, period, last) && InRange(l) && Timely(l, s, period, last, Sample(now))
    ensures var d := Apply(l, Sample(now), period); InRange(d) && Stands(d, s, period, now)
  {
    if !l.place.Commanded? {
      WrapOf(last, now);
      if now % WRAP < l.last && l.place.InCurrent? { SwitchStands(l, s, period, last, now); }
    }
  }

  lemma StepStands(l: Life, s: nat, period: nat, last: nat, step: Step)
    requires 0 < period < WRAP && Stands(l, s, period, last) && InRange(l)
    requires Enabled(l, step) && Timely(l, s, period, last, step)
    ensures var d := Apply(l, step, period); InRange(d) && Stands(d, s, period, TimeAfter(last, step))
  {
    match step
    case Sample(now) => SampleStands(l, s, period, last, now);
    case Expire => ExpireStands(l, s, period, last);
    case Handle(now) => HandleStands(l, s, period, last, now);
  }

  lemma {:induction false} RunStands(l: Life, s: nat, period: nat, last: nat, steps: seq<Step>, end: Life, time: nat)
    requires 0 < period < WRAP && Stands(l, s, period, last) && InRange(l) && Run(l, s, period, last, steps, end, time)
    ensures InRange(end) && Stands(end, s, period, time)
    decreases |steps|
  {
    if steps != [] {
      StepStands(l, s, period, last, steps[0]);
      RunStands(Apply(l, steps[0], period), s, period, TimeAfter(last, steps[0]), steps[1..], end, time);
    }
  }

  /** A start command of true time s is in the queue; the time was last read at true time last. */
  function Started(s: nat, last: nat): Life {
    Life(Commanded(s % WRAP), last % WRAP, [])
  }

  /** Nothing is left for the timer task to do. */
  predicate AtRest(l: Life) {
    !l.place.Commanded? && !Enabled(l, Expire)
  }

  /** Over any number of wraps the callbacks are for the expiries s + p, s + 2p, s + 3p, and so on,
    * each once and in this order; none is made before its time; and whenever the timer task has
    * nothing left to do, every expiry up to the time it last read has had its callback. */
  lemma EveryExpiryIsCalledOnce(s: nat, period: nat, last: nat, steps: seq<Step>, end: Life, time: nat)
    requires 0 < period < WRAP && Run(Started(s, last), s, period, last, steps, end, time)
    ensures forall k :: 0 <= k < |end.calls| ==> end.calls[k] == Expiry(s, period, k) % WRAP && Expiry(s, period, k) <= time
    ensures AtRest(end) ==> forall k: nat :: Expiry(s, period, k) <= time ==> k < |end.calls|
  {
    assert Expiry(s, period, 0) - period == s;
    RunStands(Started(s, last), s, period, last, steps, end, time);
    forall k | 0 <= k < |end.calls|
      ensures Expiry(s, period, k) <= time
    {
      ExpiriesGrow(s, period, k, |end.calls| - 1);
    }
    if AtRest(end) {
      forall k: nat | Expiry(s, period, k) <= time
        ensures k < |end.calls|
      {
        if k >= |end.calls| { ExpiriesGrow(s, period, |end.calls|, k); }
      }
    }
  }
}
