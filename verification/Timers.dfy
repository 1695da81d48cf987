/** Software timers (timers.c): the list a timer goes to when the tick count may have
  * wrapped since its command, and the catch-up loop that runs when it has. */
module Timers {
  import Rings
  import opened Words

  // ---------------------------------------------------------------------------
  // Placement.
  // ---------------------------------------------------------------------------

  datatype Place = ProcessNow | CurrentList | OverflowList

  /** The decision of `prvInsertTimerInActiveList`. */
  function Placement(nextExpiry: int, now: int, command: int, period: int): Place
    requires 0 <= now < WRAP && 0 <= command < WRAP
  {
    if nextExpiry <= now then
      if Minus(now, command) >= period then ProcessNow else OverflowList
    else if now < command && nextExpiry >= command then ProcessNow
    else CurrentList
  }

  lemma Epochs(a: int, b: int, x: int, y: int, d: int)
    requires 0 <= x < WRAP && 0 <= y < WRAP && 0 <= d < WRAP && a * WRAP + x + d == b * WRAP + y
    ensures if x + d < WRAP then b == a && y == x + d else b == a + 1 && y == x + d - WRAP
  {
  }

  lemma Split(t: nat, d: nat)
    requires d < WRAP
    ensures if t % WRAP + d < WRAP then (t + d) / WRAP == t / WRAP && (t + d) % WRAP == t % WRAP + d
            else (t + d) / WRAP == t / WRAP + 1 && (t + d) % WRAP == t % WRAP + d - WRAP
  {
    Epochs(t / WRAP, (t + d) / WRAP, t % WRAP, (t + d) % WRAP, d);
  }

  /** A command of true time c handled less than 2^32 ticks later: the timer is processed now
    * exactly when its period has truly elapsed; otherwise it goes to the current list exactly
    * when it expires in the epoch of the present tick count. */
  lemma PlacementIsExact(c: nat, elapsed: nat, period: nat)
    requires elapsed < WRAP && 0 < period < WRAP
    ensures var now, expiry := c + elapsed, c + period;
            var place := Placement(expiry % WRAP, now % WRAP, c % WRAP, period);
            (place == ProcessNow <==> elapsed >= period) &&
            (place == CurrentList <==> elapsed < period && expiry / WRAP == now / WRAP)
  {
    Split(c, elapsed);
    Split(c, period);
  }

  // ---------------------------------------------------------------------------
  // Timers and what they do before the next wrap.
  // ---------------------------------------------------------------------------

  datatype Timer = Timer(id: nat, value: int, period: int, autoReload: bool)

  datatype Event = Event(id: nat, time: int)      // a callback at an expiry time

  datatype Restart = Restart(id: nat, time: int)  // a start command sent to the queue

  predicate Armed(t: Timer) {
    0 <= t.value < WRAP && 0 < t.period < WRAP
  }

  /** How often it is called back for an expiry before the wrap. */
  function Due(t: Timer, e: Event): nat
    requires Armed(t)
  {
    if e.id == t.id && t.value <= e.time < WRAP && (if t.autoReload then (e.time - t.value) % t.period == 0 else e.time == t.value)
    then 1 else 0
  }

  /** How many callbacks that makes. */
  function Callbacks(t: Timer): nat
    requires Armed(t)
  {
    if t.autoReload then (WRAP - 1 - t.value) / t.period + 1 else 1
  }

  /** The last expiry before the wrap, from which an auto-reload timer is restarted. */
  function LastExpiry(t: Timer): int
    requires Armed(t)
  {
    t.value + (WRAP - 1 - t.value) / t.period * t.period
  }

  function RestartDue(t: Timer, r: Restart): nat
    requires Armed(t)
  {
    if t.autoReload && r == Restart(t.id, LastExpiry(t)) then 1 else 0
  }

  lemma AtLeast(k: int, p: int)
    requires k >= 1 && p > 0
    ensures k * p >= p
  {
    if k > 1 {
      AtLeast(k - 1, p);
      assert k * p == (k - 1) * p + p;
    }
  }

  lemma SmallMultiple(k: int, p: int)
    requires p > 0
    ensures -p < k * p < p ==> k == 0
  {
    if k >= 1 {
      AtLeast(k, p);
    } else if k <= -1 {
      AtLeast(-k, p);
      assert (-k) * p == -(k * p);
    }
  }

  lemma DivisionIs(n: int, p: int, q: int, r: int)
    requires 0 < p && 0 <= r < p && n == q * p + r
    ensures n / p == q && n % p == r
  {
    var a, s := n / p, n % p;
    assert n == a * p + s;
    assert (a - q) * p == a * p - q * p;
    SmallMultiple(a - q, p);
  }

  lemma OnePeriodLess(n: int, p: int)
    requires 0 < p
    ensures n / p == (n - p) / p + 1 && n % p == (n - p) % p
  {
    var q, r := (n - p) / p, (n - p) % p;
    assert (q + 1) * p == q * p + p;
    DivisionIs(n, p, q + 1, r);
  }

  lemma BelowOnePeriod(n: int, p: int)
    requires 0 <= n < p
    ensures n / p == 0 && n % p == n
  {
    DivisionIs(n, p, 0, n);
  }

  function Reloaded(t: Timer): Timer {
    t.(value := t.value + t.period)
  }

  /** A timer that stays below the wrap does what is left to do after its first callback. */
  lemma ReloadLeavesTheRest(t: Timer, e: Event, r: Restart)
    requires Armed(t) && t.autoReload && t.value + t.period < WRAP
    ensures Due(t, e) == Due(Reloaded(t), e) + if e == Event(t.id, t.value) then 1 else 0
    ensures Callbacks(t) == Callbacks(Reloaded(t)) + 1
    ensures RestartDue(t, r) == RestartDue(Reloaded(t), r)
  {
    var d, n, p := e.time - t.value, WRAP - 1 - t.value, t.period;
    OnePeriodLess(n, p);
    assert ((n - p) / p + 1) * p == (n - p) / p * p + p;
    if 0 <= d < p {
      BelowOnePeriod(d, p);
    } else {
      OnePeriodLess(d, p);
    }
  }

  /** The others are done with it. */
  lemma LastCallback(t: Timer, e: Event, r: Restart)
    requires Armed(t) && (!t.autoReload || t.value + t.period >= WRAP)
    ensures Due(t, e) == (if e == Event(t.id, t.value) then 1 else 0) && Callbacks(t) == 1
    ensures RestartDue(t, r) == if t.autoReload && r == Restart(t.id, t.value) then 1 else 0
  {
    var d := e.time - t.value;
    if t.autoReload {
      BelowOnePeriod(WRAP - 1 - t.value, t.period);
      if 0 <= d < t.period { BelowOnePeriod(d, t.period); }
    }
  }

  lemma MultiplesGrow(k: int, q: int, p: int)
    requires k <= q && p > 0
    ensures k * p <= q * p
  {
    if k < q {
      AtLeast(q - k, p);
      assert q * p == k * p + (q - k) * p;
    }
  }

  /** An auto-reload timer with expiry v and period p is called for v, v + p, v + 2p and so on,
    * floor((2^32 - 1 - v) / p) + 1 times, and for nothing else. */
  lemma CallbacksAreTheExpiries(t: Timer, k: nat)
    requires Armed(t) && t.autoReload
    ensures Due(t, Event(t.id, t.value + k * t.period)) == 1 <==> k < Callbacks(t)
  {
    var n, p := WRAP - 1 - t.value, t.period;
    var q := n / p;
    assert n == q * p + n % p;
    if k <= q {
      MultiplesGrow(0, k, p);
      MultiplesGrow(k, q, p);
      DivisionIs(k * p, p, k, 0);
    } else {
      MultiplesGrow(q + 1, k, p);
      assert (q + 1) * p == q * p + p;
    }
  }

  // ---------------------------------------------------------------------------
  // Lists of timers.
  // ---------------------------------------------------------------------------

  function Values(ts: seq<Timer>): (vals: seq<int>)
    ensures |vals| == |ts| && forall i :: 0 <= i < |ts| ==> vals[i] == ts[i].value
  {
    seq(|ts|, i requires 0 <= i < |ts| => ts[i].value)
  }

  /** `vListInsert` by expiry time */
  function Insert(ts: seq<Timer>, t: Timer): seq<Timer> {
    var k := Rings.SortedSlot(Values(ts), t.value);
    ts[..k] + [t] + ts[k..]
  }

  ghost predicate AllArmed(ts: seq<Timer>) {
    forall i :: 0 <= i < |ts| ==> Armed(ts[i])
  }

  ghost predicate Ordered(ts: seq<Timer>) {
    forall i, j :: 0 <= i < j < |ts| ==> ts[i].value <= ts[j].value
  }

  ghost predicate Active(ts: seq<Timer>) {
    AllArmed(ts) && Ordered(ts)
  }

  lemma OrderedValues(ts: seq<Timer>, vals: seq<int>)
    requires |vals| == |ts| && forall i {:trigger vals[i]} :: 0 <= i < |ts| ==> vals[i] == ts[i].value
    ensures Ordered(ts) <==> Rings.Sorted(vals)
  {
    if Rings.Sorted(vals) {
      forall i, j | 0 <= i < j < |ts|
        ensures ts[i].value <= ts[j].value
      {
        assert vals[i] <= vals[j];
      }
    }
  }

  lemma InsertOk(ts: seq<Timer>, t: Timer)
    requires Active(ts) && Armed(t)
    ensures Active(Insert(ts, t))
  {
    var vals := Values(ts);
    var k := Rings.SortedSlot(vals, t.value);
    OrderedValues(ts, vals);
    Rings.SortedInsertIsStable(vals, t.value);
    OrderedValues(Insert(ts, t), vals[..k] + [t.value] + vals[k..]);
  }

  /** The same for all the timers of a list. */
  ghost function AllDue(ts: seq<Timer>, e: Event): nat
    requires AllArmed(ts)
  {
    if ts == [] then 0 else Due(ts[0], e) + AllDue(ts[1..], e)
  }

  ghost function AllCallbacks(ts: seq<Timer>): nat
    requires AllArmed(ts)
  {
    if ts == [] then 0 else Callbacks(ts[0]) + AllCallbacks(ts[1..])
  }

  ghost function AllRestartsDue(ts: seq<Timer>, r: Restart): nat
    requires AllArmed(ts)
  {
    if ts == [] then 0 else RestartDue(ts[0], r) + AllRestartsDue(ts[1..], r)
  }

  function Count<T(==)>(s: seq<T>, x: T): nat {
    if s == [] then 0 else Count(s[..|s| - 1], x) + if s[|s| - 1] == x then 1 else 0
  }

  lemma CountSnoc<T>(s: seq<T>, y: T, x: T)
    ensures Count(s + [y], x) == Count(s, x) + if y == x then 1 else 0
  {
    assert (s + [y])[..|s|] == s;
  }

  /** Where a timer is inserted does not matter for what will happen. */
  lemma {:induction false} InsertAdds(ts: seq<Timer>, k: nat, t: Timer, w: seq<Timer>, e: Event, r: Restart)
    requires k <= |ts| && Armed(t) && AllArmed(ts) && w == ts[..k] + [t] + ts[k..] && AllArmed(w)
    ensures AllDue(w, e) == AllDue(ts, e) + Due(t, e)
    ensures AllCallbacks(w) == AllCallbacks(ts) + Callbacks(t)
    ensures AllRestartsDue(w, r) == AllRestartsDue(ts, r) + RestartDue(t, r)
  {
    if k == 0 {
      assert w[1..] == ts;
    } else {
      assert w[1..] == ts[1..][..k - 1] + [t] + ts[1..][k - 1..];
      InsertAdds(ts[1..], k - 1, t, w[1..], e, r);
    }
  }

  /** What one turn of the catch-up loop does to the list and the queue. */
  ghost predicate Turn(before: seq<Timer>, after: seq<Timer>, sent: seq<Restart>)
    requires before != [] && AllArmed(before) && AllArmed(after)
  {
    && AllCallbacks(before) == AllCallbacks(after) + 1
    && (forall e :: AllDue(before, e) == AllDue(after, e) + if e == Event(before[0].id, before[0].value) then 1 else 0)
    && (forall r :: AllRestartsDue(before, r) == AllRestartsDue(after, r) + Count(sent, r))
  }

  lemma TurnAt(before: seq<Timer>, after: seq<Timer>, e: Event, r: Restart)
    requires before != [] && Active(before)
    ensures var t := before[0];
            t.autoReload && t.value + t.period < WRAP && after == Insert(before[1..], Reloaded(t)) ==>
              Active(after) && AllCallbacks(before) == AllCallbacks(after) + 1 &&
              AllDue(before, e) == AllDue(after, e) + (if e == Event(t.id, t.value) then 1 else 0) &&
              AllRestartsDue(before, r) == AllRestartsDue(after, r)
    ensures var t := before[0];
            (!t.autoReload || t.value + t.period >= WRAP) && after == before[1..] ==>
              Active(after) && AllCallbacks(before) == AllCallbacks(after) + 1 &&
              AllDue(before, e) == AllDue(after, e) + (if e == Event(t.id, t.value) then 1 else 0) &&
              AllRestartsDue(before, r) == AllRestartsDue(after, r) + if t.autoReload && r == Restart(t.id, t.value) then 1 else 0
  {
    var t, rest := before[0], before[1..];
    if t.autoReload && t.value + t.period < WRAP {
      InsertOk(rest, Reloaded(t));
      InsertAdds(rest, Rings.SortedSlot(Values(rest), Reloaded(t).value), Reloaded(t), Insert(rest, Reloaded(t)), e, r);
      ReloadLeavesTheRest(t, e, r);
    } else {
      LastCallback(t, e, r);
    }
  }

  lemma TurnOk(before: seq<Timer>, after: seq<Timer>, sent: seq<Restart>)
    requires before != [] && Active(before)
    requires var t := before[0];
             if t.autoReload && t.value + t.period < WRAP then after == Insert(before[1..], Reloaded(t)) && sent == []
             else after == before[1..] && sent == if t.autoReload then [Restart(t.id, t.value)] else []
    ensures Active(after) && Turn(before, after, sent)
  {
    var e0, r0 := Event(0, 0), Restart(0, 0);
    TurnAt(before, after, e0, r0);
    forall e
      ensures AllDue(before, e) == AllDue(after, e) + if e == Event(before[0].id, before[0].value) then 1 else 0
    {
      TurnAt(before, after, e, r0);
    }
    forall r
      ensures AllRestartsDue(before, r) == AllRestartsDue(after, r) + Count(sent, r)
    {
      TurnAt(before, after, e0, r);
      if sent != [] { CountSnoc([], sent[0], r); }
    }
  }

  lemma LaterThanHead(ts: seq<Timer>)
    requires Active(ts) && ts != []
    ensures forall i :: 0 <= i < |ts[1..]| ==> ts[1..][i].value >= ts[0].value
    ensures forall i :: 0 <= i < |Insert(ts[1..], Reloaded(ts[0]))| ==>
              Armed(ts[0]) && Insert(ts[1..], Reloaded(ts[0]))[i].value >= ts[0].value
  {
  }

  class Service {
    var current: seq<Timer>         // pxCurrentTimerList
    var overflow: seq<Timer>        // pxOverflowTimerList
    var lastTime: int               // xLastTime
    var callbacks: seq<Event>       // the callbacks made, with the expiry each is for
    var commands: seq<Restart>      // the timer command queue

    ghost predicate Valid()
      reads this
    {
      Active(current) && Active(overflow)
    }

    /** An auto-reload timer goes back into the list, or is restarted by a command. */
    method ReloadOrRestart(timer: Timer) returns (ghost sent: seq<Restart>)
      requires Armed(timer)
      modifies `current, `commands
      ensures var again := timer.autoReload && timer.value + timer.period < WRAP;
              current == (if again then Insert(old(current), Reloaded(timer)) else old(current)) &&
              sent == (if timer.autoReload && !again then [Restart(timer.id, timer.value)] else [])
      ensures commands == old(commands) + sent
    {
      sent := [];
      if timer.autoReload {
        var reloadTime := Plus(timer.value, timer.period);
        if reloadTime > timer.value {
          current := Insert(current, timer.(value := reloadTime));
        } else {
          sent := [Restart(timer.id, timer.value)];
          commands := commands + [Restart(timer.id, timer.value)];
        }
      }
    }

    /** One turn of the loop of `prvSwitchTimerLists`. */
    method CatchUpHead() returns (ghost sent: seq<Restart>)
      requires Active(current) && current != []
      modifies `current, `callbacks, `commands
      ensures Active(current) && Turn(old(current), current, sent)
      ensures forall i :: 0 <= i < |current| ==> current[i].value >= old(current)[0].value
      ensures callbacks == old(callbacks) + [Event(old(current)[0].id, old(current)[0].value)]
      ensures commands == old(commands) + sent
    {
      var timer := current[0];
      LaterThanHead(current);
      current := current[1..];
      callbacks := callbacks + [Event(timer.id, timer.value)];
      sent := ReloadOrRestart(timer);
      TurnOk(old(current), current, sent);
    }

    /** `prvSwitchTimerLists`: every timer left in the old list is called back exactly at each
      * of its expiries up to the wrap, in order of time, and every auto-reload timer gets one
      * command that restarts it from the last of them; then the lists are swapped. */
    method SwitchTimerLists() returns (ghost made: seq<Event>, ghost sent: seq<Restart>)
      requires Valid()
      modifies `current, `overflow, `callbacks, `commands
      ensures Valid() && current == old(overflow) && overflow == []
      ensures callbacks == old(callbacks) + made && commands == old(commands) + sent
      ensures |made| == AllCallbacks(old(current)) && forall e :: Count(made, e) == AllDue(old(current), e)
      ensures forall i, j :: 0 <= i < j < |made| ==> made[i].time <= made[j].time
      ensures forall r :: Count(sent, r) == AllRestartsDue(old(current), r)
    {
      made, sent := [], [];
      while |current| != 0
        invariant Active(current) && overflow == old(overflow)
        invariant callbacks == old(callbacks) + made && commands == old(commands) + sent
        invariant |made| + AllCallbacks(current) == AllCallbacks(old(current))
        invariant forall e :: Count(made, e) + AllDue(current, e) == AllDue(old(current), e)
        invariant forall r :: Count(sent, r) + AllRestartsDue(current, r) == AllRestartsDue(old(current), r)
        invariant forall i, j :: 0 <= i < j < |made| ==> made[i].time <= made[j].time
        invariant forall i, k :: 0 <= i < |made| && 0 <= k < |current| ==> made[i].time <= current[k].value
        decreases AllCallbacks(current)
      {
        ghost var e := Event(current[0].id, current[0].value);
        ghost var one := CatchUpHead();
        MadeGrows(made, e);
        SentGrows(sent, one);
        made, sent := made + [e], sent + one;
      }
      current, overflow := overflow, current;
    }

    /** `prvSampleTimeNow` */
    method SampleTimeNow(tick: int) returns (switched: bool, ghost made: seq<Event>)
      requires Valid() && 0 <= tick < WRAP
      modifies this
      ensures Valid() && lastTime == tick && (switched <==> tick < old(lastTime))
      ensures callbacks == old(callbacks) + made
      ensures if switched then current == old(overflow) && overflow == [] && forall e :: Count(made, e) == AllDue(old(current), e)
              else made == [] && current == old(current) && overflow == old(overflow) && commands == old(commands)
    {
      switched, made := tick < lastTime, [];
      if switched {
        ghost var sent;
        made, sent := SwitchTimerLists();
      }
      lastTime := tick;
    }

    /** `prvInsertTimerInActiveList` */
    method InsertTimerInActiveList(timer: Timer, nextExpiry: int, now: int, command: int) returns (processNow: bool)
      requires Valid() && Armed(timer) && 0 <= nextExpiry < WRAP && 0 <= now < WRAP && 0 <= command < WRAP
      modifies `current, `overflow
      ensures Valid()
      ensures var place, t := Placement(nextExpiry, now, command, timer.period), timer.(value := nextExpiry);
              (processNow <==> place == ProcessNow) &&
              current == (if place == CurrentList then Insert(old(current), t) else old(current)) &&
              overflow == (if place == OverflowList then Insert(old(overflow), t) else old(overflow))
    {
      var t := timer.(value := nextExpiry);
      InsertOk(current, t);
      InsertOk(overflow, t);
      processNow := false;
      if nextExpiry <= now {
        if Minus(now, command) >= timer.period {
          processNow := true;
        } else {
          overflow := Insert(overflow, t);
        }
      } else {
        if now < command && nextExpiry >= command {
          processNow := true;
        } else {
          current := Insert(current, t);
        }
      }
    }

    /** `prvProcessExpiredTimer` */
    method ProcessExpiredTimer(now: int)
      requires Valid() && current != [] && 0 <= now < WRAP
      modifies `current, `overflow, `callbacks, `commands
      ensures Valid() && callbacks == old(callbacks) + [Event(old(current)[0].id, old(current)[0].value)]
      ensures var t := old(current)[0]; var next := Plus(t.value, t.period);
              var place := Placement(next, now, t.value, t.period);
              if !t.autoReload then current == old(current)[1..] && overflow == old(overflow) && commands == old(commands)
              else
                current == (if place == CurrentList then Insert(old(current)[1..], t.(value := next)) else old(current)[1..]) &&
                overflow == (if place == OverflowList then Insert(old(overflow), t.(value := next)) else old(overflow)) &&
                commands == old(commands) + if place == ProcessNow then [Restart(t.id, t.value)] else []
    {
      var timer := current[0];
      current := current[1..];
      if timer.autoReload {
        var processNow := InsertTimerInActiveList(timer, Plus(timer.value, timer.period), now, timer.value);
        if processNow {
          commands := commands + [Restart(timer.id, timer.value)];
        }
      }
      callbacks := callbacks + [Event(timer.id, timer.value)];
    }
  }

  lemma MadeGrows(made: seq<Event>, e: Event)
    ensures forall x :: Count(made + [e], x) == Count(made, x) + if x == e then 1 else 0
  {
    forall x
      ensures Count(made + [e], x) == Count(made, x) + if x == e then 1 else 0
    {
      CountSnoc(made, e, x);
    }
  }

  lemma {:induction false} CountConcat<T>(s: seq<T>, u: seq<T>, x: T)
    ensures Count(s + u, x) == Count(s, x) + Count(u, x)
  {
    if u == [] {
      assert s + u == s;
    } else {
      var k := |u| - 1;
      CountConcat(s, u[..k], x);
      assert (s + u)[..|s + u| - 1] == s + u[..k];
    }
  }

  lemma SentGrows(sent: seq<Restart>, one: seq<Restart>)
    ensures forall r :: Count(sent + one, r) == Count(sent, r) + Count(one, r)
  {
    forall r
      ensures Count(sent + one, r) == Count(sent, r) + Count(one, r)
    {
      CountConcat(sent, one, r);
    }
  }
}
