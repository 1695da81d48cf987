/** The rendezvous of `xEventGroupSync`: N tasks, each with a bit of its own, that meet for
  * ever on the union of those bits without a timeout. */
module Barrier {
  import opened EventBits
  import opened G = EventGroup

  /** Task i sets bit[i] and waits for the bits of all. */
  datatype State = State(
    bit: seq<int>,
    bits: Bits,                // uxEventBits
    waiters: seq<Waiter>,      // xTasksWaitingForBits
    entered: nat -> nat,       // calls of xEventGroupSync begun by each task
    returned: nat -> nat)      // calls that have returned, or whose task has been released

  predicate Setup(bit: seq<int>) {
    && |bit| > 0 && (forall i :: 0 <= i < |bit| ==> bit[i] !in CONTROL)
    && (forall i, j :: 0 <= i < j < |bit| ==> bit[i] != bit[j])
  }

  function All(bit: seq<int>): Bits {
    set x | x in bit
  }

  predicate Waits(s: State, i: nat) {
    exists k :: 0 <= k < |s.waiters| && s.waiters[k].task == i
  }

  /** Task i is not inside a call. */
  predicate Enabled(s: State, i: nat) {
    i < |s.bit| && !Waits(s, i)
  }

  function Bump(f: nat -> nat, who: nat -> bool): nat -> nat {
    i => if who(i) then f(i) + 1 else f(i)
  }

  /** Task j is among the released. */
  predicate Frees(freed: seq<Waiter>, j: nat) {
    exists k :: 0 <= k < |freed| && freed[k].task == j
  }

  /** Task i calls `xEventGroupSync`. */
  function Enter(s: State, i: nat): State
    requires Enabled(s, i)
  {
    var all := All(s.bit);
    var now := s.bits + {s.bit[i]};
    var rest := now - ToClear(s.waiters, now);
    var freed := Released(s.waiters, now);
    var met := now * all == all;
    s.(bits := if met then rest - all else rest,
       waiters := Kept(s.waiters, now) + if met then [] else [Waiter(i, Pack(all, true, true))],
       entered := Bump(s.entered, (j: nat) => j == i),
       returned := Bump(s.returned, (j: nat) => (met && j == i) || Frees(freed, j)))
  }

  /** That is what an event group does. */
  method Meet(g: Group, ghost s: State, i: nat, bit: int, all: Bits) returns (met: bool, freed: seq<Waiter>)
    requires g.Valid() && g.bits == s.bits && g.waiters == s.waiters
    requires Setup(s.bit) && Enabled(s, i) && bit == s.bit[i] && all == All(s.bit)
    modifies g
    ensures g.Valid() && g.bits == Enter(s, i).bits && g.waiters == Enter(s, i).waiters
    ensures forall j :: Enter(s, i).returned(j) == s.returned(j) + if (met && j == i) || Frees(freed, j) then 1 else 0
  {
    AllAvoidsControl(s.bit);
    assert bit in all;
    var outcome;
    outcome, freed := g.Sync(i, {bit}, all, true);
    met := outcome.Returned?;
  }

  ghost predicate Run(s: State, who: seq<nat>, end: State)
    decreases |who|
  {
    if who == [] then s == end else Enabled(s, who[0]) && Run(Enter(s, who[0]), who[1..], end)
  }

  function Start(bit: seq<int>): State {
    State(bit, {}, [], (i: nat) => 0, (i: nat) => 0)
  }

  // ---------------------------------------------------------------------------
  // The invariant: the tasks that have arrived in this round, and nobody else, have
  // their bits set and wait for all; everybody has returned from the same round.
  // ---------------------------------------------------------------------------

  ghost predicate Arrived(s: State) {
    && (forall k :: 0 <= k < |s.waiters| ==>
          s.waiters[k].task < |s.bit| && s.waiters[k].value == Pack(All(s.bit), true, true))
    && (forall i :: 0 <= i < |s.bit| ==> (s.bit[i] in s.bits <==> Waits(s, i)))
    && s.bits <= All(s.bit)
    && s.bits != All(s.bit)
  }

  ghost predicate SameRound(s: State, round: nat) {
    forall i: nat :: i < |s.bit| ==> s.returned(i) == round && s.entered(i) == round + if Waits(s, i) then 1 else 0
  }

  ghost predicate Inv(s: State, round: nat) {
    Setup(s.bit) && Arrived(s) && SameRound(s, round)
  }

  lemma AllAvoidsControl(bit: seq<int>)
    requires Setup(bit)
    ensures All(bit) !! CONTROL
  {
  }

  /** Waiters for all the bits are released together or not at all. */
  lemma {:induction false} Together(ws: seq<Waiter>, all: Bits, now: Bits)
    requires all !! CONTROL && forall k :: 0 <= k < |ws| ==> ws[k].value == Pack(all, true, true)
    ensures now * all != all ==> Released(ws, now) == [] && Kept(ws, now) == ws && ToClear(ws, now) == {}
    ensures now * all == all ==> Kept(ws, now) == [] && |Released(ws, now)| == |ws| && ToClear(ws, now) <= all
    ensures now * all == all ==> forall k :: 0 <= k < |ws| ==> Released(ws, now)[k].task == ws[k].task
  {
    if ws != [] {
      Together(ws[..|ws| - 1], all, now);
      PackIsReadable(all, true, true);
      assert ws == ws[..|ws| - 1] + [ws[|ws| - 1]];
    }
  }

  /** The last task to arrive releases everybody and leaves all bits clear; any other waits. */
  lemma EnterKeepsInv(s: State, i: nat, round: nat) returns (next: nat)
    requires Inv(s, round) && Enabled(s, i)
    ensures Inv(Enter(s, i), next)
  {
    var all, now, t := All(s.bit), s.bits + {s.bit[i]}, Enter(s, i);
    AllAvoidsControl(s.bit);
    Together(s.waiters, all, now);
    if now * all == all {
      next := round + 1;
      LastArrives(s, i, round);
    } else {
      next := round;
      OneMoreWaits(s, i, round);
    }
  }

  lemma WaitersGrow(s: State, t: State, w: Waiter, j: nat)
    requires t.waiters == s.waiters + [w]
    ensures Waits(t, j) <==> Waits(s, j) || j == w.task
  {
    assert t.waiters[|s.waiters|] == w;
    if Waits(s, j) {
      var k :| 0 <= k < |s.waiters| && s.waiters[k].task == j;
      assert t.waiters[k].task == j;
    }
  }

  lemma OneMoreWaits(s: State, i: nat, round: nat)
    requires Inv(s, round) && Enabled(s, i) && (s.bits + {s.bit[i]}) * All(s.bit) != All(s.bit)
    ensures Inv(Enter(s, i), round)
  {
    var all, now, t := All(s.bit), s.bits + {s.bit[i]}, Enter(s, i);
    AllAvoidsControl(s.bit);
    Together(s.waiters, all, now);
    assert t.waiters == s.waiters + [Waiter(i, Pack(all, true, true))];
    assert t.bits == now;
    forall j: nat | j < |s.bit|
      ensures Waits(t, j) <==> Waits(s, j) || j == i
    {
      WaitersGrow(s, t, Waiter(i, Pack(all, true, true)), j);
    }
  }

  lemma LastArrives(s: State, i: nat, round: nat)
    requires Inv(s, round) && Enabled(s, i) && (s.bits + {s.bit[i]}) * All(s.bit) == All(s.bit)
    ensures Inv(Enter(s, i), round + 1) && Enter(s, i).bits == {} && Enter(s, i).waiters == []
  {
    var all, now, t := All(s.bit), s.bits + {s.bit[i]}, Enter(s, i);
    AllAvoidsControl(s.bit);
    Together(s.waiters, all, now);
    assert now == all;
    assert t.bits == {} && t.waiters == [];
    assert s.bit[i] in all;
    forall j: nat | j < |s.bit|
      ensures t.returned(j) == round + 1 && t.entered(j) == round + 1
    {
      assert s.bit[j] in all;
      if j != i {
        assert s.bit[j] in s.bits;
        var k :| 0 <= k < |s.waiters| && s.waiters[k].task == j;
        assert Released(s.waiters, now)[k].task == j;
      }
    }
  }

  lemma {:induction false} RunKeepsInv(s: State, who: seq<nat>, end: State, round: nat) returns (last: nat)
    requires Inv(s, round) && Run(s, who, end)
    ensures Inv(end, last)
    decreases |who|
  {
    if who == [] {
      last := round;
    } else {
      var next := EnterKeepsInv(s, who[0], round);
      last := RunKeepsInv(Enter(s, who[0]), who[1..], end, next);
    }
  }

  /** No task returns from its k-th call before every task has entered its k-th call, for any
    * number of tasks, rounds and orders of arrival; whenever nobody waits, that is, at the
    * start of every round, all the rendezvous bits are clear. */
  lemma NobodyPassesEarly(bit: seq<int>, who: seq<nat>, end: State, i: nat, j: nat)
    requires Setup(bit) && Run(Start(bit), who, end) && i < |bit| && j < |bit|
    ensures end.returned(i) <= end.entered(j)
    ensures end.waiters == [] ==> end.bits == {}
  {
    var s := Start(bit);
    assert bit[0] in All(bit);
    var last := RunKeepsInv(s, who, end, 0);
    BitStays(s, who, end);
    if end.waiters == [] {
      assert forall k: nat :: !Waits(end, k);
      assert forall x :: x in All(end.bit) ==> x !in end.bits;
    }
  }

  lemma {:induction false} BitStays(s: State, who: seq<nat>, end: State)
    requires Run(s, who, end)
    ensures end.bit == s.bit
    decreases |who|
  {
    if who != [] {
      BitStays(Enter(s, who[0]), who[1..], end);
    }
  }
}
