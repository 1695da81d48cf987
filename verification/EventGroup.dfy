/** Event groups (event_groups.c): tasks wait on a list in arrival order for any or all of
  * some bits; setting bits releases the satisfied ones in one walk and clears afterwards. */
module EventGroup {
  import opened EventBits

  datatype Waiter = Waiter(task: nat, value: Bits)

  predicate Satisfied(w: Waiter, bits: Bits) {
    TestWaitCondition(bits, Wanted(w.value), WaitsForAll(w.value))
  }

  /** The satisfied waiters, in list order, each with the value it will find. */
  function Released(ws: seq<Waiter>, bits: Bits): seq<Waiter> {
    if ws == [] then []
    else
      var before := Released(ws[..|ws| - 1], bits);
      var w := ws[|ws| - 1];
      if Satisfied(w, bits) then before + [Waiter(w.task, Release(bits))] else before
  }

  /** The others, in list order. */
  function Kept(ws: seq<Waiter>, bits: Bits): seq<Waiter> {
    if ws == [] then []
    else
      var before := Kept(ws[..|ws| - 1], bits);
      var w := ws[|ws| - 1];
      if Satisfied(w, bits) then before else before + [w]
  }

  /** The union of the bits of satisfied waiters that clear on exit. */
  function ToClear(ws: seq<Waiter>, bits: Bits): Bits {
    if ws == [] then {}
    else
      var before := ToClear(ws[..|ws| - 1], bits);
      var w := ws[|ws| - 1];
      if Satisfied(w, bits) && ClearsOnExit(w.value) then before + Wanted(w.value) else before
  }

  /** No task on the list has its condition true. */
  ghost predicate NobodyOverlooked(bits: Bits, ws: seq<Waiter>) {
    forall i {:trigger ws[i]} :: 0 <= i < |ws| ==> !Satisfied(ws[i], bits)
  }

  lemma {:induction false} KeptAreUnsatisfied(ws: seq<Waiter>, bits: Bits)
    ensures NobodyOverlooked(bits, Kept(ws, bits))
    ensures forall w :: w in Kept(ws, bits) <==> w in ws && !Satisfied(w, bits)
  {
    if ws != [] {
      KeptAreUnsatisfied(ws[..|ws| - 1], bits);
      assert ws == ws[..|ws| - 1] + [ws[|ws| - 1]];
    }
  }

  /** Every waiter is either kept or released, once, and all are judged by the same bits. */
  lemma {:induction false} ReleasedAreSatisfied(ws: seq<Waiter>, bits: Bits)
    ensures |Released(ws, bits)| + |Kept(ws, bits)| == |ws|
    ensures forall t :: Waiter(t, Release(bits)) in Released(ws, bits) <==> exists w :: w in ws && w.task == t && Satisfied(w, bits)
    ensures forall r :: r in Released(ws, bits) ==> r.value == Release(bits)
  {
    if ws != [] {
      var before, w := ws[..|ws| - 1], ws[|ws| - 1];
      ReleasedAreSatisfied(before, bits);
      assert ws == before + [w];
      forall t
        ensures Waiter(t, Release(bits)) in Released(ws, bits) <==> exists v :: v in ws && v.task == t && Satisfied(v, bits)
      {
        if t == w.task && Satisfied(w, bits) {
          assert Waiter(t, Release(bits)) in Released(ws, bits);
          assert w in ws;
        } else {
          assert Waiter(t, Release(bits)) in Released(ws, bits) <==> Waiter(t, Release(bits)) in Released(before, bits);
        }
      }
    }
  }

  /** The walk goes through the list in order: what it keeps, releases and clears of two lists in a row is
    * what it keeps, releases and clears of the one and then of the other. */
  lemma {:induction false} WalkJoins(a: seq<Waiter>, b: seq<Waiter>, bits: Bits)
    ensures Kept(a + b, bits) == Kept(a, bits) + Kept(b, bits) && Released(a + b, bits) == Released(a, bits) + Released(b, bits)
    ensures ToClear(a + b, bits) == ToClear(a, bits) + ToClear(b, bits)
    decreases |b|
  {
    if b == [] {
      assert a + b == a;
    } else {
      var rest := b[..|b| - 1];
      WalkJoins(a, rest, bits);
      assert (a + b)[..|a + b| - 1] == a + rest;
    }
  }

  /** Exactly those bits are cleared that some released waiter that clears on exit waited for. */
  lemma {:induction false} ClearedBits(ws: seq<Waiter>, bits: Bits, x: int)
    ensures x in ToClear(ws, bits) <==>
            exists i :: 0 <= i < |ws| && Satisfied(ws[i], bits) && ClearsOnExit(ws[i].value) && x in Wanted(ws[i].value)
  {
    if ws != [] {
      var before, n := ws[..|ws| - 1], |ws| - 1;
      ClearedBits(before, bits, x);
      if i :| 0 <= i < |ws| && Satisfied(ws[i], bits) && ClearsOnExit(ws[i].value) && x in Wanted(ws[i].value) {
        assert i < n ==> before[i] == ws[i];
      }
      if i :| 0 <= i < |before| && Satisfied(before[i], bits) && ClearsOnExit(before[i].value) && x in Wanted(before[i].value) {
        assert ws[i] == before[i];
      }
    }
  }

  lemma FewerBitsOverlookNobody(fewer: Bits, more: Bits, ws: seq<Waiter>)
    requires fewer <= more && NobodyOverlooked(more, ws)
    ensures NobodyOverlooked(fewer, ws)
  {
    forall i | 0 <= i < |ws|
      ensures !Satisfied(ws[i], fewer)
    {
      if Satisfied(ws[i], fewer) {
        FewerBits(fewer, more, Wanted(ws[i].value), WaitsForAll(ws[i].value));
      }
    }
  }

  lemma ClearingIsSafe(bits: Bits, toClear: Bits, ws: seq<Waiter>)
    requires bits !! CONTROL && NobodyOverlooked(bits, ws)
    ensures bits - toClear !! CONTROL && NobodyOverlooked(bits - toClear, ws)
  {
    FewerBitsOverlookNobody(bits - toClear, bits, ws);
  }

  /** One turn of the walk: the item is cut out or stepped over. */
  lemma WalkOn(ws: seq<Waiter>, walked: nat, bits: Bits)
    requires walked < |ws|
    ensures var now, next, w := Kept(ws[..walked], bits), Kept(ws[..walked + 1], bits), ws[walked];
            var list := now + ws[walked..];
            list[|now|] == w && ws[..walked + 1][..walked] == ws[..walked] &&
            next + ws[walked + 1..] == if Satisfied(w, bits) then list[..|now|] + list[|now| + 1..] else list
  {
    assert ws[..walked + 1][..walked] == ws[..walked];
  }

  /** The walk's own test of one item. */
  method MatchFound(value: Bits, bits: Bits) returns (found: bool)
    ensures found <==> TestWaitCondition(bits, Wanted(value), WaitsForAll(value))
  {
    var bitsWaitedFor := value - CONTROL;
    found := false;
    assert bitsWaitedFor * bits == bits * bitsWaitedFor;
    if WAIT_FOR_ALL !in value {
      if bitsWaitedFor * bits != {} {
        found := true;
      }
    } else if bitsWaitedFor * bits == bitsWaitedFor {
      found := true;
    }
  }

  datatype Outcome = Returned(bits: Bits) | TimedOut(bits: Bits) | Blocked

  class Group {
    var bits: Bits                 // uxEventBits
    var waiters: seq<Waiter>       // xTasksWaitingForBits

    ghost predicate Valid()
      reads this
    {
      bits !! CONTROL && NobodyOverlooked(bits, waiters)
    }

    constructor ()
      ensures Valid() && bits == {} && waiters == []
    {
      bits, waiters := {}, [];
    }

    /** The walk of `xEventGroupSetBits` over the list. */
    method ReleaseSatisfied() returns (released: seq<Waiter>, toClear: Bits)
      modifies `waiters
      ensures released == Released(old(waiters), bits) && toClear == ToClear(old(waiters), bits)
      ensures waiters == Kept(old(waiters), bits)
    {
      released, toClear := [], {};
      ghost var ws, walked := waiters, 0;
      var item := 0;
      while item < |waiters|
        invariant 0 <= walked <= |ws| && item == |Kept(ws[..walked], bits)|
        invariant waiters == Kept(ws[..walked], bits) + ws[walked..]
        invariant released == Released(ws[..walked], bits) && toClear == ToClear(ws[..walked], bits)
        decreases |ws| - walked
      {
        WalkOn(ws, walked, bits);
        var w := waiters[item];
        var matchFound := MatchFound(w.value, bits);
        if matchFound {
          if ClearsOnExit(w.value) {
            toClear := toClear + Wanted(w.value);
          }
          released := released + [Waiter(w.task, Release(bits))];
          waiters := waiters[..item] + waiters[item + 1..];
        } else {
          item := item + 1;
        }
        walked := walked + 1;
      }
      assert ws[..walked] == ws;
    }

    /** `xEventGroupSetBits` */
    method SetBits(toSet: Bits) returns (released: seq<Waiter>)
      requires Valid() && toSet !! CONTROL
      modifies this
      ensures Valid()
      ensures released == Released(old(waiters), old(bits) + toSet)
      ensures waiters == Kept(old(waiters), old(bits) + toSet)
      ensures bits == (old(bits) + toSet) - ToClear(old(waiters), old(bits) + toSet)
    {
      bits := bits + toSet;
      KeptAreUnsatisfied(waiters, bits);
      var toClear;
      released, toClear := ReleaseSatisfied();
      ClearingIsSafe(bits, toClear, waiters);
      bits := bits - toClear;
    }

    /** `xEventGroupClearBits` */
    method ClearBits(toClear: Bits) returns (before: Bits)
      requires Valid() && toClear !! CONTROL
      modifies `bits
      ensures Valid() && before == old(bits) && bits == old(bits) - toClear
    {
      before := bits;
      ClearingIsSafe(bits, toClear, waiters);
      bits := bits - toClear;
    }

    method Block(task: nat, wanted: Bits, clearOnExit: bool, waitForAll: bool)
      requires Valid() && wanted !! CONTROL && !TestWaitCondition(bits, wanted, waitForAll)
      modifies `waiters
      ensures Valid() && waiters == old(waiters) + [Waiter(task, Pack(wanted, clearOnExit, waitForAll))]
    {
      PackIsReadable(wanted, clearOnExit, waitForAll);
      waiters := waiters + [Waiter(task, Pack(wanted, clearOnExit, waitForAll))];
    }

    /** `xEventGroupWaitBits` up to the point where the task blocks or returns */
    method WaitBits(task: nat, wanted: Bits, clearOnExit: bool, waitForAll: bool, ticks: bool) returns (outcome: Outcome)
      requires Valid() && wanted !! CONTROL && wanted != {}
      modifies this
      ensures Valid()
      ensures if TestWaitCondition(old(bits), wanted, waitForAll)
              then outcome == Returned(old(bits)) && waiters == old(waiters) &&
                   bits == if clearOnExit then old(bits) - wanted else old(bits)
              else bits == old(bits) &&
                   if ticks
                   then outcome == Blocked && waiters == old(waiters) + [Waiter(task, Pack(wanted, clearOnExit, waitForAll))]
                   else outcome == TimedOut(bits) && waiters == old(waiters)
    {
      if TestWaitCondition(bits, wanted, waitForAll) {
        outcome := Returned(bits);
        if clearOnExit {
          var before := ClearBits(wanted);
        }
      } else if !ticks {
        outcome := TimedOut(bits);
      } else {
        Block(task, wanted, clearOnExit, waitForAll);
        outcome := Blocked;
      }
    }

    /** A tick takes waiter i off the list. */
    method TimeOut(i: nat)
      requires Valid() && i < |waiters|
      modifies `waiters
      ensures Valid() && waiters == old(waiters[..i] + waiters[i + 1..])
    {
      ghost var before := waiters;
      waiters := waiters[..i] + waiters[i + 1..];
      assert forall j {:trigger waiters[j]} :: 0 <= j < |waiters| ==> waiters[j] == before[if j < i then j else j + 1];
    }

    /** The rest of `xEventGroupWaitBits` after blocking, with the value found in the item */
    method AfterBlocking(itemValue: Bits, wanted: Bits, clearOnExit: bool, waitForAll: bool) returns (outcome: Outcome)
      requires Valid() && wanted !! CONTROL
      modifies `bits
      ensures Valid()
      ensures ReleasedByBits(itemValue) ==> outcome == Returned(Wanted(itemValue)) && bits == old(bits)
      ensures !ReleasedByBits(itemValue) ==>
                outcome == TimedOut(old(bits)) &&
                bits == if TestWaitCondition(old(bits), wanted, waitForAll) && clearOnExit then old(bits) - wanted else old(bits)
    {
      if ReleasedByBits(itemValue) {
        outcome := Returned(Wanted(itemValue));
      } else {
        outcome := TimedOut(bits);
        if TestWaitCondition(bits, wanted, waitForAll) {
          if clearOnExit {
            var before := ClearBits(wanted);
          }
        }
      }
    }

    /** `xEventGroupSync` up to the point where the task blocks or returns */
    method Sync(task: nat, toSet: Bits, wanted: Bits, ticks: bool) returns (outcome: Outcome, released: seq<Waiter>)
      requires Valid() && toSet !! CONTROL && wanted !! CONTROL && wanted != {}
      modifies this
      ensures Valid()
      ensures released == Released(old(waiters), old(bits) + toSet)
      ensures var now := old(bits) + toSet; var rest := now - ToClear(old(waiters), now);
              if now * wanted == wanted
              then outcome == Returned(now) && bits == rest - wanted && waiters == Kept(old(waiters), now)
              else bits == rest &&
                   if ticks
                   then outcome == Blocked && waiters == Kept(old(waiters), now) + [Waiter(task, Pack(wanted, true, true))]
                   else outcome == TimedOut(bits) && waiters == Kept(old(waiters), now)
    {
      var original := bits;
      released := SetBits(toSet);
      if (original + toSet) * wanted == wanted {
        outcome := Returned(original + toSet);
        var before := ClearBits(wanted);
      } else if ticks {
        if TestWaitCondition(bits, wanted, true) {
          FewerBits(bits, original + toSet, wanted, true);
        }
        Block(task, wanted, true, true);
        outcome := Blocked;
      } else {
        outcome := TimedOut(bits);
      }
    }
  }
}
