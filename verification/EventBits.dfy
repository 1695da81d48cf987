/** Event group bits: 24 bits for the application, and the control bits that a waiting
  * task's list-item value carries beside the bits it waits for (event_groups.c).  A word
  * is the set of the positions of its one-bits: `|` is union, `&` intersection, `& ~` difference. */
module EventBits {
  type Bits = set<int>

  const CLEAR_ON_EXIT := 24
  const UNBLOCKED_BY_BITS := 25
  const WAIT_FOR_ALL := 26
  const IN_USE := 31
  const CONTROL: Bits := {24, 25, 26, 27, 28, 29, 30, 31}

  /** `prvTestWaitCondition` */
  predicate TestWaitCondition(current: Bits, wanted: Bits, all: bool) {
    if all then current * wanted == wanted else current * wanted != {}
  }

  /** The value `vTaskPlaceOnUnorderedEventList` stores for a waiter. */
  function Pack(wanted: Bits, clear: bool, all: bool): Bits {
    wanted + (if clear then {CLEAR_ON_EXIT} else {}) + (if all then {WAIT_FOR_ALL} else {}) + {IN_USE}
  }

  function Wanted(value: Bits): Bits {
    value - CONTROL
  }

  predicate ClearsOnExit(value: Bits) {
    CLEAR_ON_EXIT in value
  }

  predicate WaitsForAll(value: Bits) {
    WAIT_FOR_ALL in value
  }

  /** The value a released task finds in its list item. */
  function Release(current: Bits): Bits {
    current + {UNBLOCKED_BY_BITS} + {IN_USE}
  }

  predicate ReleasedByBits(value: Bits) {
    UNBLOCKED_BY_BITS in value
  }

  /** Waiting for all: every wanted bit is set. Waiting for any: some wanted bit is. */
  lemma ConditionMeans(current: Bits, wanted: Bits, all: bool)
    ensures TestWaitCondition(current, wanted, all) <==>
            if all then forall x :: x in wanted ==> x in current else exists x :: x in wanted && x in current
  {
    if all {
      if forall x :: x in wanted ==> x in current {
        assert current * wanted == wanted;
      }
      if current * wanted == wanted {
        assert forall x :: x in wanted ==> x in current * wanted;
      }
    } else {
      if x :| x in wanted && x in current {
        assert x in current * wanted;
      }
      if !exists x :: x in wanted && x in current {
        assert current * wanted == {};
      }
    }
  }

  /** What is packed can be read back. */
  lemma PackIsReadable(wanted: Bits, clear: bool, all: bool)
    requires wanted !! CONTROL
    ensures var v := Pack(wanted, clear, all);
            Wanted(v) == wanted && ClearsOnExit(v) == clear && WaitsForAll(v) == all && !ReleasedByBits(v)
  {
    assert Wanted(Pack(wanted, clear, all)) == wanted;
  }

  /** A released task can tell that the bits released it, and which bits were set. */
  lemma ReleaseIsReadable(current: Bits)
    requires current !! CONTROL
    ensures ReleasedByBits(Release(current)) && Wanted(Release(current)) == current
  {
    assert Wanted(Release(current)) == current;
  }

  /** Clearing bits satisfies nobody. */
  lemma FewerBits(fewer: Bits, more: Bits, wanted: Bits, all: bool)
    requires fewer <= more && TestWaitCondition(fewer, wanted, all)
    ensures TestWaitCondition(more, wanted, all)
  {
    if all {
      assert forall x :: x in wanted ==> x in fewer * wanted;
      assert more * wanted == wanted;
    } else {
      assert fewer * wanted <= more * wanted;
    }
  }
}
