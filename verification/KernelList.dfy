/** `list.c` on the heap: a circular doubly linked list with a sentinel and a
  * rotating cursor, refining the value of module Rings. */
module KernelList {
  import Rings

  const MAX_DELAY: nat := 0xFFFF_FFFF

  type Tick = t: nat | t <= MAX_DELAY

  /** `Rings.NoDup`, by recursion: the methods below only carry it along. */
  ghost predicate Distinct<T>(s: seq<T>) {
    s == [] || (s[0] !in s[1..] && Distinct(s[1..]))
  }

  lemma DistinctIsNoDup<T>(s: seq<T>)
    ensures Distinct(s) <==> Rings.NoDup(s)
  {
    if s != [] {
      DistinctIsNoDup(s[1..]);
      if Distinct(s) {
        forall i, j | 0 <= i < j < |s|
          ensures s[i] != s[j]
        {
          assert s[j] == s[1..][j - 1];
        }
      }
    }
  }

  lemma Splice<T>(s: seq<T>, k: nat, x: T) returns (w: seq<T>)
    requires 1 <= k <= |s| && Distinct(s) && x !in s
    ensures |w| == |s| + 1 && Distinct(w)
    ensures forall j {:trigger w[j]} :: 0 <= j < |w| ==> w[j] == if j < k then s[j] else if j == k then x else s[j - 1]
  {
    DistinctIsNoDup(s);
    Rings.InsertAtMembers(s, k, x);
    w := s[..k] + [x] + s[k..];
    DistinctIsNoDup(w);
  }

  lemma Cut<T>(s: seq<T>, k: nat) returns (w: seq<T>)
    requires 1 <= k < |s| && Distinct(s)
    ensures |w| == |s| - 1 && Distinct(w)
    ensures forall j {:trigger w[j]} :: 0 <= j < |w| ==> w[j] == if j < k then s[j] else s[j + 1]
  {
    DistinctIsNoDup(s);
    w := s[..k] + s[k + 1..];
    DistinctIsNoDup(w);
  }

  lemma CutIsRemove<T>(s: seq<T>, w: seq<T>, k: nat, pos: nat, x: T)
    requires 1 <= k < |s| == |w| + 1 && Distinct(s) && pos < |s| && x == s[k]
    requires forall j {:trigger w[j]} :: 0 <= j < |w| ==> w[j] == if j < k then s[j] else s[j + 1]
    ensures x in s[1..]
    ensures Rings.Ring(w[1..], if pos >= k then pos - 1 else pos) == Rings.Remove(Rings.Ring(s[1..], pos), x)
  {
    DistinctIsNoDup(s);
    assert s[1..][k - 1] == x;
    Rings.IndexUnique(s[1..], k - 1, x);
    assert w[1..] == Rings.Without(s[1..], x);
  }

  lemma SpliceIsInsertAt<T>(s: seq<T>, w: seq<T>, k: nat, pos: nat, x: T)
    requires k < |s| == |w| - 1 && pos < |s|
    requires forall j {:trigger w[j]} :: 0 <= j < |w| ==> w[j] == if j < k + 1 then s[j] else if j == k + 1 then x else s[j - 1]
    ensures Rings.Ring(w[1..], if pos > k then pos + 1 else pos) == Rings.InsertAt(Rings.Ring(s[1..], pos), k, x)
  {
    assert w[1..] == s[1..][..k] + [x] + s[1..][k..];
  }

  lemma SpliceIsInsertEnd<T>(s: seq<T>, w: seq<T>, pos: nat, x: T)
    requires pos < |s| == |w| - 1
    requires var k := if pos == 0 then |s| else pos;
             forall j {:trigger w[j]} :: 0 <= j < |w| ==> w[j] == if j < k then s[j] else if j == k then x else s[j - 1]
    ensures Rings.Ring(w[1..], if pos == 0 then 0 else pos + 1) == Rings.InsertEnd(Rings.Ring(s[1..], pos), x)
  {
    if pos == 0 {
      assert w[1..] == s[1..] + [x];
    } else {
      assert w[1..] == s[1..][..pos - 1] + [x] + s[1..][pos - 1..];
    }
  }

  class ListItem {
    var value: Tick
    var next: ListItem?
    var prev: ListItem?
    var container: List?

    constructor (value: Tick)
      ensures this.value == value && container == null
    {
      this.value := value;
      next, prev, container := null, null, null;
    }
  }

  class List {
    const end: ListItem            // xListEnd
    var index: ListItem            // pxIndex
    var count: nat                 // uxNumberOfItems
    ghost var ring: seq<ListItem>  // the end marker followed by the items in link order
    ghost var pos: nat             // where `index` is in `ring`

    ghost predicate Valid()
      reads this, ring
    {
      && |ring| == count + 1 && ring[0] == end && Distinct(ring)
      && pos < |ring| && index == ring[pos]
      && end.value == MAX_DELAY
      && ring[count].next == end && end.prev == ring[count]
      && (forall k {:trigger ring[k].next} :: 0 <= k < count ==> ring[k].next == ring[k + 1])
      && (forall k {:trigger ring[k].prev} :: 1 <= k <= count ==> ring[k].prev == ring[k - 1])
      && (forall k {:trigger ring[k].container} :: 1 <= k <= count ==> ring[k].container == this)
    }

    /** The links of `was` but for those that leave `before` and come from `after`. */
    ghost predicate LinksBut(was: seq<ListItem>, before: ListItem, after: ListItem)
      reads this, was
    {
      && was != [] && was[0] == end && Distinct(was) && end.value == MAX_DELAY
      && (forall j {:trigger was[j].next} :: 0 <= j < |was| - 1 && was[j] != before ==> was[j].next == was[j + 1])
      && (forall j {:trigger was[j].prev} :: 1 <= j < |was| && was[j] != after ==> was[j].prev == was[j - 1])
      && (was[|was| - 1] != before ==> was[|was| - 1].next == end)
      && (end != after ==> end.prev == was[|was| - 1])
    }

    /** `x` is linked in at slot k of the ring `was`, between `before` and `after`. */
    ghost predicate LinkedIn(was: seq<ListItem>, k: nat, x: ListItem, before: ListItem, after: ListItem)
      reads this, was, x
    {
      && 1 <= k <= |was| == count && before == was[k - 1] && after == (if k < |was| then was[k] else end) && x !in was
      && LinksBut(was, before, after)
      && x.prev == before && before.next == x && x.container == this && x.next == after && after.prev == x
      && forall j {:trigger was[j].container} :: 1 <= j < |was| ==> was[j].container == this
    }

    /** Slot k of the ring `was` is bypassed, by links between `before` and `after`. */
    ghost predicate Bypassed(was: seq<ListItem>, k: nat, before: ListItem, after: ListItem)
      reads this, was
    {
      && 1 <= k < |was| == count + 2 && before == was[k - 1] && after == (if k + 1 < |was| then was[k + 1] else end)
      && LinksBut(was, before, after)
      && before.next == after && after.prev == before
      && forall j {:trigger was[j].container} :: 1 <= j < |was| && was[j] != was[k] ==> was[j].container == this
    }

    /** The links are consistent once `x` sits at slot k of the ring. */
    lemma Spliced(was: seq<ListItem>, k: nat, x: ListItem, before: ListItem, after: ListItem)
      requires LinkedIn(was, k, x, before, after) && |ring| == |was| + 1 && Distinct(ring) && pos < |ring| && index == ring[pos]
      requires forall j {:trigger ring[j]} :: 0 <= j <= count ==> ring[j] == if j < k then was[j] else if j == k then x else was[j - 1]
      ensures Valid()
    {
      DistinctIsNoDup(was);
      forall j | 0 <= j < count
        ensures ring[j].next == ring[j + 1]
      {
        if j > k { assert was[j - 1].next == was[j]; }
      }
      forall j | 1 <= j <= count
        ensures ring[j].prev == ring[j - 1]
      {
        if j > k + 1 { assert was[j - 1].prev == was[j - 2]; }
      }
      forall j | 1 <= j <= count
        ensures ring[j].container == this
      {
        if j > k { assert was[j - 1].container == this; }
      }
    }

    /** The same for a ring from which slot k was taken out. */
    lemma Unspliced(was: seq<ListItem>, k: nat, before: ListItem, after: ListItem)
      requires Bypassed(was, k, before, after) && |ring| == |was| - 1 && Distinct(ring) && pos < |ring| && index == ring[pos]
      requires forall j {:trigger ring[j]} :: 0 <= j <= count ==> ring[j] == if j < k then was[j] else was[j + 1]
      ensures Valid()
    {
      DistinctIsNoDup(was);
      forall j | 0 <= j < count
        ensures ring[j].next == ring[j + 1]
      {
        if j >= k { assert was[j + 1].next == was[j + 2]; }
      }
      forall j | 1 <= j <= count
        ensures ring[j].prev == ring[j - 1]
      {
        if j > k { assert was[j + 1].prev == was[j]; }
      }
      forall j | 1 <= j <= count
        ensures ring[j].container == this
      {
        if j >= k { assert was[j + 1].container == this; }
      }
    }

    /** What the links represent. */
    ghost function Abs(): Rings.Ring<ListItem>
      reads this
      requires |ring| > 0
    {
      Rings.Ring(ring[1..], pos)
    }

    /** `vListInitialise` */
    constructor ()
      ensures Valid() && fresh(end) && Abs() == Rings.Ring([], 0)
    {
      var marker := new ListItem(MAX_DELAY);
      end, index, count := marker, marker, 0;
      ring, pos := [marker], 0;
      new;
      end.next, end.prev := end, end;
    }

    /** The ghost ring after `x` has been linked in where the cursor is. */
    ghost method TakeInAtCursor(k: nat, x: ListItem, before: ListItem, after: ListItem)
      requires LinkedIn(ring, k, x, before, after) && pos < |ring| && index == ring[pos] && k == if pos == 0 then |ring| else pos
      modifies `ring, `pos
      ensures Valid() && Abs() == Rings.InsertEnd(old(Abs()), x)
    {
      var was := ring;
      ring := Splice(was, k, x);
      if pos != 0 {
        pos := pos + 1;
      }
      Spliced(was, k, x, before, after);
      SpliceIsInsertEnd(was, ring, old(pos), x);
    }

    /** `vListInsertEnd`: the new item becomes the last one the cursor reaches. */
    method InsertEnd(x: ListItem)
      requires Valid() && x !in ring && x.container == null
      modifies this, ring`next, ring`prev, x`next, x`prev, x`container
      ensures Valid() && Abs() == Rings.InsertEnd(old(Abs()), x)
      ensures x.container == this
    {
      DistinctIsNoDup(ring);
      var at := index;
      ghost var before := at.prev;
      x.next := at;
      x.prev := at.prev;
      at.prev.next := x;
      at.prev := x;
      x.container := this;
      count := count + 1;
      TakeInAtCursor(if pos == 0 then |ring| else pos, x, before, at);
    }

    /** The ghost ring after `x` has been linked in behind slot k. */
    ghost method TakeInAfter(k: nat, x: ListItem, before: ListItem, after: ListItem)
      requires LinkedIn(ring, k + 1, x, before, after) && pos < |ring| && index == ring[pos]
      modifies `ring, `pos
      ensures Valid() && Abs() == Rings.InsertAt(old(Abs()), k, x)
    {
      var was := ring;
      ring := Splice(was, k + 1, x);
      if pos > k {
        pos := pos + 1;
      }
      Spliced(was, k + 1, x, before, after);
      SpliceIsInsertAt(was, ring, k, old(pos), x);
    }

    /** The linking half of `vListInsert`. */
    method LinkAfter(at: ListItem, x: ListItem, ghost k: nat)
      requires Valid() && x !in ring && k < |ring| && at == ring[k]
      modifies this, ring`next, ring`prev, x`next, x`prev, x`container
      ensures Valid() && Abs() == Rings.InsertAt(old(Abs()), k, x) && x.container == this
    {
      DistinctIsNoDup(ring);
      var after := at.next;
      x.next := after;
      after.prev := x;
      x.prev := at;
      at.next := x;
      x.container := this;
      count := count + 1;
      TakeInAfter(k, x, at, after);
    }

    /** `vListInsert`: the new item goes before the first item of larger value,
      * so after every item of the same value.  The search ends for every value:
      * `portMAX_DELAY`, which the end marker also holds, does not enter the loop. */
    method Insert(x: ListItem) returns (ghost k: nat)
      requires Valid() && x !in ring && x.container == null
      modifies this, ring`next, ring`prev, x`next, x`prev, x`container
      ensures Valid() && k < |old(ring)| && Abs() == Rings.InsertAt(old(Abs()), k, x)
      ensures forall j :: 1 <= j <= k ==> old(ring)[j].value <= x.value
      ensures k + 1 < |old(ring)| ==> x.value < old(ring)[k + 1].value
      ensures x.container == this
    {
      var value := x.value;
      var at: ListItem;
      if value == MAX_DELAY {
        at := end.prev;
        k := |ring| - 1;
      } else {
        at := end;
        k := 0;
        while at.next.value <= value
          invariant k < |ring| && at == ring[k]
          invariant forall j {:trigger ring[j].value} :: 1 <= j <= k ==> ring[j].value <= value
          decreases |ring| - k
        {
          at := at.next;
          k := k + 1;
        }
      }
      LinkAfter(at, x, k);
    }

    /** The ghost ring after slot k has been bypassed. */
    ghost method TakeOut(k: nat, x: ListItem, before: ListItem, after: ListItem)
      requires Bypassed(ring, k, before, after) && x == ring[k] && pos < |ring| && index == ring[if pos == k then k - 1 else pos]
      modifies `ring, `pos
      ensures Valid() && x in old(Abs()).items && Abs() == Rings.Remove(old(Abs()), x)
    {
      var was := ring;
      ring := Cut(was, k);
      if pos >= k {
        pos := pos - 1;
      }
      Unspliced(was, k, before, after);
      CutIsRemove(was, ring, k, old(pos), x);
    }

    /** The unlinking half of `uxListRemove`. */
    method Unlink(x: ListItem, ghost k: nat)
      requires Valid() && 1 <= k < |ring| && x == ring[k]
      modifies this, ring`next, ring`prev, x`container
      ensures Valid() && x in old(Abs()).items && Abs() == Rings.Remove(old(Abs()), x)
      ensures x.container == null && count == old(count) - 1
    {
      DistinctIsNoDup(ring);
      var before, after := x.prev, x.next;
      after.prev := before;
      before.next := after;
      if index == x {
        index := before;
      }
      x.container := null;
      count := count - 1;
      TakeOut(k, x, before, after);
    }

    /** `uxListRemove` returns how many items are left. */
    method Remove(x: ListItem) returns (left: nat)
      requires Valid() && x in ring && x != end
      modifies this, ring`next, ring`prev, x`container
      ensures Valid() && x in old(Abs()).items && Abs() == Rings.Remove(old(Abs()), x)
      ensures x.container == null && left == |Abs().items|
    {
      Unlink(x, Rings.IndexOf(ring, x));
      left := count;
    }

    /** `listGET_OWNER_OF_NEXT_ENTRY` */
    method OwnerOfNextEntry() returns (x: ListItem)
      requires Valid() && count > 0
      modifies this
      ensures Valid() && ring == old(ring) && Abs() == Rings.Advance(old(Abs())) && x == Rings.Selected(Abs())
    {
      index := index.next;
      pos := if pos + 1 < |ring| then pos + 1 else 0;
      if index == end {
        index := index.next;
        pos := 1;
      }
      x := index;
    }
  }
}
