/** The lists the scheduler keeps tasks on.  Every task has two list items: a state
  * item (ready, delayed, suspended, termination lists) and an event item (event lists,
  * the pending-ready list).  A filing is one family of lists together with the
  * container pointer of each task's item in that family. */
module TaskLists {
  import Rings

  datatype Task = Task(id: nat)

  datatype Home<L> = Nowhere | In(list: L)

  datatype Filing<!L> = Filing(at: L -> Rings.Ring<Task>, home: Task -> Home<L>)

  function Set<K(==), V>(f: K -> V, k: K, v: V): K -> V {
    x => if x == k then v else f(x)
  }

  /** Each item is on exactly the list its container names. */
  ghost predicate Filed<L(!new)>(f: Filing<L>) {
    && (forall l :: Rings.Ok(f.at(l)))
    && (forall t, l {:trigger t in f.at(l).items} :: t in f.at(l).items ==> f.home(t) == In(l))
    && (forall t {:trigger f.home(t)} :: f.home(t).In? ==> t in f.at(f.home(t).list).items)
  }

  /** `uxListRemove` */
  function Take<L(==)>(f: Filing<L>, t: Task): Filing<L> {
    match f.home(t)
    case Nowhere => f
    case In(l) =>
      if t in f.at(l).items then Filing(Set(f.at, l, Rings.Remove(f.at(l), t)), Set(f.home, t, Nowhere)) else f
  }

  /** `vListInsertEnd` */
  function PutEnd<L(==)>(f: Filing<L>, l: L, t: Task): Filing<L> {
    if f.at(l).pos <= |f.at(l).items|
    then Filing(Set(f.at, l, Rings.InsertEnd(f.at(l), t)), Set(f.home, t, In(l)))
    else f
  }

  function Values(items: seq<Task>, value: Task -> int): (vals: seq<int>)
    ensures |vals| == |items| && forall i :: 0 <= i < |items| ==> vals[i] == value(items[i])
  {
    seq(|items|, i requires 0 <= i < |items| => value(items[i]))
  }

  /** `vListInsert`: after every item whose value is not larger. */
  function PutSorted<L(==)>(f: Filing<L>, l: L, t: Task, value: Task -> int): Filing<L> {
    var k := Rings.SortedSlot(Values(f.at(l).items, value), value(t));
    Filing(Set(f.at, l, Rings.InsertAt(f.at(l), k, t)), Set(f.home, t, In(l)))
  }

  ghost predicate SortedBy(items: seq<Task>, value: Task -> int) {
    forall i, j :: 0 <= i < j < |items| ==> value(items[i]) <= value(items[j])
  }

  lemma TakeOk<L(!new)>(f: Filing<L>, t: Task)
    requires Filed(f)
    ensures Filed(Take(f, t))
    ensures forall u :: Take(f, t).home(u) == if u == t then Nowhere else f.home(u)
    ensures forall l :: f.home(t) != In(l) ==> Take(f, t).at(l) == f.at(l)
  {
    if f.home(t).In? {
      assert t in f.at(f.home(t).list).items;
      Rings.RemoveOk(f.at(f.home(t).list), t);
    }
  }

  lemma PutEndOk<L(!new)>(f: Filing<L>, l: L, t: Task)
    requires Filed(f) && f.home(t) == Nowhere
    ensures Filed(PutEnd(f, l, t))
    ensures forall u :: PutEnd(f, l, t).home(u) == if u == t then In(l) else f.home(u)
    ensures forall m :: m != l ==> PutEnd(f, l, t).at(m) == f.at(m)
  {
    assert t !in f.at(l).items;
    Rings.InsertEndOk(f.at(l), t);
  }

  lemma PutSortedOk<L(!new)>(f: Filing<L>, l: L, t: Task, value: Task -> int)
    requires Filed(f) && f.home(t) == Nowhere
    ensures Filed(PutSorted(f, l, t, value))
    ensures forall u :: PutSorted(f, l, t, value).home(u) == if u == t then In(l) else f.home(u)
    ensures forall m :: m != l ==> PutSorted(f, l, t, value).at(m) == f.at(m)
  {
    assert t !in f.at(l).items;
    Rings.InsertAtOk(f.at(l), Rings.SortedSlot(Values(f.at(l).items, value), value(t)), t);
  }

  lemma SortedValues(items: seq<Task>, value: Task -> int, vals: seq<int>)
    requires |vals| == |items| && forall i {:trigger vals[i]} :: 0 <= i < |items| ==> vals[i] == value(items[i])
    ensures SortedBy(items, value) <==> Rings.Sorted(vals)
  {
    if Rings.Sorted(vals) {
      forall i, j | 0 <= i < j < |items|
        ensures value(items[i]) <= value(items[j])
      {
        assert vals[i] <= vals[j];
      }
    }
  }

  lemma PutSortedSorts<L(!new)>(f: Filing<L>, l: L, t: Task, value: Task -> int)
    requires SortedBy(f.at(l).items, value)
    ensures SortedBy(PutSorted(f, l, t, value).at(l).items, value)
  {
    var items := f.at(l).items;
    var vals := Values(items, value);
    var k := Rings.SortedSlot(vals, value(t));
    SortedValues(items, value, vals);
    Rings.SortedInsertIsStable(vals, value(t));
    SortedValues(items[..k] + [t] + items[k..], value, vals[..k] + [value(t)] + vals[k..]);
  }

  /** In a sorted list the new item comes after all whose value is not larger, so after those of equal value. */
  lemma PutSortedComesLast<L(!new)>(f: Filing<L>, l: L, t: Task, value: Task -> int)
    requires SortedBy(f.at(l).items, value)
    ensures var items, after := f.at(l).items, PutSorted(f, l, t, value).at(l).items;
            exists k :: 0 <= k <= |items| && after == items[..k] + [t] + items[k..] &&
                        forall i :: 0 <= i < |items| ==> (i < k <==> value(items[i]) <= value(t))
  {
    var items := f.at(l).items;
    var vals := Values(items, value);
    var k := Rings.SortedSlot(vals, value(t));
    SortedValues(items, value, vals);
    Rings.SortedInsertIsStable(vals, value(t));
    assert forall i :: 0 <= i < |items| ==> (i < k <==> vals[i] <= value(t));
  }

  lemma TakeStaysSorted<L(!new)>(f: Filing<L>, t: Task, l: L, value: Task -> int)
    requires Filed(f) && SortedBy(f.at(l).items, value)
    ensures SortedBy(Take(f, t).at(l).items, value)
  {
    TakeOk(f, t);
    if f.home(t) == In(l) {
      assert t in f.at(l).items;
    }
  }

  lemma EmptyOrInhabited<L(!new)>(f: Filing<L>, l: L)
    requires Filed(f)
    ensures f.at(l).items == [] || exists t :: f.home(t) == In(l)
  {
    if f.at(l).items != [] {
      var t := f.at(l).items[0];
      assert t in f.at(l).items && f.home(t) == In(l);
    }
  }

  /** The list m, to which the task does not go, loses at most the task. */
  lemma MoveEndOk<L(!new)>(f: Filing<L>, t: Task, l: L)
    requires Filed(f)
    ensures Filed(PutEnd(Take(f, t), l, t))
    ensures forall u :: PutEnd(Take(f, t), l, t).home(u) == if u == t then In(l) else f.home(u)
    ensures forall m :: m != l && f.home(t) != In(m) ==> PutEnd(Take(f, t), l, t).at(m) == f.at(m)
  {
    TakeOk(f, t);
    PutEndOk(Take(f, t), l, t);
  }

  lemma MoveEndStaysSorted<L(!new)>(f: Filing<L>, t: Task, l: L, m: L, value: Task -> int)
    requires Filed(f) && m != l && SortedBy(f.at(m).items, value)
    ensures SortedBy(PutEnd(Take(f, t), l, t).at(m).items, value)
  {
    TakeStaysSorted(f, t, m, value);
    TakeOk(f, t);
    PutEndOk(Take(f, t), l, t);
  }

  /** The values of tasks that are not on the list do not matter. */
  lemma SortedFrame(items: seq<Task>, value: Task -> int, value': Task -> int)
    requires SortedBy(items, value) && forall t :: t in items ==> value'(t) == value(t)
    ensures SortedBy(items, value')
  {
    assert forall i :: 0 <= i < |items| ==> items[i] in items;
  }

  /** Giving a task on no list a new value and filing it by that value. */
  lemma PutTimedStaysSorted<L(!new)>(f: Filing<L>, l: L, t: Task, value: Task -> int, v: int, m: L)
    requires Filed(f) && f.home(t) == Nowhere && SortedBy(f.at(m).items, value)
    ensures SortedBy(PutSorted(f, l, t, Set(value, t, v)).at(m).items, Set(value, t, v))
  {
    SortedFrame(f.at(m).items, value, Set(value, t, v));
    if m == l {
      PutSortedSorts(f, l, t, Set(value, t, v));
    }
  }

  // ---------------------------------------------------------------------------
  // Counting: the lengths of the lists add up to the number of filed tasks.
  // ---------------------------------------------------------------------------

  ghost function Lengths<L(!new)>(f: Filing<L>, ls: seq<L>): nat {
    if ls == [] then 0 else |f.at(ls[0]).items| + Lengths(f, ls[1..])
  }

  ghost function Members(s: seq<Task>): set<Task> {
    set t | t in s
  }

  ghost function On<L(!new)>(f: Filing<L>, ls: seq<L>): set<Task> {
    if ls == [] then {} else Members(f.at(ls[0]).items) + On(f, ls[1..])
  }

  lemma {:induction false} NoDupSize(s: seq<Task>)
    requires Rings.NoDup(s)
    ensures |Members(s)| == |s|
  {
    if s != [] {
      var rest := s[1..];
      NoDupSize(rest);
      assert s == [s[0]] + rest;
      assert Members(s) == {s[0]} + Members(rest);
      assert s[0] !in rest;
    }
  }

  lemma {:induction false} OnIsHome<L(!new)>(f: Filing<L>, ls: seq<L>, t: Task)
    requires Filed(f)
    ensures t in On(f, ls) <==> f.home(t).In? && f.home(t).list in ls
  {
    if ls != [] {
      OnIsHome(f, ls[1..], t);
      assert ls == [ls[0]] + ls[1..];
    }
  }

  lemma Disjoint<L(!new)>(f: Filing<L>, l: L, ls: seq<L>)
    requires Filed(f) && l !in ls
    ensures Members(f.at(l).items) !! On(f, ls)
  {
    forall t | t in f.at(l).items
      ensures t !in On(f, ls)
    {
      OnIsHome(f, ls, t);
    }
  }

  lemma {:induction false} LengthsCountTasks<L(!new)>(f: Filing<L>, ls: seq<L>)
    requires Filed(f) && Rings.NoDup(ls)
    ensures |On(f, ls)| == Lengths(f, ls)
  {
    if ls != [] {
      LengthsCountTasks(f, ls[1..]);
      NoDupSize(f.at(ls[0]).items);
      Disjoint(f, ls[0], ls[1..]);
    }
  }
}
