/** The circular list of `list.c` as a value: the items in link order starting
  * after the end marker, and the position of the cursor `pxIndex`.  Position 0
  * is the end marker, position k is the k-th item.  The heap model in module
  * KernelList is proved to behave as this value; the scheduler is written on it. */
module Rings {
  datatype Ring<T> = Ring(items: seq<T>, pos: nat)

  ghost predicate NoDup<T>(s: seq<T>) {
    forall i, j :: 0 <= i < j < |s| ==> s[i] != s[j]
  }

  ghost predicate Ok<T>(r: Ring<T>) {
    r.pos <= |r.items| && NoDup(r.items)
  }

  function IndexOf<T(==)>(s: seq<T>, x: T): (i: nat)
    requires x in s
    ensures i < |s| && s[i] == x
  {
    if s[0] == x then 0 else 1 + IndexOf(s[1..], x)
  }

  function Without<T(==)>(s: seq<T>, x: T): seq<T>
    requires x in s
  {
    s[..IndexOf(s, x)] + s[IndexOf(s, x) + 1..]
  }

  /** The new item goes immediately before the cursor. */
  function InsertEnd<T>(r: Ring<T>, x: T): Ring<T>
    requires r.pos <= |r.items|
  {
    if r.pos == 0 then Ring(r.items + [x], 0)
    else Ring(r.items[..r.pos - 1] + [x] + r.items[r.pos - 1..], r.pos + 1)
  }

  /** Insertion at index k leaves the cursor on the item it was on. */
  function InsertAt<T>(r: Ring<T>, k: nat, x: T): Ring<T>
    requires k <= |r.items|
  {
    Ring(r.items[..k] + [x] + r.items[k..], if r.pos > k then r.pos + 1 else r.pos)
  }

  /** A cursor on the removed item moves back to its predecessor. */
  function Remove<T(==)>(r: Ring<T>, x: T): Ring<T>
    requires x in r.items
  {
    Ring(Without(r.items, x), if r.pos > IndexOf(r.items, x) then r.pos - 1 else r.pos)
  }

  /** The cursor advances to the next item, skipping the end marker. */
  function Advance<T>(r: Ring<T>): Ring<T>
    requires r.items != []
  {
    Ring(r.items, if r.pos < |r.items| then r.pos + 1 else 1)
  }

  function Selected<T>(r: Ring<T>): T
    requires 0 < r.pos <= |r.items|
  {
    r.items[r.pos - 1]
  }

  lemma WithoutMembers<T>(s: seq<T>, x: T)
    requires x in s && NoDup(s)
    ensures NoDup(Without(s, x)) && |Without(s, x)| == |s| - 1
    ensures x !in Without(s, x)
    ensures forall y :: y in Without(s, x) <==> y in s && y != x
  {
    var i := IndexOf(s, x);
    var w := Without(s, x);
    assert forall k :: 0 <= k < |w| ==> w[k] == s[if k < i then k else k + 1];
    forall y | y in s && y != x
      ensures y in w
    {
      var k := IndexOf(s, y);
      assert w[if k < i then k else k - 1] == y;
    }
  }

  lemma RemoveOk<T>(r: Ring<T>, x: T)
    requires Ok(r) && x in r.items
    ensures Ok(Remove(r, x)) && |Remove(r, x).items| == |r.items| - 1
    ensures forall y :: y in Remove(r, x).items <==> y in r.items && y != x
  {
    WithoutMembers(r.items, x);
  }

  lemma InsertAtMembers<T>(s: seq<T>, k: nat, x: T)
    requires k <= |s| && NoDup(s) && x !in s
    ensures var w := s[..k] + [x] + s[k..]; NoDup(w) && |w| == |s| + 1 && forall y :: y in w <==> y in s || y == x
  {
    var w := s[..k] + [x] + s[k..];
    assert forall i :: 0 <= i < |w| ==> w[i] == if i < k then s[i] else if i == k then x else s[i - 1];
    forall y | y in s
      ensures y in w
    {
      var i := IndexOf(s, y);
      assert w[if i < k then i else i + 1] == y;
    }
    assert w[k] == x;
  }

  lemma InsertAtOk<T>(r: Ring<T>, k: nat, x: T)
    requires Ok(r) && k <= |r.items| && x !in r.items
    ensures Ok(InsertAt(r, k, x)) && |InsertAt(r, k, x).items| == |r.items| + 1
    ensures forall y :: y in InsertAt(r, k, x).items <==> y in r.items || y == x
  {
    InsertAtMembers(r.items, k, x);
  }

  lemma InsertEndOk<T>(r: Ring<T>, x: T)
    requires Ok(r) && x !in r.items
    ensures Ok(InsertEnd(r, x)) && |InsertEnd(r, x).items| == |r.items| + 1
    ensures forall y :: y in InsertEnd(r, x).items <==> y in r.items || y == x
  {
    if r.pos == 0 {
      InsertAtMembers(r.items, |r.items|, x);
      assert r.items + [x] == r.items[..|r.items|] + [x] + r.items[|r.items|..];
    } else {
      InsertAtMembers(r.items, r.pos - 1, x);
    }
  }

  // ---------------------------------------------------------------------------
  // Sorted insertion.
  // ---------------------------------------------------------------------------

  /** Where `vListInsert` stops: before the first item whose value is larger. */
  function SortedSlot(vals: seq<int>, v: int): (k: nat)
    ensures k <= |vals|
    ensures forall i :: 0 <= i < k ==> vals[i] <= v
    ensures k < |vals| ==> v < vals[k]
  {
    if vals == [] || v < vals[0] then 0 else 1 + SortedSlot(vals[1..], v)
  }

  ghost predicate Sorted(vals: seq<int>) {
    forall i, j :: 0 <= i < j < |vals| ==> vals[i] <= vals[j]
  }

  /** A sorted list stays sorted, and the new item follows every item of equal value. */
  lemma SortedInsertIsStable(vals: seq<int>, v: int)
    requires Sorted(vals)
    ensures var k := SortedSlot(vals, v); var w := vals[..k] + [v] + vals[k..];
            Sorted(w) && (forall i :: 0 <= i < |vals| ==> (i < k <==> vals[i] <= v))
  {
  }

  // ---------------------------------------------------------------------------
  // Fair rotation under arbitrary insertions and removals.
  // ---------------------------------------------------------------------------

  datatype Op<T> = Select | Append(x: T) | Drop(x: T)

  ghost predicate Legal<T>(r: Ring<T>, op: Op<T>) {
    match op
    case Select => r.items != []
    case Append(x) => x !in r.items
    case Drop(x) => x in r.items
  }

  function Apply<T(==)>(r: Ring<T>, op: Op<T>): Ring<T>
    requires r.pos <= |r.items| && Legal(r, op)
  {
    match op
    case Select => Advance(r)
    case Append(x) => InsertEnd(r, x)
    case Drop(x) => Remove(r, x)
  }

  lemma ApplyOk<T>(r: Ring<T>, op: Op<T>)
    requires Ok(r) && Legal(r, op)
    ensures Ok(Apply(r, op))
  {
    match op
    case Select =>
    case Append(x) => InsertEndOk(r, x);
    case Drop(x) => RemoveOk(r, x);
  }

  /** The operations of a run are all legal when their turn comes. */
  ghost predicate LegalRun<T>(r: Ring<T>, ops: seq<Op<T>>)
    requires Ok(r)
    decreases |ops|
  {
    ops == [] || (Legal(r, ops[0]) && (ApplyOk(r, ops[0]); LegalRun(Apply(r, ops[0]), ops[1..])))
  }

  /** The items chosen by the selections of a run, in order. */
  ghost function Picks<T>(r: Ring<T>, ops: seq<Op<T>>): seq<T>
    requires Ok(r) && LegalRun(r, ops)
    decreases |ops|
  {
    if ops == [] then []
    else
      ApplyOk(r, ops[0]);
      var rest := Picks(Apply(r, ops[0]), ops[1..]);
      if ops[0].Select? then [Selected(Advance(r))] + rest else rest
  }

  /** How many other items the cursor passes before it reaches `x`. */
  function Lead<T(==)>(r: Ring<T>, x: T): int
    requires x in r.items
  {
    var i := IndexOf(r.items, x);
    if i >= r.pos then i - r.pos else i - r.pos + |r.items|
  }

  ghost predicate Ahead<T>(r: Ring<T>, b: T, a: T) {
    a in r.items && b in r.items && Lead(r, b) < Lead(r, a)
  }

  lemma IndexUnique<T>(s: seq<T>, i: nat, x: T)
    requires NoDup(s) && i < |s| && s[i] == x
    ensures x in s && IndexOf(s, x) == i
  {
  }

  lemma IndexAfterInsert<T>(s: seq<T>, k: nat, x: T, y: T)
    requires k <= |s| && NoDup(s) && x !in s && y in s
    ensures var w := s[..k] + [x] + s[k..];
            y in w && IndexOf(w, y) == if IndexOf(s, y) < k then IndexOf(s, y) else IndexOf(s, y) + 1
  {
    InsertAtMembers(s, k, x);
    var w, i := s[..k] + [x] + s[k..], IndexOf(s, y);
    var j := if i < k then i else i + 1;
    assert w[j] == y;
    IndexUnique(w, j, y);
  }

  lemma IndexAfterCut<T>(s: seq<T>, x: T, y: T)
    requires NoDup(s) && x in s && y in s && x != y
    ensures y in Without(s, x)
    ensures IndexOf(Without(s, x), y) == if IndexOf(s, y) < IndexOf(s, x) then IndexOf(s, y) else IndexOf(s, y) - 1
  {
    WithoutMembers(s, x);
    var i := IndexOf(s, y);
    IndexUnique(Without(s, x), if i < IndexOf(s, x) then i else i - 1, y);
  }

  lemma AppendKeepsOrder<T>(r: Ring<T>, x: T, a: T, b: T)
    requires Ok(r) && x !in r.items && Ahead(r, b, a)
    ensures Ahead(InsertEnd(r, x), b, a)
  {
    var k := if r.pos == 0 then |r.items| else r.pos - 1;
    assert InsertEnd(r, x).items == r.items[..k] + [x] + r.items[k..];
    IndexAfterInsert(r.items, k, x, a);
    IndexAfterInsert(r.items, k, x, b);
  }

  lemma LeadAfterAppend<T>(r: Ring<T>, x: T, b: T)
    requires Ok(r) && x !in r.items && b in r.items
    ensures var w, k := InsertEnd(r, x), if r.pos == 0 then |r.items| else r.pos - 1;
            && x in w.items && IndexOf(w.items, x) == k && |w.items| == |r.items| + 1
            && b in w.items && IndexOf(w.items, b) == if IndexOf(r.items, b) < k then IndexOf(r.items, b) else IndexOf(r.items, b) + 1
  {
    var k := if r.pos == 0 then |r.items| else r.pos - 1;
    var w := InsertEnd(r, x).items;
    assert w == r.items[..k] + [x] + r.items[k..];
    InsertAtMembers(r.items, k, x);
    IndexAfterInsert(r.items, k, x, b);
    IndexUnique(w, k, x);
  }

  /** A new item comes after all others, but for the one the cursor is on, which was selected last. */
  lemma AppendGoesLast<T>(r: Ring<T>, x: T, b: T)
    requires Ok(r) && x !in r.items && b in r.items && !(r.pos > 0 && Selected(r) == b)
    ensures Ahead(InsertEnd(r, x), b, x)
  {
    LeadAfterAppend(r, x, b);
  }

  /** The cursor stays on the item it is on, so an item just inserted at the end is not the one selected last. */
  lemma AppendKeepsSelected<T>(r: Ring<T>, x: T)
    requires Ok(r)
    ensures var w := InsertEnd(r, x); 0 < w.pos <==> 0 < r.pos
    ensures var w := InsertEnd(r, x); w.pos <= |w.items| && (r.pos > 0 ==> Selected(w) == Selected(r) && Selected(w) in r.items)
  {
    if r.pos > 0 { assert InsertEnd(r, x).items[r.pos] == r.items[r.pos - 1]; }
  }

  lemma DropKeepsOrder<T>(r: Ring<T>, x: T, a: T, b: T)
    requires Ok(r) && x in r.items && x != a && x != b && Ahead(r, b, a)
    ensures Ahead(Remove(r, x), b, a)
  {
    IndexAfterCut(r.items, x, a);
    IndexAfterCut(r.items, x, b);
  }

  /** A selection takes the item with no lead; afterwards it has the largest lead. */
  lemma SelectTakesTheLeader<T>(r: Ring<T>, y: T)
    requires Ok(r) && y in r.items
    ensures Selected(Advance(r)) == y <==> Lead(r, y) == 0
    ensures Lead(Advance(r), y) == if Lead(r, y) == 0 then |r.items| - 1 else Lead(r, y) - 1
  {
    var p := Advance(r).pos - 1;
    IndexUnique(r.items, p, r.items[p]);
  }

  lemma StaysOut<T>(ops: seq<Op<T>>, op: Op<T>)
    requires ops != [] && op !in ops
    ensures op !in ops[1..] && ops[0] != op
  {
  }

  /** While `b` is ahead of `a`, `a` is not selected before `b`. */
  lemma {:induction false} AheadIsPickedFirst<T>(r: Ring<T>, ops: seq<Op<T>>, a: T, b: T, i: nat) returns (j: nat)
    requires Ok(r) && LegalRun(r, ops) && Drop(a) !in ops && Drop(b) !in ops && Ahead(r, b, a)
    requires i < |Picks(r, ops)| && Picks(r, ops)[i] == a
    ensures j < i && Picks(r, ops)[j] == b
    decreases |ops|
  {
    ApplyOk(r, ops[0]);
    StaysOut(ops, Drop(a));
    StaysOut(ops, Drop(b));
    var r' := Apply(r, ops[0]);
    match ops[0]
    case Append(x) =>
      AppendKeepsOrder(r, x, a, b);
      j := AheadIsPickedFirst(r', ops[1..], a, b, i);
    case Drop(x) =>
      DropKeepsOrder(r, x, a, b);
      j := AheadIsPickedFirst(r', ops[1..], a, b, i);
    case Select =>
      SelectTakesTheLeader(r, a);
      SelectTakesTheLeader(r, b);
      if Selected(r') == b {
        j := 0;
      } else {
        j := AheadIsPickedFirst(r', ops[1..], a, b, i - 1);
        j := j + 1;
      }
  }

  /** Over any run of selections, appends and removals that keeps `a` and `b`
    * in the list, `b` is selected between any two selections of `a`. */
  lemma {:induction false} NobodyIsPickedTwiceInARow<T>(r: Ring<T>, ops: seq<Op<T>>, a: T, b: T, i: nat, k: nat)
    returns (j: nat)
    requires Ok(r) && LegalRun(r, ops) && Drop(a) !in ops && Drop(b) !in ops
    requires a != b && a in r.items && b in r.items
    requires i < k < |Picks(r, ops)| && Picks(r, ops)[i] == a && Picks(r, ops)[k] == a
    ensures i < j < k && Picks(r, ops)[j] == b
    decreases |ops|
  {
    ApplyOk(r, ops[0]);
    StaysOut(ops, Drop(a));
    StaysOut(ops, Drop(b));
    var r' := Apply(r, ops[0]);
    match ops[0]
    case Append(x) =>
      InsertEndOk(r, x);
      j := NobodyIsPickedTwiceInARow(r', ops[1..], a, b, i, k);
    case Drop(x) =>
      RemoveOk(r, x);
      j := NobodyIsPickedTwiceInARow(r', ops[1..], a, b, i, k);
    case Select =>
      if i == 0 {
        SelectTakesTheLeader(r, a);
        SelectTakesTheLeader(r, b);
        j := AheadIsPickedFirst(r', ops[1..], a, b, k - 1);
      } else {
        j := NobodyIsPickedTwiceInARow(r', ops[1..], a, b, i - 1, k - 1);
      }
      j := j + 1;
  }
}
