/** The ring of queue.c: items of a fixed number of bytes copied into and out of a storage
  * area at two byte offsets, proved to be a bounded double-ended queue. */
module QueueRing {
  import opened Bytes

  type Item = seq<Byte>

  datatype Position = SendToBack | SendToFront | Overwrite

  // ---------------------------------------------------------------------------
  // The ring over slots.
  // ---------------------------------------------------------------------------

  /** The slot before the first item is r; the items follow it cyclically. */
  function Items(slots: seq<Item>, r: int, count: int): (items: seq<Item>)
    requires 0 <= r < |slots| && 0 <= count <= |slots|
    ensures |items| == count && forall i :: 0 <= i < count ==> items[i] == slots[Wrap(r + 1 + i, |slots|)]
  {
    seq(count, i requires 0 <= i < count => slots[Wrap(r + 1 + i, |slots|)])
  }

  /** Moving the read position changes neither the write position nor, going back, the items. */
  lemma WrapShifts(r: int, count: int, n: int)
    requires 0 <= r < n && 0 <= count <= n
    ensures count > 0 ==> Wrap(Wrap(r + 1, n) + 1 + (count - 1), n) == Wrap(r + 1 + count, n)
    ensures count < n ==> Wrap(Wrap(r + n - 1, n) + 1 + (count + 1), n) == Wrap(r + 1 + count, n)
    ensures count < n ==> Wrap(Wrap(r + 1 + count, n) + 1, n) == Wrap(r + 1 + (count + 1), n)
  {
  }

  lemma BackAppends(slots: seq<Item>, r: int, count: int, x: Item)
    requires 0 <= r < |slots| && 0 <= count < |slots|
    ensures Items(slots[Wrap(r + 1 + count, |slots|) := x], r, count + 1) == Items(slots, r, count) + [x]
  {
    var after, before := Items(slots[Wrap(r + 1 + count, |slots|) := x], r, count + 1), Items(slots, r, count);
    assert forall i :: 0 <= i < count ==> after[i] == before[i];
  }

  lemma FrontPrepends(slots: seq<Item>, r: int, count: int, x: Item)
    requires 0 <= r < |slots| && 0 <= count < |slots|
    ensures Items(slots[r := x], Wrap(r + |slots| - 1, |slots|), count + 1) == [x] + Items(slots, r, count)
  {
    var after, before := Items(slots[r := x], Wrap(r + |slots| - 1, |slots|), count + 1), Items(slots, r, count);
    assert forall i :: 0 <= i < count ==> after[i + 1] == before[i];
  }

  /** Overwriting the one item of a full queue of length 1 is sending to an empty one. */
  lemma FrontOverwrites(slots: seq<Item>, x: Item)
    requires |slots| == 1
    ensures Items(slots[0 := x], 0, 1) == [x]
  {
  }

  lemma ReadPops(slots: seq<Item>, r: int, count: int)
    requires 0 <= r < |slots| && 0 < count <= |slots|
    ensures Items(slots, r, count) == [slots[Wrap(r + 1, |slots|)]] + Items(slots, Wrap(r + 1, |slots|), count - 1)
  {
    var before, after := Items(slots, r, count), Items(slots, Wrap(r + 1, |slots|), count - 1);
    assert forall i :: 0 <= i < count - 1 ==> after[i] == before[i + 1];
  }

  // ---------------------------------------------------------------------------
  // Slots in bytes.
  // ---------------------------------------------------------------------------

  lemma SlotsInOrder(j: int, k: int, size: int)
    requires 0 <= j < k && 0 < size
    ensures 0 <= j * size && j * size + size <= k * size
  {
    if j + 1 < k {
      SlotsInOrder(j, k - 1, size);
    }
    assert (k - 1) * size == k * size - size;
  }

  /** Slot k of the storage area holds item k. */
  ghost predicate Stored(bytes: seq<Byte>, slots: seq<Item>, size: int)
    requires 0 < size
  {
    && |bytes| == |slots| * size
    && forall k {:trigger slots[k]} :: 0 <= k < |slots| ==> Holds(bytes, k * size, slots[k], size)
  }

  ghost predicate Holds(bytes: seq<Byte>, offset: int, x: Item, size: int) {
    |x| == size && 0 <= offset && offset + size <= |bytes| && bytes[offset..offset + size] == x
  }

  lemma StoreSlot(bytes: seq<Byte>, after: seq<Byte>, slots: seq<Item>, k: int, x: Item, size: int)
    requires 0 < size == |x| && 0 <= k < |slots| && Stored(bytes, slots, size)
    requires |after| == |bytes| && Holds(after, k * size, x, size)
    requires forall i :: 0 <= i < |bytes| && !(k * size <= i < k * size + size) ==> after[i] == bytes[i]
    ensures Stored(after, slots[k := x], size)
  {
    forall j | 0 <= j < |slots| && j != k
      ensures Holds(after, j * size, slots[j], size)
    {
      if j < k { SlotsInOrder(j, k, size); } else { SlotsInOrder(k, j, size); }
      assert Holds(bytes, j * size, slots[j], size);
      assert after[j * size..j * size + size] == bytes[j * size..j * size + size];
    }
  }

  /** Stepping a byte offset by one item and wrapping it at the end of the storage area. */
  lemma StepForward(w: int, length: int, size: int)
    requires 0 <= w < length && 0 < size
    ensures w * size + size >= length * size <==> w + 1 == length
    ensures Wrap(w + 1, length) * size == if w * size + size >= length * size then 0 else w * size + size
  {
    if w + 1 < length { SlotsInOrder(w + 1, length, size); }
    assert (w + 1) * size == w * size + size;
  }

  lemma StepBack(r: int, length: int, size: int)
    requires 0 <= r < length && 0 < size
    ensures r * size - size < 0 <==> r == 0
    ensures Wrap(r + length - 1, length) * size == if r * size - size < 0 then length * size - size else r * size - size
  {
    if r > 0 { SlotsInOrder(r - 1, r, size); }
    assert (r - 1) * size == r * size - size;
    assert (length - 1) * size == length * size - size;
  }

  class Queue {
    const length: int
    const itemSize: int
    const storage: array<Byte>
    var writeTo: int          // pcWriteTo - pcHead
    var readFrom: int         // pcReadFrom - pcHead
    var messagesWaiting: int
    ghost var slots: seq<Item>
    ghost var r: int

    ghost predicate Valid()
      reads this, storage
    {
      && 0 < length && 0 < itemSize && |slots| == length
      && 0 <= r < length && 0 <= messagesWaiting <= length
      && Stored(storage[..], slots, itemSize)
      && readFrom == r * itemSize
      && writeTo == Wrap(r + 1 + messagesWaiting, length) * itemSize
    }

    ghost function Contents(): seq<Item>
      requires Valid()
      reads this, storage
    {
      Items(slots, r, messagesWaiting)
    }

    constructor (length: int, itemSize: int)
      requires 0 < length && 0 < itemSize
      ensures Valid() && fresh(storage) && this.length == length && this.itemSize == itemSize && Contents() == []
    {
      this.length := length;
      this.itemSize := itemSize;
      storage := new Byte[length * itemSize](_ => 0);
      writeTo := 0;
      readFrom := (length - 1) * itemSize;
      messagesWaiting := 0;
      r := length - 1;
      slots := seq(length, _ => seq(itemSize, _ => 0));
      new;
      forall k | 0 <= k < length
        ensures Holds(storage[..], k * itemSize, slots[k], itemSize)
      {
        SlotsInOrder(k, length, itemSize);
        assert storage[..][k * itemSize..k * itemSize + itemSize] == slots[k];
      }
    }

    /** `xQueueGenericReset`, as far as the ring is concerned. */
    method Reset()
      requires Valid()
      modifies this
      ensures Valid() && Contents() == []
    {
      messagesWaiting := 0;
      writeTo := 0;
      readFrom := (length - 1) * itemSize;
      r := length - 1;
    }

    /** Store an item in slot k. */
    method Put(ghost k: int, offset: int, item: Item)
      requires Valid() && 0 <= k < length && offset == k * itemSize && |item| == itemSize
      modifies storage, `slots
      ensures Valid() && slots == old(slots)[k := item]
    {
      ghost var before := storage[..];
      SlotsInOrder(k, length, itemSize);
      CopyIn(storage, offset, item);
      StoreSlot(before, storage[..], slots, k, item, itemSize);
      slots := slots[k := item];
    }

    method CopyToBack(item: Item)
      requires Valid() && |item| == itemSize && messagesWaiting < length
      modifies this, storage
      ensures Valid() && Contents() == old(Contents()) + [item]
    {
      ghost var w := Wrap(r + 1 + messagesWaiting, length);
      BackAppends(slots, r, messagesWaiting, item);
      WrapShifts(r, messagesWaiting, length);
      StepForward(w, length, itemSize);
      Put(w, writeTo, item);
      writeTo := writeTo + itemSize;
      if writeTo >= storage.Length {
        writeTo := 0;
      }
      messagesWaiting := messagesWaiting + 1;
    }

    /** Writes at the read position and moves it back. */
    method CopyBehindRead(item: Item)
      requires Valid() && |item| == itemSize
      modifies storage, `slots, `readFrom
      ensures Stored(storage[..], slots, itemSize) && slots == old(slots)[r := item]
      ensures readFrom == Wrap(r + length - 1, length) * itemSize
    {
      StepBack(r, length, itemSize);
      Put(r, readFrom, item);
      readFrom := readFrom - itemSize;
      if readFrom < 0 {
        readFrom := storage.Length - itemSize;
      }
    }

    method CopyToFront(item: Item, overwrite: bool)
      requires Valid() && |item| == itemSize && (messagesWaiting < length || overwrite) && (overwrite ==> length == 1)
      modifies this, storage
      ensures Valid() && Contents() == if overwrite then [item] else [item] + old(Contents())
    {
      if messagesWaiting < length {
        FrontPrepends(slots, r, messagesWaiting, item);
        WrapShifts(r, messagesWaiting, length);
      }
      if length == 1 {
        FrontOverwrites(slots, item);
      }
      CopyBehindRead(item);
      r := Wrap(r + length - 1, length);
      var waiting := messagesWaiting;
      if overwrite && waiting > 0 {
        waiting := waiting - 1;
      }
      messagesWaiting := waiting + 1;
    }

    /** `prvCopyDataToQueue` for items of at least one byte */
    method CopyDataToQueue(item: Item, position: Position)
      requires Valid() && |item| == itemSize
      requires messagesWaiting < length || position.Overwrite?
      requires position.Overwrite? ==> length == 1
      modifies this, storage
      ensures Valid()
      ensures Contents() == match position
                            case SendToBack => old(Contents()) + [item]
                            case SendToFront => [item] + old(Contents())
                            case Overwrite => [item]
    {
      if position.SendToBack? {
        CopyToBack(item);
      } else {
        CopyToFront(item, position.Overwrite?);
      }
    }

    /** `prvCopyDataFromQueue`: the read offset moves on, the count is the caller's. */
    method CopyDataFromQueue() returns (item: Item)
      requires Valid() && messagesWaiting > 0
      modifies `readFrom
      ensures item == old(Contents()[0])
      ensures readFrom == Wrap(r + 1, length) * itemSize
    {
      StepForward(r, length, itemSize);
      readFrom := readFrom + itemSize;
      if readFrom >= storage.Length {
        readFrom := 0;
      }
      ghost var k := Wrap(r + 1, length);
      assert Holds(storage[..], k * itemSize, slots[k], itemSize);
      item := storage[readFrom..readFrom + itemSize];
    }

    /** `xQueueGenericSend` with no block time */
    method Send(item: Item, position: Position) returns (sent: bool)
      requires Valid() && |item| == itemSize && (position.Overwrite? ==> length == 1)
      modifies this, storage
      ensures Valid()
      ensures sent <==> old(|Contents()|) < length || position.Overwrite?
      ensures Contents() == if !sent then old(Contents())
                            else match position
                                 case SendToBack => old(Contents()) + [item]
                                 case SendToFront => [item] + old(Contents())
                                 case Overwrite => [item]
    {
      sent := messagesWaiting < length || position.Overwrite?;
      if sent {
        CopyDataToQueue(item, position);
      }
    }

    /** The first item leaves: the write position stays where it is. */
    method TakeFirst() returns (item: Item)
      requires Valid() && messagesWaiting > 0
      modifies `readFrom, `messagesWaiting, `r
      ensures Valid() && old(Contents()) == [item] + Contents()
    {
      ghost var w := Wrap(r + 1 + messagesWaiting, length);
      assert writeTo == w * itemSize;
      ReadPops(slots, r, messagesWaiting);
      WrapShifts(r, messagesWaiting, length);
      item := CopyDataFromQueue();
      messagesWaiting := messagesWaiting - 1;
      r := Wrap(r + 1, length);
      assert Wrap(r + 1 + messagesWaiting, length) == w;
    }

    /** `xQueueReceive` with no block time */
    method Receive() returns (received: bool, item: Item)
      requires Valid()
      modifies `readFrom, `messagesWaiting, `r
      ensures Valid()
      ensures received <==> old(Contents()) != []
      ensures if received then old(Contents()) == [item] + Contents() else Contents() == old(Contents())
    {
      received, item := messagesWaiting > 0, [];
      if received {
        item := TakeFirst();
      }
    }

    /** `xQueuePeek` with no block time: the read offset is put back. */
    method Peek() returns (received: bool, item: Item)
      requires Valid()
      modifies `readFrom
      ensures Valid() && readFrom == old(readFrom) && Contents() == old(Contents())
      ensures received <==> Contents() != []
      ensures received ==> item == Contents()[0]
    {
      received, item := messagesWaiting > 0, [];
      if received {
        var originalReadPosition := readFrom;
        item := CopyDataFromQueue();
        readFrom := originalReadPosition;
      }
    }
  }
}
