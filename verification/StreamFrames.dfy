/** What stream and message buffers are made of: the two distances on the ring in size_t
  * arithmetic, the bytes between tail and head, and messages framed by their length. */
module StreamFrames {
  import opened Bytes
  import opened Words

  /** A buffer is shorter than half the address space. */
  predicate Positions(head: int, tail: int, length: int) {
    0 <= head < length <= WRAP / 2 && 0 <= tail < length
  }

  /** `prvBytesInBuffer` */
  function BytesBetween(head: int, tail: int, length: int): (count: int)
    requires Positions(head, tail, length)
    ensures 0 <= count < length && head == Wrap(tail + count, length)
  {
    var count := Minus(Plus(length, head), tail);
    if count >= length then Minus(count, length) else count
  }

  /** `xStreamBufferSpacesAvailable` */
  function SpaceBetween(head: int, tail: int, length: int): (space: int)
    requires Positions(head, tail, length)
    ensures 0 <= space < length && head == Wrap(tail + (length - 1 - space), length)
  {
    var space := Minus(Minus(Plus(length, tail), head), 1);
    if space >= length then Minus(space, length) else space
  }

  /** Space and bytes always add up to the capacity, across every wrap. */
  lemma SpacePlusBytes(head: int, tail: int, length: int)
    requires Positions(head, tail, length)
    ensures SpaceBetween(head, tail, length) + BytesBetween(head, tail, length) == length - 1
  {
  }

  lemma BytesUnique(head: int, tail: int, length: int, count: int)
    requires Positions(head, tail, length) && 0 <= count < length && head == Wrap(tail + count, length)
    ensures BytesBetween(head, tail, length) == count
  {
  }

  /** count bytes of the storage area from position tail, cyclically */
  function Window(bytes: seq<Byte>, tail: int, count: int): (w: seq<Byte>)
    requires 0 <= tail < |bytes| && 0 <= count <= |bytes|
    ensures |w| == count && forall i :: 0 <= i < count ==> w[i] == bytes[Wrap(tail + i, |bytes|)]
  {
    seq(count, i requires 0 <= i < count => bytes[Wrap(tail + i, |bytes|)])
  }

  lemma WindowDrops(bytes: seq<Byte>, tail: int, count: int, n: int)
    requires 0 <= tail < |bytes| && 0 <= n <= count <= |bytes|
    ensures Window(bytes, tail, n) == Window(bytes, tail, count)[..n]
    ensures Window(bytes, Wrap(tail + n, |bytes|), count - n) == Window(bytes, tail, count)[n..]
  {
    var w := Window(bytes, tail, count);
    assert forall i :: 0 <= i < count - n ==> Window(bytes, Wrap(tail + n, |bytes|), count - n)[i] == w[n..][i];
  }

  /** Moving the tail on takes bytes off the front. */
  lemma TakeOff(bytes: seq<Byte>, head: int, tail: int, length: int, n: int)
    requires Positions(head, tail, length) && |bytes| == length && 0 <= n <= BytesBetween(head, tail, length)
    ensures var count := BytesBetween(head, tail, length);
            BytesBetween(head, Wrap(tail + n, length), length) == count - n &&
            Window(bytes, tail, count) == Window(bytes, tail, n) + Window(bytes, Wrap(tail + n, length), count - n)
  {
    var count := BytesBetween(head, tail, length);
    WrapAdds(tail, n, count - n, length);
    BytesUnique(head, Wrap(tail + n, length), length, count - n);
    WindowDrops(bytes, tail, count, n);
  }

  lemma WrapAdds(o: int, n: int, k: int, length: int)
    requires 0 <= o < length && 0 <= n && 0 <= k && n + k <= length
    ensures Wrap(Wrap(o + n, length) + k, length) == Wrap(o + (n + k), length)
  {
  }

  /** A byte stored beyond the window does not change it; stored next to it, it extends it. */
  lemma WindowStore(bytes: seq<Byte>, tail: int, count: int, d: int, x: Byte)
    requires 0 <= tail < |bytes| && 0 <= count <= d < |bytes|
    ensures var after := bytes[Wrap(tail + d, |bytes|) := x];
            Window(after, tail, count) == Window(bytes, tail, count) &&
            (d == count ==> Window(after, tail, count + 1) == Window(bytes, tail, count) + [x])
  {
    var after := bytes[Wrap(tail + d, |bytes|) := x];
    assert forall i :: 0 <= i < count ==> Window(after, tail, count)[i] == Window(bytes, tail, count)[i];
  }

  /** A window is two blocks: up to the end of the storage area, and from its start. */
  lemma WindowInBlocks(bytes: seq<Byte>, tail: int, count: int)
    requires 0 <= tail < |bytes| && 0 <= count <= |bytes|
    ensures var k := Min(|bytes| - tail, count); Window(bytes, tail, count) == bytes[tail..tail + k] + bytes[..count - k]
  {
  }

  /** Writing after the last byte appends. */
  lemma WindowGrows(before: seq<Byte>, after: seq<Byte>, tail: int, count: int, data: seq<Byte>)
    requires 0 <= tail < |before| == |after| && 0 <= count && count + |data| <= |before|
    requires Window(after, Wrap(tail + count, |after|), |data|) == data
    requires Window(after, tail, count) == Window(before, tail, count)
    ensures Window(after, tail, count + |data|) == Window(before, tail, count) + data
  {
    WindowDrops(after, tail, count + |data|, count);
  }

  // ---------------------------------------------------------------------------
  // Framing.
  // ---------------------------------------------------------------------------

  type Message = m: seq<Byte> | 0 < |m| < WRAP - WORD_BYTES witness [0]

  function Frame(m: Message): seq<Byte> {
    Encode(|m|) + m
  }

  function Frames(ms: seq<Message>): seq<Byte> {
    if ms == [] then [] else Frame(ms[0]) + Frames(ms[1..])
  }

  lemma {:induction false} FramesAppend(ms: seq<Message>, m: Message)
    ensures Frames(ms + [m]) == Frames(ms) + Frame(m)
  {
    if ms == [] {
      assert Frames([m]) == Frame(m) + Frames([]);
      assert Frames([m]) == Frame(m);
    } else {
      FramesAppend(ms[1..], m);
      assert (ms + [m])[1..] == ms[1..] + [m];
    }
  }

  lemma ThreeParts(a: seq<Byte>, b: seq<Byte>, c: seq<Byte>)
    ensures var f := a + b + c; f[..|a|] == a && f[|a|..][..|b|] == b && f[|a|..][|b|..] == c
  {
    var f := a + b + c;
    assert f[|a|..] == b + c;
  }

  lemma FramesHead(ms: seq<Message>)
    requires ms != []
    ensures |Frames(ms)| > WORD_BYTES && |Frames(ms)| >= WORD_BYTES + |ms[0]|
    ensures Frames(ms)[..WORD_BYTES] == Encode(|ms[0]|) && Decode(Frames(ms)[..WORD_BYTES]) == |ms[0]|
    ensures Frames(ms)[WORD_BYTES..][..|ms[0]|] == ms[0]
    ensures Frames(ms)[WORD_BYTES..][|ms[0]|..] == Frames(ms[1..])
  {
    DecodeEncode(|ms[0]|);
    ThreeParts(Encode(|ms[0]|), ms[0], Frames(ms[1..]));
  }
}
