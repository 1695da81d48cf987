/** One writer and one reader on a stream or message buffer, interleaved at every load of
  * xHead and xTail, every byte copied and every store of xHead and xTail. */
module StreamInterleave {
  import opened Bytes
  import opened StreamFrames
  import opened Words

  datatype Writer =
    | Idle
    | Copying(chunk: seq<Byte>, copied: nat, rest: seq<seq<Byte>>)    // inside prvWriteBytesToBuffer

  datatype Reader =
    | Waiting
    | Reading(max: int, available: int, want: int, got: seq<Byte>, isHeader: bool)   // inside prvReadBytesFromBuffer
    | Measured(max: int, available: int, next: int, origin: int)      // the length word has been read and released

  datatype State = State(
    length: int,
    framed: bool,
    storage: seq<Byte>,
    head: int,
    tail: int,
    writer: Writer,
    reader: Reader,
    sent: seq<Byte>,             // everything xHead has been moved past
    taken: seq<Byte>,            // everything xTail has been moved past
    offered: seq<Message>,       // messages the writer found room for
    delivered: seq<Message>)     // messages handed to the reader

  datatype Step =
    | BeginSend(data: Message)
    | CopyByte
    | PublishHead
    | BeginReceive(max: int)
    | ReadByte
    | PublishTail
    | UseLength

  predicate Refusing(r: Reader) {
    r.Measured? && r.next > r.max
  }

  /** The sender samples the space at any time except while the receiver is about to put
    * the tail back. */
  predicate Enabled(s: State, step: Step) {
    match step
    case BeginSend(_) => s.writer.Idle? && !Refusing(s.reader)
    case CopyByte => s.writer.Copying? && s.writer.copied < |s.writer.chunk|
    case PublishHead => s.writer.Copying? && s.writer.copied == |s.writer.chunk|
    case BeginReceive(max) => s.reader.Waiting? && max >= 0
    case ReadByte => s.reader.Reading? && |s.reader.got| < s.reader.want
    case PublishTail => s.reader.Reading? && |s.reader.got| == s.reader.want
    case UseLength => s.reader.Measured?
  }

  predicate Sized(s: State) {
    Positions(s.head, s.tail, s.length) && |s.storage| == s.length
  }

  /** The sender loads xTail and decides what to write: a whole frame or nothing, or as much
    * of a stream as fits. */
  function SampleSpace(s: State, data: Message): State
    requires Sized(s)
  {
    var space := SpaceBetween(s.head, s.tail, s.length);
    if s.framed then
      if space >= |data| + WORD_BYTES
      then s.(writer := Copying(Encode(|data|), 0, [data]), offered := s.offered + [data])
      else s
    else if space == 0 then s
    else s.(writer := Copying(data[..Min(|data|, space)], 0, []))
  }

  function Apply(s: State, step: Step): State
    requires Sized(s) && Enabled(s, step)
  {
    match step
    case BeginSend(data) => SampleSpace(s, data)
    case CopyByte =>
      var w := s.writer;
      if w.copied >= s.length then s
      else s.(storage := s.storage[Wrap(s.head + w.copied, s.length) := w.chunk[w.copied]],
              writer := w.(copied := w.copied + 1))
    case PublishHead =>
      var w := s.writer;
      var next := s.head + |w.chunk|;
      s.(head := if next >= s.length then next - s.length else next,
         sent := s.sent + w.chunk,
         writer := if w.rest == [] then Idle else Copying(w.rest[0], 0, w.rest[1..]))
    case BeginReceive(max) =>
      var available := BytesBetween(s.head, s.tail, s.length);
      if available <= (if s.framed then WORD_BYTES else 0) then s
      else if s.framed then s.(reader := Reading(max, available, WORD_BYTES, [], true))
      else if max == 0 then s
      else s.(reader := Reading(max, available, Min(available, max), [], false))
    case ReadByte =>
      var r := s.reader;
      if |r.got| >= s.length then s
      else s.(reader := r.(got := r.got + [s.storage[Wrap(s.tail + |r.got|, s.length)]]))
    case PublishTail =>
      var r := s.reader;
      var next := s.tail + r.want;
      var t := s.(tail := if next >= s.length then next - s.length else next, taken := s.taken + r.got);
      if r.isHeader && |r.got| == WORD_BYTES
      then t.(reader := Measured(r.max, r.available - WORD_BYTES, Decode(r.got), s.tail))
      else if s.framed && 0 < |r.got| < WRAP - WORD_BYTES
      then t.(reader := Waiting, delivered := s.delivered + [r.got])
      else t.(reader := Waiting)
    case UseLength =>
      var r := s.reader;
      if r.next > r.max
      then s.(tail := r.origin, taken := if |s.taken| >= WORD_BYTES then s.taken[..|s.taken| - WORD_BYTES] else s.taken,
              reader := Waiting)
      else if Min(r.available, r.next) <= 0 then s.(reader := Waiting)
      else s.(reader := Reading(r.max, r.available, Min(r.available, r.next), [], false))
  }

  // ---------------------------------------------------------------------------
  // The invariant.
  // ---------------------------------------------------------------------------

  /** Where the tail can still go back to, and how many bytes that is from the start. */
  function Origin(s: State): int {
    if Refusing(s.reader) then s.reader.origin else s.tail
  }

  function Floor(s: State): int {
    if Refusing(s.reader) then |s.taken| - WORD_BYTES else |s.taken|
  }

  function Total(chunks: seq<seq<Byte>>): nat {
    if chunks == [] then 0 else |chunks[0]| + Total(chunks[1..])
  }

  function Pending(w: Writer): nat {
    if w.Idle? then 0 else |w.chunk| + Total(w.rest)
  }

  /** From origin, where byte number floor is, up to the head lie the bytes sent; the tail is
    * as far along as bytes are taken; and there is room for what the writer is about to add. */
  ghost predicate RingAt(s: State, origin: int, floor: int) {
    && Sized(s) && 0 <= origin < s.length
    && 0 <= floor <= |s.taken| <= |s.sent| && s.taken == s.sent[..|s.taken|]
    && |s.sent| - floor + Pending(s.writer) < s.length
    && s.head == Wrap(origin + (|s.sent| - floor), s.length)
    && s.tail == Wrap(origin + (|s.taken| - floor), s.length)
    && Window(s.storage, origin, |s.sent| - floor) == s.sent[floor..]
  }

  ghost predicate RingOk(s: State) {
    RingAt(s, Origin(s), Floor(s))
  }

  ghost predicate WriterOk(s: State) {
    Sized(s) && s.writer.Copying? ==>
      && s.writer.copied <= |s.writer.chunk| < s.length
      && Window(s.storage, s.head, s.writer.copied) == s.writer.chunk[..s.writer.copied]
      && (!s.framed ==> s.writer.rest == [])
  }

  ghost predicate ReaderOk(s: State) {
    s.reader.Reading? ==>
      && 0 < s.reader.want <= s.reader.available && |s.taken| + s.reader.available <= |s.sent|
      && |s.reader.got| <= s.reader.want
      && s.reader.got == s.sent[|s.taken|..][..|s.reader.got|]
      && (s.reader.isHeader ==> s.framed)
  }

  /** The messages completely published. */
  function Published(s: State): int {
    if s.writer.Idle? then |s.offered| else |s.offered| - 1
  }

  ghost predicate SentFrames(s: State) {
    s.framed ==>
      match s.writer
      case Idle => s.sent == Frames(s.offered)
      case Copying(chunk, _, rest) =>
        && s.offered != []
        && var m := s.offered[|s.offered| - 1]; var done := s.offered[..|s.offered| - 1];
           (chunk == Encode(|m|) && rest == [m] && s.sent == Frames(done)) ||
           (chunk == m && rest == [] && s.sent == Frames(done) + Encode(|m|))
  }

  ghost predicate TakenFrames(s: State) {
    s.framed ==>
      && |s.delivered| <= Published(s) && s.delivered == s.offered[..|s.delivered|]
      && match s.reader
         case Waiting => s.taken == Frames(s.delivered)
         case Reading(_, available, want, _, isHeader) =>
           && |s.delivered| < Published(s)
           && var m := s.offered[|s.delivered|];
              if isHeader then s.taken == Frames(s.delivered) && want == WORD_BYTES && available >= WORD_BYTES + |m|
              else s.taken == Frames(s.delivered) + Encode(|m|) && want == |m|
         case Measured(_, available, next, _) =>
           && |s.delivered| < Published(s)
           && var m := s.offered[|s.delivered|];
              s.taken == Frames(s.delivered) + Encode(|m|) && next == |m| && available >= |m| &&
              |s.taken| + available <= |s.sent|
  }

  ghost predicate Inv(s: State) {
    RingOk(s) && WriterOk(s) && ReaderOk(s) && SentFrames(s) && TakenFrames(s) &&
    (!s.framed ==> !s.reader.Measured? && s.delivered == [])
  }

  ghost predicate Run(s: State, steps: seq<Step>, end: State)
    decreases |steps|
  {
    if steps == [] then s == end
    else Sized(s) && Enabled(s, steps[0]) && Run(Apply(s, steps[0]), steps[1..], end)
  }

  function Start(length: int, framed: bool): State
    requires 0 < length <= WRAP / 2
  {
    State(length, framed, seq(length, _ => 0), 0, 0, Idle, Waiting, [], [], [], [])
  }

  lemma StartOk(length: int, framed: bool)
    requires 0 < length <= WRAP / 2
    ensures Inv(Start(length, framed))
  {
  }

  // ---------------------------------------------------------------------------
  // The writer's steps.
  // ---------------------------------------------------------------------------

  /** The space the writer sees never exceeds the room there is. */
  lemma SpaceIsRoom(s: State)
    requires RingOk(s) && s.writer.Idle? && !Refusing(s.reader)
    ensures SpaceBetween(s.head, s.tail, s.length) == s.length - 1 - (|s.sent| - |s.taken|)
  {
    BytesUnique(s.head, s.tail, s.length, |s.sent| - |s.taken|);
    SpacePlusBytes(s.head, s.tail, s.length);
  }

  lemma BeginSendOk(s: State, step: Step)
    requires Inv(s) && Enabled(s, step) && step.BeginSend?
    ensures Inv(Apply(s, step))
  {
    SpaceIsRoom(s);
    assert Total([step.data]) == |step.data| by { assert [step.data][1..] == []; }
    assert (s.offered + [step.data])[..|s.offered|] == s.offered;
  }

  lemma StoreKeepsRing(s: State, origin: int, floor: int, d: int, x: Byte, t: State)
    requires RingAt(s, origin, floor) && |s.sent| - floor <= d < s.length && Pending(t.writer) == Pending(s.writer)
    requires t == s.(storage := s.storage[Wrap(origin + d, s.length) := x], writer := t.writer)
    ensures RingAt(t, origin, floor)
  {
    WindowStore(s.storage, origin, |s.sent| - floor, d, x);
  }

  lemma CopyByteStores(s: State, step: Step) returns (d: int, x: Byte)
    requires Inv(s) && Enabled(s, step) && step.CopyByte?
    ensures |s.sent| - Floor(s) <= d < s.length
    ensures var t := Apply(s, step);
            && t == s.(storage := s.storage[Wrap(Origin(s) + d, s.length) := x], writer := t.writer)
            && Pending(t.writer) == Pending(s.writer)
  {
    d, x := |s.sent| - Floor(s) + s.writer.copied, s.writer.chunk[s.writer.copied];
    WrapAdds(Origin(s), |s.sent| - Floor(s), s.writer.copied, s.length);
  }

  lemma CopyByteKeepsRing(s: State, step: Step)
    requires Inv(s) && Enabled(s, step) && step.CopyByte?
    ensures RingOk(Apply(s, step))
  {
    var d, x := CopyByteStores(s, step);
    StoreKeepsRing(s, Origin(s), Floor(s), d, x, Apply(s, step));
  }

  lemma OneByteLonger(storage: seq<Byte>, head: int, chunk: seq<Byte>, n: nat, after: seq<Byte>)
    requires 0 <= head < |storage| && n < |chunk| <= |storage| && Window(storage, head, n) == chunk[..n]
    requires after == storage[Wrap(head + n, |storage|) := chunk[n]]
    ensures Window(after, head, n + 1) == chunk[..n + 1]
  {
    WindowStore(storage, head, n, n, chunk[n]);
    assert chunk[..n + 1] == chunk[..n] + [chunk[n]];
  }

  lemma CopyByteKeepsWriter(s: State, step: Step)
    requires Inv(s) && Enabled(s, step) && step.CopyByte?
    ensures WriterOk(Apply(s, step))
  {
    OneByteLonger(s.storage, s.head, s.writer.chunk, s.writer.copied, Apply(s, step).storage);
  }

  lemma CopyByteOk(s: State, step: Step)
    requires Inv(s) && Enabled(s, step) && step.CopyByte?
    ensures Inv(Apply(s, step))
  {
    CopyByteKeepsRing(s, step);
    CopyByteKeepsWriter(s, step);
  }

  lemma SentGrows(sent: seq<Byte>, chunk: seq<Byte>, floor: int, taken: int, longer: seq<Byte>)
    requires 0 <= floor <= |sent| && 0 <= taken <= |sent| && longer == sent + chunk
    ensures longer[floor..] == sent[floor..] + chunk && longer[..taken] == sent[..taken]
  {
  }

  lemma WindowAfterHead(storage: seq<Byte>, origin: int, n: int, head: int, before: seq<Byte>, chunk: seq<Byte>, after: seq<Byte>)
    requires 0 <= origin < |storage| && 0 <= n && n + |chunk| <= |storage| && head == Wrap(origin + n, |storage|) && 0 <= head < |storage|
    requires Window(storage, origin, n) == before && Window(storage, head, |chunk|) == chunk && after == before + chunk
    ensures Window(storage, origin, |after|) == after && Wrap(head + |chunk|, |storage|) == Wrap(origin + |after|, |storage|)
  {
    WindowGrows(storage, storage, origin, n, chunk);
    WrapAdds(origin, n, |chunk|, |storage|);
  }

  /** The head has moved past bytes that are in the storage area. */
  lemma HeadMoves(s: State, origin: int, floor: int, chunk: seq<Byte>, t: State)
    requires RingAt(s, origin, floor) && |chunk| + Pending(t.writer) <= Pending(s.writer)
    requires Window(s.storage, s.head, |chunk|) == chunk
    requires t == s.(head := Wrap(s.head + |chunk|, s.length), sent := s.sent + chunk, writer := t.writer)
    ensures RingAt(t, origin, floor)
  {
    SentGrows(s.sent, chunk, floor, |s.taken|, t.sent);
    WindowAfterHead(s.storage, origin, |s.sent| - floor, s.head, s.sent[floor..], chunk, t.sent[floor..]);
  }

  lemma PublishHeadMovesHead(s: State, step: Step)
    requires Inv(s) && Enabled(s, step) && step.PublishHead?
    ensures var chunk, t := s.writer.chunk, Apply(s, step);
            |chunk| + Pending(t.writer) <= Pending(s.writer) && Window(s.storage, s.head, |chunk|) == chunk &&
            t == s.(head := Wrap(s.head + |chunk|, s.length), sent := s.sent + chunk, writer := t.writer)
  {
  }

  lemma PublishHeadKeepsRing(s: State, step: Step)
    requires Inv(s) && Enabled(s, step) && step.PublishHead?
    ensures RingOk(Apply(s, step))
  {
    PublishHeadMovesHead(s, step);
    HeadMoves(s, Origin(s), Floor(s), s.writer.chunk, Apply(s, step));
  }

  lemma PublishHeadKeepsWriter(s: State, step: Step)
    requires Inv(s) && Enabled(s, step) && step.PublishHead?
    ensures WriterOk(Apply(s, step))
  {
    PublishHeadKeepsRing(s, step);
  }

  lemma PublishHeadKeepsReader(s: State, step: Step)
    requires Inv(s) && Enabled(s, step) && step.PublishHead?
    ensures ReaderOk(Apply(s, step))
  {
    if s.reader.Reading? {
      assert (s.sent + s.writer.chunk)[|s.taken|..][..|s.reader.got|] == s.sent[|s.taken|..][..|s.reader.got|];
    }
  }

  lemma PublishHeadKeepsSent(s: State, step: Step)
    requires Inv(s) && Enabled(s, step) && step.PublishHead?
    ensures SentFrames(Apply(s, step))
  {
    if s.framed {
      var k := |s.offered| - 1;
      assert s.offered == s.offered[..k] + [s.offered[k]];
      FramesAppend(s.offered[..k], s.offered[k]);
    }
  }

  lemma PublishHeadKeepsTaken(s: State, step: Step)
    requires Inv(s) && Enabled(s, step) && step.PublishHead?
    ensures TakenFrames(Apply(s, step))
  {
  }

  // ---------------------------------------------------------------------------
  // The reader's steps.
  // ---------------------------------------------------------------------------

  lemma {:induction false} FramesSplit(ms: seq<Message>, k: nat)
    requires k <= |ms|
    ensures Frames(ms) == Frames(ms[..k]) + Frames(ms[k..])
  {
    if k > 0 {
      FramesSplit(ms, k - 1);
      assert ms[..k] == ms[..k - 1] + [ms[k - 1]];
      FramesAppend(ms[..k - 1], ms[k - 1]);
      assert ms[k - 1..][1..] == ms[k..];
    } else {
      assert ms[..0] == [] && ms[0..] == ms;
    }
  }

  /** What is published is whole frames, and at most one length word more. */
  lemma SentIs(s: State)
    requires s.framed && SentFrames(s)
    ensures 0 <= Published(s) <= |s.offered|
    ensures var f := Frames(s.offered[..Published(s)]);
            |f| <= |s.sent| <= |f| + WORD_BYTES && s.sent[..|f|] == f
  {
    if s.writer.Idle? {
      assert s.offered[..|s.offered|] == s.offered;
    }
  }

  /** More than a length word available means that the next message is there completely,
    * also between the publication of its length and of its bytes. */
  lemma NextIsComplete(s: State)
    requires Inv(s) && s.framed && s.reader.Waiting? && |s.sent| - |s.taken| > WORD_BYTES
    ensures |s.delivered| < Published(s)
    ensures |s.sent| - |s.taken| >= WORD_BYTES + |s.offered[|s.delivered|]|
  {
    SentIs(s);
    var d, done := |s.delivered|, s.offered[..Published(s)];
    FramesSplit(done, d);
    assert done[..d] == s.delivered;
    if d < Published(s) {
      FramesHead(done[d..]);
      assert done[d..][0] == s.offered[d];
    }
  }

  lemma PrefixTail(a: seq<Byte>, b: seq<Byte>, whole: seq<Byte>)
    requires a + b <= whole
    ensures a <= whole && b <= whole[|a|..]
  {
  }

  /** The frame of a message at position a of a byte string. */
  predicate FrameIn(whole: seq<Byte>, a: nat, m: Message) {
    a + WORD_BYTES + |m| <= |whole| && whole[a..][..WORD_BYTES] == Encode(|m|) && whole[a + WORD_BYTES..][..|m|] == m
  }

  lemma FrameFirst(whole: seq<Byte>, m: Message)
    requires Frame(m) <= whole
    ensures FrameIn(whole, 0, m)
  {
    PrefixTail(Encode(|m|), m, whole);
    assert whole[0..] == whole;
  }

  lemma FrameLater(whole: seq<Byte>, h: nat, a: nat, m: Message)
    requires h <= |whole| && FrameIn(whole[h..], a, m)
    ensures FrameIn(whole, h + a, m)
  {
    assert whole[h + a..] == whole[h..][a..];
    assert whole[h + a + WORD_BYTES..] == whole[h..][a + WORD_BYTES..];
  }

  /** Message d of a byte string that starts with some frames. */
  lemma {:induction false} FrameAt(ms: seq<Message>, d: nat, whole: seq<Byte>)
    requires d < |ms| && Frames(ms) <= whole
    ensures FrameIn(whole, |Frames(ms[..d])|, ms[d])
  {
    var h := Frame(ms[0]);
    PrefixTail(h, Frames(ms[1..]), whole);
    if d == 0 {
      assert ms[..0] == [];
      FrameFirst(whole, ms[0]);
    } else {
      FrameAt(ms[1..], d - 1, whole[|h|..]);
      assert ms[..d][1..] == ms[1..][..d - 1];
      FrameLater(whole, |h|, |Frames(ms[1..][..d - 1])|, ms[d]);
    }
  }

  /** The bytes that follow what was delivered are the frame of the next message. */
  lemma NextBytes(s: State)
    requires Inv(s) && s.framed && |s.delivered| < Published(s)
    ensures var a, m := |Frames(s.delivered)|, s.offered[|s.delivered|];
            a + WORD_BYTES + |m| <= |s.sent| &&
            s.sent[a..][..WORD_BYTES] == Encode(|m|) && s.sent[a + WORD_BYTES..][..|m|] == m
  {
    SentIs(s);
    var done := s.offered[..Published(s)];
    FrameAt(done, |s.delivered|, s.sent);
    assert done[..|s.delivered|] == s.delivered;
  }

  /** What the receiver counts is there. */
  lemma CountIsThere(s: State)
    requires RingOk(s) && s.reader.Waiting?
    ensures BytesBetween(s.head, s.tail, s.length) == |s.sent| - |s.taken|
  {
    BytesUnique(s.head, s.tail, s.length, |s.sent| - |s.taken|);
  }

  lemma BeginReceiveStarts(s: State, step: Step) returns (r: Reader)
    requires Inv(s) && Enabled(s, step) && step.BeginReceive?
    ensures Apply(s, step) == s.(reader := r) && (r.Waiting? || r.Reading?)
    ensures var n := |s.sent| - |s.taken|;
            r.Reading? ==>
              && r.available == n && r.got == [] && r.isHeader == s.framed
              && r.want == if s.framed then WORD_BYTES else Min(n, step.max)
    ensures r.Reading? ==> 0 < r.want <= r.available && (s.framed ==> r.available > WORD_BYTES)
  {
    CountIsThere(s);
    r := Apply(s, step).reader;
  }

  lemma BeginReceiveOk(s: State, step: Step)
    requires Inv(s) && Enabled(s, step) && step.BeginReceive?
    ensures Inv(Apply(s, step))
  {
    var r := BeginReceiveStarts(s, step);
    ReaderKeepsRing(s, r);
    if r.Reading? && s.framed {
      NextIsComplete(s);
    }
  }

  lemma NextUnreadByte(s: State)
    requires RingOk(s) && !Refusing(s.reader) && s.reader.Reading? && |s.reader.got| < |s.sent| - |s.taken|
    ensures s.storage[Wrap(s.tail + |s.reader.got|, s.length)] == s.sent[|s.taken|..][|s.reader.got|]
  {
    assert Window(s.storage, s.tail, |s.sent| - |s.taken|) == s.sent[|s.taken|..];
  }

  /** The ring does not depend on what the reader holds. */
  lemma ReaderKeepsRing(s: State, r: Reader)
    requires RingOk(s) && !Refusing(s.reader) && !Refusing(r)
    ensures RingOk(s.(reader := r))
  {
  }

  lemma ReadByteTakes(s: State, step: Step)
    requires Inv(s) && Enabled(s, step) && step.ReadByte?
    ensures |s.reader.got| < s.length && |s.reader.got| < |s.sent| - |s.taken|
    ensures var r := s.reader;
            Apply(s, step) == s.(reader := r.(got := r.got + [s.storage[Wrap(s.tail + |r.got|, s.length)]]))
  {
  }

  lemma ReadByteGets(s: State, step: Step) returns (r: Reader)
    requires Inv(s) && Enabled(s, step) && step.ReadByte?
    ensures Apply(s, step) == s.(reader := r) && r == s.reader.(got := s.sent[|s.taken|..][..|s.reader.got| + 1])
  {
    ReadByteTakes(s, step);
    NextUnreadByte(s);
    var k, unread := |s.reader.got|, s.sent[|s.taken|..];
    assert unread[..k + 1] == unread[..k] + [unread[k]];
    r := s.reader.(got := unread[..k + 1]);
  }

  lemma ReadByteOk(s: State, step: Step)
    requires Inv(s) && Enabled(s, step) && step.ReadByte?
    ensures Inv(Apply(s, step))
  {
    var r := ReadByteGets(s, step);
    ReaderKeepsRing(s, r);
  }

  /** The tail has moved k bytes on, and the reader with it. */
  predicate TailMoved(s: State, k: int, t: State)
    requires Sized(s) && 0 <= k <= s.length && 0 <= |s.taken| + k <= |s.sent|
  {
    t == s.(tail := Wrap(s.tail + k, s.length), taken := s.sent[..|s.taken| + k], reader := t.reader, delivered := t.delivered)
  }

  /** The tail has moved k bytes on: counted from where it was, or from where it is. */
  lemma TailMoves(s: State, k: int, t: State)
    requires RingAt(s, s.tail, |s.taken|) && 0 <= k <= |s.sent| - |s.taken|
    requires TailMoved(s, k, t)
    ensures RingAt(t, s.tail, |s.taken|)
  {
  }

  lemma WindowAfter(s: State, k: int)
    requires RingAt(s, s.tail, |s.taken|) && 0 <= k <= |s.sent| - |s.taken|
    ensures var n := |s.sent| - |s.taken|;
            Window(s.storage, Wrap(s.tail + k, s.length), n - k) == s.sent[|s.taken| + k..]
  {
    assert s.sent[|s.taken|..][k..] == s.sent[|s.taken| + k..];
    WindowDrops(s.storage, s.tail, |s.sent| - |s.taken|, k);
  }

  lemma OriginMoves(s: State, k: int, t: State)
    requires RingAt(s, s.tail, |s.taken|) && 0 <= k <= |s.sent| - |s.taken| && TailMoved(s, k, t)
    ensures RingAt(t, t.tail, |t.taken|)
  {
    WindowAfter(s, k);
    WrapAdds(s.tail, k, |s.sent| - |s.taken| - k, s.length);
  }

  lemma PublishTailMovesTail(s: State, step: Step)
    requires Inv(s) && Enabled(s, step) && step.PublishTail?
    ensures var t, k := Apply(s, step), s.reader.want;
            TailMoved(s, k, t)
  {
    var k := s.reader.want;
    assert s.sent[..|s.taken| + k] == s.sent[..|s.taken|] + s.sent[|s.taken|..][..k];
  }

  lemma PublishTailKeepsRing(s: State, step: Step)
    requires Inv(s) && Enabled(s, step) && step.PublishTail?
    ensures RingOk(Apply(s, step))
  {
    PublishTailMovesTail(s, step);
    TailMoves(s, s.reader.want, Apply(s, step));
    OriginMoves(s, s.reader.want, Apply(s, step));
  }

  lemma PublishTailKeepsSides(s: State, step: Step)
    requires Inv(s) && Enabled(s, step) && step.PublishTail?
    ensures WriterOk(Apply(s, step)) && ReaderOk(Apply(s, step)) && SentFrames(Apply(s, step))
  {
  }

  /** What the reader has is the length word of the next message, or that message. */
  lemma ReaderHasTheMessage(s: State)
    requires Inv(s) && s.framed && s.reader.Reading? && |s.reader.got| == s.reader.want
    ensures |s.delivered| < Published(s)
    ensures var m := s.offered[|s.delivered|];
            if s.reader.isHeader then s.reader.got == Encode(|m|) && Decode(s.reader.got) == |m| else s.reader.got == m
  {
    var m := s.offered[|s.delivered|];
    NextBytes(s);
    DecodeEncode(|m|);
  }

  lemma HeaderKeepsFrames(s: State, step: Step)
    requires Inv(s) && Enabled(s, step) && step.PublishTail? && s.framed && s.reader.isHeader
    ensures TakenFrames(Apply(s, step))
  {
    ReaderHasTheMessage(s);
    var t, m := Apply(s, step), s.offered[|s.delivered|];
    assert t.reader == Measured(s.reader.max, s.reader.available - WORD_BYTES, |m|, s.tail);
    assert t.taken == Frames(s.delivered) + Encode(|m|);
  }

  lemma MessageIsTaken(s: State, step: Step)
    requires Inv(s) && Enabled(s, step) && step.PublishTail? && s.framed && !s.reader.isHeader
    ensures |s.delivered| < Published(s)
    ensures var t, m := Apply(s, step), s.offered[|s.delivered|];
            && t.reader == Waiting && t.delivered == s.delivered + [m] && t.taken == Frames(s.delivered) + Encode(|m|) + m
            && t.offered == s.offered && t.writer == s.writer && t.framed
  {
    ReaderHasTheMessage(s);
  }

  lemma ThreeInARow(a: seq<Byte>, b: seq<Byte>, c: seq<Byte>)
    ensures a + b + c == a + (b + c)
  {
  }

  lemma NextDelivered(delivered: seq<Message>, m: Message, taken: seq<Byte>)
    requires taken == Frames(delivered) + Encode(|m|) + m
    ensures taken == Frames(delivered + [m])
  {
    FramesAppend(delivered, m);
    ThreeInARow(Frames(delivered), Encode(|m|), m);
  }

  lemma MessageKeepsFrames(s: State, step: Step)
    requires Inv(s) && Enabled(s, step) && step.PublishTail? && s.framed && !s.reader.isHeader
    ensures TakenFrames(Apply(s, step))
  {
    var t := Apply(s, step);
    MessageIsTaken(s, step);
    NextDelivered(s.delivered, s.offered[|s.delivered|], t.taken);
    assert t.delivered == s.offered[..|t.delivered|];
  }

  lemma PublishTailKeepsFrames(s: State, step: Step)
    requires Inv(s) && Enabled(s, step) && step.PublishTail?
    ensures TakenFrames(Apply(s, step))
  {
    if s.framed {
      if s.reader.isHeader {
        HeaderKeepsFrames(s, step);
      } else {
        MessageKeepsFrames(s, step);
      }
    }
  }

  /** Putting the tail back undoes the reading of the length word. */
  lemma RefusalUndoes(s: State) returns (k: nat)
    requires Inv(s) && Refusing(s.reader)
    ensures k == |s.taken| - WORD_BYTES == |Frames(s.delivered)| && s.taken[..k] == Frames(s.delivered) == s.sent[..k]
    ensures Apply(s, UseLength) == s.(tail := s.reader.origin, taken := s.taken[..k], reader := Waiting)
  {
    k := |Frames(s.delivered)|;
    assert s.taken[..k] == Frames(s.delivered);
    assert s.sent[..k] == s.taken[..k];
  }

  lemma RefusalKeepsRing(s: State)
    requires Inv(s) && Refusing(s.reader)
    ensures RingOk(Apply(s, UseLength))
  {
    var k := RefusalUndoes(s);
    assert RingAt(Apply(s, UseLength), Origin(s), Floor(s));
  }

  lemma RefusalOk(s: State)
    requires Inv(s) && Refusing(s.reader)
    ensures Inv(Apply(s, UseLength))
  {
    var k := RefusalUndoes(s);
    RefusalKeepsRing(s);
  }

  lemma UseLengthOk(s: State, step: Step)
    requires Inv(s) && Enabled(s, step) && step.UseLength?
    ensures Inv(Apply(s, step))
  {
    if Refusing(s.reader) {
      RefusalOk(s);
    } else {
      ReaderKeepsRing(s, Apply(s, step).reader);
    }
  }

  lemma StepKeepsInv(s: State, step: Step)
    requires Inv(s) && Enabled(s, step)
    ensures Inv(Apply(s, step))
  {
    match step
    case BeginSend(_) => BeginSendOk(s, step);
    case CopyByte => CopyByteOk(s, step);
    case PublishHead =>
      PublishHeadKeepsRing(s, step);
      PublishHeadKeepsWriter(s, step);
      PublishHeadKeepsReader(s, step);
      PublishHeadKeepsSent(s, step);
      PublishHeadKeepsTaken(s, step);
    case BeginReceive(_) => BeginReceiveOk(s, step);
    case ReadByte => ReadByteOk(s, step);
    case PublishTail =>
      PublishTailKeepsRing(s, step);
      PublishTailKeepsSides(s, step);
      PublishTailKeepsFrames(s, step);
    case UseLength => UseLengthOk(s, step);
  }

  lemma {:induction false} RunKeepsInv(s: State, steps: seq<Step>, end: State)
    requires Inv(s) && Run(s, steps, end)
    ensures Inv(end)
    decreases |steps|
  {
    if steps != [] {
      StepKeepsInv(s, steps[0]);
      RunKeepsInv(Apply(s, steps[0]), steps[1..], end);
    }
  }

  /** In every interleaving the bytes received are a prefix of the bytes sent, the messages
    * received are whole and a prefix of the messages sent, and a stale sample of either
    * side only underestimates: what the writer is about to add fits the space there is,
    * and what the reader counted is there. */
  lemma NothingIsLostOrTorn(length: int, framed: bool, steps: seq<Step>, end: State)
    requires 0 < length <= WRAP / 2 && Run(Start(length, framed), steps, end)
    ensures end.taken <= end.sent
    ensures end.delivered <= end.offered
    ensures Sized(end) && Pending(end.writer) <= SpaceBetween(end.head, end.tail, end.length)
    ensures end.reader.Reading? ==> end.reader.available <= BytesBetween(end.head, end.tail, end.length)
  {
    StartOk(length, framed);
    RunKeepsInv(Start(length, framed), steps, end);
    var n := |end.sent| - |end.taken|;
    WrapAdds(Origin(end), |end.taken| - Floor(end), n, end.length);
    BytesUnique(end.head, end.tail, end.length, n);
    SpacePlusBytes(end.head, end.tail, end.length);
  }

  // ---------------------------------------------------------------------------
  // Why the sender must not sample while a too-small receive is being refused.
  // ---------------------------------------------------------------------------

  /** Between publishing the tail past the length word and putting it back, the space looks
    * larger than it is by exactly the length word. */
  lemma RefusalInflatesTheSpace(s: State)
    requires Inv(s) && Refusing(s.reader)
    ensures Sized(s) && Enabled(s, UseLength) && Sized(Apply(s, UseLength))
    ensures var t := Apply(s, UseLength);
            SpaceBetween(s.head, s.tail, s.length) == SpaceBetween(t.head, t.tail, t.length) + WORD_BYTES
  {
    var n := |s.sent| - Floor(s);
    WrapAdds(Origin(s), WORD_BYTES, n - WORD_BYTES, s.length);
    BytesUnique(s.head, s.tail, s.length, n - WORD_BYTES);
    BytesUnique(s.head, Origin(s), s.length, n);
    SpacePlusBytes(s.head, s.tail, s.length);
    SpacePlusBytes(s.head, Origin(s), s.length);
  }

  /** So a message accepted at that moment fits the space there is once the tail is back
    * exactly when its frame fits without the borrowed length word, or when it is so long
    * that it is not accepted at all. */
  lemma SamplingIsSafeIff(s: State, data: Message)
    requires Inv(s) && Refusing(s.reader) && s.writer.Idle?
    ensures var u := SampleSpace(s, data); var t := Apply(s, UseLength);
            var room := SpaceBetween(t.head, t.tail, t.length);
            Pending(u.writer) <= room <==> |data| + WORD_BYTES <= room || |data| > room
  {
    RefusalInflatesTheSpace(s);
    assert Total([data]) == |data| by { assert [data][1..] == []; }
  }

  lemma {:induction false} RunExtends(s: State, steps: seq<Step>, mid: State, step: Step)
    requires Run(s, steps, mid) && Sized(mid) && Enabled(mid, step)
    ensures Run(s, steps + [step], Apply(mid, step))
    decreases |steps|
  {
    var longer := steps + [step];
    if steps == [] {
      assert longer[1..] == [];
    } else {
      RunExtends(Apply(s, steps[0]), steps[1..], mid, step);
      assert longer[1..] == steps[1..] + [step];
    }
  }

  lemma Then(s: State, steps: seq<Step>, mid: State, step: Step) returns (longer: seq<Step>, end: State)
    requires Run(s, steps, mid) && Sized(mid) && Enabled(mid, step)
    ensures Run(s, longer, end) && end == Apply(mid, step)
  {
    RunExtends(s, steps, mid, step);
    longer, end := steps + [step], Apply(mid, step);
  }

  const EMPTY: seq<Byte> := [0, 0, 0, 0, 0, 0, 0, 0, 0]
  const HEADED: seq<Byte> := [1, 0, 0, 0, 0, 0, 0, 0, 0]
  const FILLED: seq<Byte> := [1, 0, 0, 0, 7, 0, 0, 0, 0]
  const HEADER: seq<Byte> := [1, 0, 0, 0]

  /** Message [7] is sent to a message buffer of 9 bytes: first its length. */
  lemma SendBegins() returns (steps: seq<Step>, end: State)
    ensures Run(Start(9, true), steps, end)
    ensures end == State(9, true, EMPTY, 0, 0, Copying(HEADER, 0, [[7]]), Waiting, [], [], [[7]], [])
  {
    var s := Start(9, true);
    assert s.storage == EMPTY;
    assert Encode(1) == HEADER;
    steps, end := Then(s, [], s, BeginSend([7]));
  }

  lemma HeaderIsCopied() returns (steps: seq<Step>, end: State)
    ensures Run(Start(9, true), steps, end)
    ensures end == State(9, true, HEADED, 0, 0, Copying(HEADER, 4, [[7]]), Waiting, [], [], [[7]], [])
  {
    var s := Start(9, true);
    steps, end := SendBegins();
    steps, end := Then(s, steps, end, CopyByte);
    assert end.storage == HEADED;
    steps, end := Then(s, steps, end, CopyByte);
    assert end.storage == HEADED;
    steps, end := Then(s, steps, end, CopyByte);
    assert end.storage == HEADED;
    steps, end := Then(s, steps, end, CopyByte);
    assert end.storage == HEADED;
  }

  lemma MessageIsSent() returns (steps: seq<Step>, end: State)
    ensures Run(Start(9, true), steps, end)
    ensures end == State(9, true, FILLED, 5, 0, Idle, Waiting, HEADER + [7], [], [[7]], [])
  {
    var s := Start(9, true);
    steps, end := HeaderIsCopied();
    steps, end := Then(s, steps, end, PublishHead);
    steps, end := Then(s, steps, end, CopyByte);
    assert end.storage == FILLED;
    steps, end := Then(s, steps, end, PublishHead);
  }

  lemma ReceiveBegins() returns (steps: seq<Step>, end: State)
    ensures Run(Start(9, true), steps, end)
    ensures end == State(9, true, FILLED, 5, 0, Idle, Reading(0, 5, 4, [], true), HEADER + [7], [], [[7]], [])
  {
    steps, end := MessageIsSent();
    steps, end := Then(Start(9, true), steps, end, BeginReceive(0));
  }

  lemma TwoBytesAreRead() returns (steps: seq<Step>, end: State)
    ensures Run(Start(9, true), steps, end)
    ensures end == State(9, true, FILLED, 5, 0, Idle, Reading(0, 5, 4, [1, 0], true), HEADER + [7], [], [[7]], [])
  {
    steps, end := ReceiveBegins();
    steps, end := Then(Start(9, true), steps, end, ReadByte);
    steps, end := Then(Start(9, true), steps, end, ReadByte);
    assert end.reader.got == [1, 0];
  }

  lemma HeaderIsRead() returns (steps: seq<Step>, end: State)
    ensures Run(Start(9, true), steps, end)
    ensures end == State(9, true, FILLED, 5, 0, Idle, Reading(0, 5, 4, HEADER, true), HEADER + [7], [], [[7]], [])
  {
    steps, end := TwoBytesAreRead();
    steps, end := Then(Start(9, true), steps, end, ReadByte);
    steps, end := Then(Start(9, true), steps, end, ReadByte);
    assert end.reader.got == HEADER;
  }

  /** A receive with no room is refusing the message. */
  function RefusalExample(): State {
    State(9, true, FILLED, 5, 4, Idle, Measured(0, 1, 1, 0), HEADER + [7], HEADER, [[7]], [])
  }

  lemma RefusalIsReached() returns (steps: seq<Step>)
    ensures Run(Start(9, true), steps, RefusalExample())
  {
    var end;
    steps, end := HeaderIsRead();
    assert Decode(HEADER) == 1;
    assert [] + HEADER == HEADER;
    steps, end := Then(Start(9, true), steps, end, PublishTail);
  }

  /** A sender that samples now accepts more than fits once the tail is back. */
  lemma SamplingDuringARefusalOverruns() returns (steps: seq<Step>, t: State, u: State)
    ensures Run(Start(9, true), steps, RefusalExample()) && Refusing(RefusalExample().reader)
    ensures t == SampleSpace(RefusalExample(), [1, 2, 3]) && Sized(t) && Enabled(t, UseLength) && u == Apply(t, UseLength)
    ensures Sized(u) && Pending(u.writer) > SpaceBetween(u.head, u.tail, u.length)
  {
    steps := RefusalIsReached();
    StartOk(9, true);
    RunKeepsInv(Start(9, true), steps, RefusalExample());
    SamplingIsSafeIff(RefusalExample(), [1, 2, 3]);
    t := SampleSpace(RefusalExample(), [1, 2, 3]);
    u := Apply(t, UseLength);
  }
}
