/** What one send and one receive on a stream or message buffer do, whatever the other side does in
  * the meantime. */
module StreamOutcomes {
  import opened Bytes
  import opened StreamFrames
  import opened StreamInterleave
  import opened Words

  /** The state after the first k steps. */
  ghost function After(s: State, steps: seq<Step>, end: State, k: nat): State
    requires Run(s, steps, end) && k <= |steps|
    decreases k
  {
    if k == 0 then s else After(StreamInterleave.Apply(s, steps[0]), steps[1..], end, k - 1)
  }

  lemma {:induction false} AfterNext(s: State, steps: seq<Step>, end: State, k: nat)
    requires Run(s, steps, end) && k < |steps|
    ensures Sized(After(s, steps, end, k)) && Enabled(After(s, steps, end, k), steps[k])
    ensures After(s, steps, end, k + 1) == StreamInterleave.Apply(After(s, steps, end, k), steps[k])
    decreases k
  {
    if k > 0 {
      AfterNext(StreamInterleave.Apply(s, steps[0]), steps[1..], end, k - 1);
    } else {
      assert After(StreamInterleave.Apply(s, steps[0]), steps[1..], end, 0) == StreamInterleave.Apply(s, steps[0]);
    }
  }

  lemma {:induction false} InvAfter(s: State, steps: seq<Step>, end: State, k: nat)
    requires Inv(s) && Run(s, steps, end) && k <= |steps|
    ensures Inv(After(s, steps, end, k))
    decreases k
  {
    if k > 0 {
      InvAfter(s, steps, end, k - 1);
      AfterNext(s, steps, end, k - 1);
      StepKeepsInv(After(s, steps, end, k - 1), steps[k - 1]);
    }
  }

  // ---------------------------------------------------------------------------
  // Sending.
  // ---------------------------------------------------------------------------

  /** The bytes that are free: the length of the buffer less one, less the bytes sent and not received. */
  function Room(s: State): int {
    s.length - 1 - (|s.sent| - |s.taken|)
  }

  /** What a send is to put in: the whole frame if it fits, or as much of a stream as fits. */
  function Accepted(framed: bool, room: int, data: Message): seq<Byte> {
    if framed then (if room >= WORD_BYTES + |data| then Encode(|data|) + data else [])
    else data[..Min(|data|, if room > 0 then room else 0)]
  }

  /** What the writer still has to put in. */
  function ToSend(w: Writer): seq<Byte> {
    match w
    case Idle => []
    case Copying(chunk, _, rest) => chunk + if rest == [] then [] else rest[0]
  }

  predicate AtMostOneMore(w: Writer) {
    w.Copying? ==> |w.rest| <= 1
  }

  /** The sender decides by the room there is. */
  lemma SendAccepts(s: State, data: Message)
    requires Inv(s) && Enabled(s, BeginSend(data))
    ensures var d := StreamInterleave.Apply(s, BeginSend(data));
            && ToSend(d.writer) == Accepted(s.framed, Room(s), data) && AtMostOneMore(d.writer)
            && d.sent == s.sent && d.offered == (if s.framed && Room(s) >= WORD_BYTES + |data| then s.offered + [data] else s.offered)
  {
    SpaceIsRoom(s);
  }

  /** What has been sent and is still to be sent, together. */
  function SentInTheEnd(s: State): seq<Byte> {
    s.sent + ToSend(s.writer)
  }

  lemma HeadMoves(s: State)
    requires Inv(s) && Enabled(s, PublishHead) && AtMostOneMore(s.writer)
    ensures var d := StreamInterleave.Apply(s, PublishHead); SentInTheEnd(d) == SentInTheEnd(s) && AtMostOneMore(d.writer)
  {
    var rest := if s.writer.rest == [] then [] else s.writer.rest[0];
    assert s.sent + (s.writer.chunk + rest) == s.sent + s.writer.chunk + rest;
  }

  lemma OtherStepsSendNothing(s: State, step: Step)
    requires Sized(s) && Enabled(s, step) && !step.BeginSend? && !step.PublishHead?
    ensures var d := StreamInterleave.Apply(s, step); d.sent == s.sent && ToSend(d.writer) == ToSend(s.writer)
    ensures AtMostOneMore(s.writer) ==> AtMostOneMore(StreamInterleave.Apply(s, step).writer)
  {
  }

  /** A step that begins no send keeps what has been sent and is still to be sent, together. */
  lemma OneStepOfSending(s: State, step: Step)
    requires Inv(s) && Enabled(s, step) && !step.BeginSend? && AtMostOneMore(s.writer)
    ensures var d := StreamInterleave.Apply(s, step); SentInTheEnd(d) == SentInTheEnd(s) && AtMostOneMore(d.writer)
  {
    if step.PublishHead? { HeadMoves(s); } else { OtherStepsSendNothing(s, step); }
  }

  lemma {:induction false} SendingGoesOn(s: State, steps: seq<Step>, end: State, i: nat, k: nat)
    requires Inv(s) && Run(s, steps, end) && i <= k <= |steps| && AtMostOneMore(After(s, steps, end, i).writer)
    requires forall j :: i <= j < k ==> !steps[j].BeginSend?
    ensures var b, c := After(s, steps, end, i), After(s, steps, end, k);
            SentInTheEnd(c) == SentInTheEnd(b) && AtMostOneMore(c.writer)
    decreases k
  {
    if i < k {
      SendingGoesOn(s, steps, end, i, k - 1);
      InvAfter(s, steps, end, k - 1);
      AfterNext(s, steps, end, k - 1);
      OneStepOfSending(After(s, steps, end, k - 1), steps[k - 1]);
    }
  }

  /** A send begun at step i, when it is over: exactly the bytes of the frame, or of the stream as far as there
    * was room when the sender looked, have been put in, whatever the receiver has done meanwhile. */
  lemma SendPutsInWhatFits(length: int, framed: bool, steps: seq<Step>, end: State, i: nat, k: nat, data: Message)
    requires 0 < length <= WRAP / 2 && Run(Start(length, framed), steps, end)
    requires i < k <= |steps| && steps[i] == BeginSend(data) && forall j :: i < j < k ==> !steps[j].BeginSend?
    requires After(Start(length, framed), steps, end, k).writer.Idle?
    ensures var b, c := After(Start(length, framed), steps, end, i), After(Start(length, framed), steps, end, k);
            c.sent == b.sent + Accepted(b.framed, Room(b), data)
  {
    var s := Start(length, framed);
    StartOk(length, framed);
    InvAfter(s, steps, end, i);
    AfterNext(s, steps, end, i);
    SendAccepts(After(s, steps, end, i), data);
    SendingGoesOn(s, steps, end, i + 1, k);
  }

  // ---------------------------------------------------------------------------
  // Receiving from a stream.
  // ---------------------------------------------------------------------------

  /** The receiver counts what is there and will take the smaller of that and what it was asked for. */
  lemma ReceiveCounts(s: State, max: int)
    requires Inv(s) && Enabled(s, BeginReceive(max)) && !s.framed
    ensures var d, n := StreamInterleave.Apply(s, BeginReceive(max)), |s.sent| - |s.taken|;
            d.taken == s.taken && if n == 0 || max == 0 then d.reader.Waiting? else d.reader.Reading? && d.reader.want == Min(n, max)
  {
    CountIsThere(s);
  }

  lemma OneStepOfReceiving(s: State, step: Step)
    requires Inv(s) && Enabled(s, step) && !s.framed && s.reader.Reading?
    ensures var d := StreamInterleave.Apply(s, step);
            if step.PublishTail? then d.reader.Waiting? && d.taken == s.taken + s.sent[|s.taken|..][..s.reader.want]
            else d.reader.Reading? && d.reader.want == s.reader.want && d.taken == s.taken
    ensures s.sent <= StreamInterleave.Apply(s, step).sent && StreamInterleave.Apply(s, step).framed == s.framed
  {
  }

  lemma {:induction false} ReceivingGoesOn(s: State, steps: seq<Step>, end: State, i: nat, k: nat)
    requires Inv(s) && Run(s, steps, end) && i <= k <= |steps|
    requires var b := After(s, steps, end, i); !b.framed && b.reader.Reading?
    requires forall j :: i <= j < k ==> !steps[j].PublishTail?
    ensures var b, c := After(s, steps, end, i), After(s, steps, end, k);
            !c.framed && c.reader.Reading? && c.reader.want == b.reader.want && c.taken == b.taken && b.sent <= c.sent
    decreases k
  {
    if i < k {
      ReceivingGoesOn(s, steps, end, i, k - 1);
      InvAfter(s, steps, end, k - 1);
      AfterNext(s, steps, end, k - 1);
      OneStepOfReceiving(After(s, steps, end, k - 1), steps[k - 1]);
    }
  }

  lemma StepKeepsItsKind(s: State, step: Step)
    requires Sized(s) && Enabled(s, step)
    ensures StreamInterleave.Apply(s, step).framed == s.framed
  {
  }

  lemma {:induction false} KeepsItsKind(s: State, steps: seq<Step>, end: State, k: nat)
    requires Inv(s) && Run(s, steps, end) && k <= |steps|
    ensures After(s, steps, end, k).framed == s.framed
    decreases k
  {
    if k > 0 {
      KeepsItsKind(s, steps, end, k - 1);
      AfterNext(s, steps, end, k - 1);
      StepKeepsItsKind(After(s, steps, end, k - 1), steps[k - 1]);
    }
  }

  /** A receive begun at step i on a stream that publishes the tail at step k has taken exactly the smaller of
    * what it was asked for and what was there when it counted, off the front, whatever the sender has done
    * meanwhile. */
  lemma ReceiveTakesWhatIsThere(length: int, steps: seq<Step>, end: State, i: nat, k: nat, max: int)
    requires 0 < length <= WRAP / 2 && Run(Start(length, false), steps, end)
    requires i < k < |steps| && steps[i] == BeginReceive(max) && steps[k] == PublishTail && forall j :: i < j < k ==> !steps[j].PublishTail?
    requires var b := After(Start(length, false), steps, end, i); max > 0 && |b.sent| > |b.taken|
    ensures var b, c := After(Start(length, false), steps, end, i), After(Start(length, false), steps, end, k + 1);
            c.taken == b.taken + b.sent[|b.taken|..][..Min(|b.sent| - |b.taken|, max)]
  {
    var s := Start(length, false);
    StartOk(length, false);
    InvAfter(s, steps, end, i);
    AfterNext(s, steps, end, i);
    KeepsItsKind(s, steps, end, i);
    var b := After(s, steps, end, i);
    ReceiveCounts(b, max);
    KeepsItsKind(s, steps, end, i + 1);
    ReceivingGoesOn(s, steps, end, i + 1, k);
    InvAfter(s, steps, end, k);
    AfterNext(s, steps, end, k);
    OneStepOfReceiving(After(s, steps, end, k), steps[k]);
  }

  // ---------------------------------------------------------------------------
  // Receiving a message.
  // ---------------------------------------------------------------------------

  /** How far a receive of up to max bytes has come, for the message m that is next after the delivered ones. */
  predicate Progress(s: State, delivered: seq<Message>, m: Message, max: int) {
    s.framed &&
    match s.reader
    case Waiting => s.delivered == if |m| <= max then delivered + [m] else delivered
    case Reading(wanted, _, _, _, isHeader) => IsNext(s, delivered, m) && wanted == max && (isHeader || |m| <= max)
    case Measured(wanted, _, _, _) => IsNext(s, delivered, m) && wanted == max
  }

  predicate IsNext(s: State, delivered: seq<Message>, m: Message) {
    s.delivered == delivered && |delivered| < |s.offered| && s.offered[|delivered|] == m
  }

  /** A receive begins to read the next message if more than a length word is there. */
  lemma MessageReceiveBegins(s: State, max: int)
    requires Inv(s) && Enabled(s, BeginReceive(max)) && s.framed
    ensures var d := StreamInterleave.Apply(s, BeginReceive(max));
            if |s.sent| - |s.taken| <= WORD_BYTES then d == s
            else |s.delivered| < |s.offered| && d.reader.Reading? && Progress(d, s.delivered, s.offered[|s.delivered|], max)
  {
    CountIsThere(s);
    if |s.sent| - |s.taken| > WORD_BYTES { NextIsComplete(s); }
  }

  lemma OneStepOfProgress(s: State, step: Step, delivered: seq<Message>, m: Message, max: int)
    requires Inv(s) && Enabled(s, step) && !step.BeginReceive? && Progress(s, delivered, m, max)
    ensures Progress(StreamInterleave.Apply(s, step), delivered, m, max)
  {
    if step.PublishTail? {
      ReaderHasTheMessage(s);
    }
  }

  lemma {:induction false} ProgressGoesOn(s: State, steps: seq<Step>, end: State, i: nat, k: nat, delivered: seq<Message>, m: Message, max: int)
    requires Inv(s) && Run(s, steps, end) && i <= k <= |steps| && Progress(After(s, steps, end, i), delivered, m, max)
    requires forall j :: i <= j < k ==> !steps[j].BeginReceive?
    ensures Progress(After(s, steps, end, k), delivered, m, max)
    decreases k
  {
    if i < k {
      ProgressGoesOn(s, steps, end, i, k - 1, delivered, m, max);
      InvAfter(s, steps, end, k - 1);
      AfterNext(s, steps, end, k - 1);
      OneStepOfProgress(After(s, steps, end, k - 1), steps[k - 1], delivered, m, max);
    }
  }

  /** A receive begun at step i on a message buffer in which more than a length word is there, when it is over:
    * the next message has been handed over whole if it fits the receiver's buffer, and otherwise nothing has
    * been taken, whatever the sender has done meanwhile. */
  lemma ReceiveHandsOverWhatFits(length: int, steps: seq<Step>, end: State, i: nat, k: nat, max: int)
    requires 0 < length <= WRAP / 2 && Run(Start(length, true), steps, end)
    requires i < k <= |steps| && steps[i] == BeginReceive(max) && forall j :: i < j < k ==> !steps[j].BeginReceive?
    requires var b := After(Start(length, true), steps, end, i); |b.sent| - |b.taken| > WORD_BYTES
    requires After(Start(length, true), steps, end, k).reader.Waiting?
    ensures var b, c := After(Start(length, true), steps, end, i), After(Start(length, true), steps, end, k);
            && |b.delivered| < |b.offered|
            && c.delivered == (if |b.offered[|b.delivered|]| <= max then b.delivered + [b.offered[|b.delivered|]] else b.delivered)
            && c.taken == Frames(c.delivered)
  {
    var s := Start(length, true);
    StartOk(length, true);
    InvAfter(s, steps, end, i);
    AfterNext(s, steps, end, i);
    KeepsItsKind(s, steps, end, i);
    var b := After(s, steps, end, i);
    MessageReceiveBegins(b, max);
    ProgressGoesOn(s, steps, end, i + 1, k, b.delivered, b.offered[|b.delivered|], max);
    InvAfter(s, steps, end, k);
  }
}
