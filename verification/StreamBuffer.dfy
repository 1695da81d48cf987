/** Stream and message buffers as one task at a time sees them: a ring with a head and a
  * tail offset, written and read in at most two blocks, and framed messages on top. */
module StreamBuffer {
  import opened Bytes
  import opened StreamFrames
  import opened Words

  class Buffer {
    const length: int              // xLength
    const storage: array<Byte>     // pucBuffer
    const isMessageBuffer: bool
    var head: int                  // xHead
    var tail: int                  // xTail
    ghost var messages: seq<Message>

    ghost predicate Ring()
      reads this, storage
    {
      Positions(head, tail, length) && storage.Length == length
    }

    /** The bytes sent and not yet received. */
    ghost function Content(): seq<Byte>
      requires Ring()
      reads this, storage
    {
      Window(storage[..], tail, BytesBetween(head, tail, length))
    }

    ghost predicate Valid()
      reads this, storage
    {
      Ring() && (isMessageBuffer ==> Content() == Frames(messages))
    }

    constructor (length: int, isMessageBuffer: bool)
      requires 0 < length <= WRAP / 2
      ensures Valid() && fresh(storage) && this.length == length && this.isMessageBuffer == isMessageBuffer
      ensures Content() == [] && messages == []
    {
      this.length := length;
      this.isMessageBuffer := isMessageBuffer;
      storage := new Byte[length](_ => 0);
      head, tail, messages := 0, 0, [];
    }

    method SpacesAvailable() returns (space: int)
      requires Ring()
      ensures space == length - 1 - |Content()|
    {
      SpacePlusBytes(head, tail, length);
      space := SpaceBetween(head, tail, length);
    }

    method BytesInBuffer() returns (count: int)
      requires Ring()
      ensures count == |Content()|
    {
      count := BytesBetween(head, tail, length);
    }

    /** Two block copies at most, from the head on. */
    method CopyIntoBlocks(data: seq<Byte>)
      requires Ring() && 0 < |data| && |Content()| + |data| < length
      modifies storage
      ensures Window(storage[..], head, |data|) == data && Content() == old(Content())
    {
      var firstLength := Min(length - head, |data|);
      CopyIn(storage, head, data[..firstLength]);
      if |data| > firstLength {
        CopyIn(storage, 0, data[firstLength..]);
      }
    }

    /** `prvWriteBytesToBuffer`: the bytes are copied in, then the new head is published. */
    method WriteBytes(data: seq<Byte>)
      requires Ring() && 0 < |data| && |Content()| + |data| < length
      modifies storage, `head
      ensures Ring() && Content() == old(Content()) + data
    {
      ghost var count := BytesBetween(head, tail, length);
      CopyIntoBlocks(data);
      var nextHead := head + |data|;
      if nextHead >= length {
        nextHead := nextHead - length;
      }
      WindowGrows(storage[..], storage[..], tail, count, data);
      WrapAdds(tail, count, |data|, length);
      BytesUnique(nextHead, tail, length, count + |data|);
      head := nextHead;
    }

    /** One or two block copies from the tail on. */
    method CopyOut(count: int) returns (data: seq<Byte>)
      requires Ring() && 0 < count <= length
      ensures data == Window(storage[..], tail, count)
    {
      WindowInBlocks(storage[..], tail, count);
      var firstLength := Min(length - tail, count);
      data := storage[tail..tail + firstLength];
      if count > firstLength {
        data := data + storage[..count - firstLength];
      }
    }

    /** `prvReadBytesFromBuffer`: the smaller of the wanted and the available bytes. */
    method ReadBytes(maxCount: int, bytesAvailable: int) returns (data: seq<Byte>)
      requires Ring() && 0 <= maxCount && 0 <= bytesAvailable <= |Content()|
      modifies `tail
      ensures Ring() && |data| == Min(maxCount, bytesAvailable) && old(Content()) == data + Content()
    {
      var count := Min(bytesAvailable, maxCount);
      data := [];
      TakeOff(storage[..], head, tail, length, count);
      if count > 0 {
        data := CopyOut(count);
        var nextTail := tail + count;
        if nextTail >= length {
          nextTail := nextTail - length;
        }
        tail := nextTail;
      }
    }

    /** `prvWriteMessageToBuffer`, with the space sampled by the caller. */
    method WriteMessage(data: seq<Byte>, space: int, requiredSpace: int) returns (written: int)
      requires Valid() && space == length - 1 - |Content()|
      requires 0 < |data| && requiredSpace == |data| + (if isMessageBuffer then WORD_BYTES else 0) < WRAP
      modifies storage, `head, `messages
      ensures Valid()
      ensures written == if isMessageBuffer then (if space >= requiredSpace then |data| else 0) else Min(|data|, space)
      ensures if isMessageBuffer
              then messages == old(messages) + (if written > 0 then [data] else [])
              else Content() == old(Content()) + data[..written]
      ensures written == 0 ==> Content() == old(Content())
    {
      var shouldWrite, toWrite := false, data;
      if space == 0 {
      } else if !isMessageBuffer {
        shouldWrite, toWrite := true, data[..Min(|data|, space)];
      } else if space >= requiredSpace {
        shouldWrite := true;
        WriteBytes(Encode(|data|));
      }
      written := 0;
      if shouldWrite {
        WriteBytes(toWrite);
        written := |toWrite|;
        if isMessageBuffer {
          FramesAppend(messages, data);
          messages := messages + [data];
        }
      }
    }

    /** `xStreamBufferSend` with no block time: a message is sent whole or not at all, a
      * stream takes as many bytes as fit. */
    method Send(data: seq<Byte>) returns (sent: int)
      requires Valid() && 0 < |data| && |data| + WORD_BYTES < WRAP
      modifies storage, `head, `messages
      ensures Valid()
      ensures isMessageBuffer ==>
                var fits := old(|Content()|) + WORD_BYTES + |data| < length;
                sent == (if fits then |data| else 0) && messages == old(messages) + (if fits then [data] else [])
      ensures !isMessageBuffer ==>
                sent == Min(|data|, length - 1 - old(|Content()|)) && Content() == old(Content()) + data[..sent]
      ensures sent == 0 ==> Content() == old(Content())
    {
      var requiredSpace := |data|;
      if isMessageBuffer {
        requiredSpace := requiredSpace + WORD_BYTES;
      }
      var space := SpacesAvailable();
      sent := WriteMessage(data, space, requiredSpace);
    }

    /** `prvReadMessageFromBuffer`: a message longer than the receiver's buffer puts the
      * tail back. */
    method ReadMessage(bufferLength: int) returns (data: seq<Byte>)
      requires Valid() && isMessageBuffer && messages != [] && 0 <= bufferLength
      modifies `tail, `messages
      ensures Valid()
      ensures if |old(messages)[0]| <= bufferLength
              then data == old(messages)[0] && messages == old(messages)[1..]
              else data == [] && messages == old(messages) && tail == old(tail)
    {
      FramesHead(messages);
      var available := BytesInBuffer();
      var originalTail := tail;
      var word := ReadBytes(WORD_BYTES, available);
      assert word == Frames(messages)[..WORD_BYTES];
      var nextLength := Decode(word);
      available := available - WORD_BYTES;
      assert Content() == Frames(messages)[WORD_BYTES..];
      if nextLength > bufferLength {
        tail := originalTail;
        nextLength := 0;
        data := [];
      } else {
        data := ReadBytes(nextLength, available);
        assert data == Frames(messages)[WORD_BYTES..][..nextLength];
        assert Content() == Frames(messages)[WORD_BYTES..][nextLength..];
        messages := messages[1..];
      }
    }

    /** `xStreamBufferReceive` with no block time: whole messages in order, or the first
      * bytes of the stream; a receive that is too small or finds nothing changes nothing. */
    method Receive(bufferLength: int) returns (data: seq<Byte>)
      requires Valid() && 0 <= bufferLength
      modifies `tail, `messages
      ensures Valid()
      ensures isMessageBuffer ==>
                if old(messages) != [] && |old(messages)[0]| <= bufferLength
                then data == old(messages)[0] && messages == old(messages)[1..]
                else data == [] && messages == old(messages) && tail == old(tail)
      ensures !isMessageBuffer ==> |data| == Min(bufferLength, old(|Content()|)) && old(Content()) == data + Content()
    {
      var available := BytesInBuffer();
      data := [];
      var lengthBytes := if isMessageBuffer then WORD_BYTES else 0;
      if messages != [] && isMessageBuffer { FramesHead(messages); }
      if available > lengthBytes {
        if isMessageBuffer {
          data := ReadMessage(bufferLength);
        } else {
          data := ReadBytes(bufferLength, available);
        }
      }
    }

    /** `xStreamBufferNextMessageLengthBytes` */
    method NextMessageLength() returns (next: int)
      requires Valid() && isMessageBuffer
      modifies `tail
      ensures Valid() && tail == old(tail) && next == if messages == [] then 0 else |messages[0]|
    {
      var available := BytesInBuffer();
      if messages != [] { FramesHead(messages); }
      next := 0;
      if available > WORD_BYTES {
        var originalTail := tail;
        var word := ReadBytes(WORD_BYTES, available);
        assert word == Frames(messages)[..WORD_BYTES];
        next := Decode(word);
        tail := originalTail;
      }
    }
  }
}
