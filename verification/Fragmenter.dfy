/** The sending side: messages cut into frames, frames written as bytes
    (src/protocol/codec/frame.ts, MessageFragmenter and FrameEncoder; src/io/io.ts, ByteWriter). */
module Fragmenter {
  import opened Bytes
  import opened Frames
  import opened Io

  // ---------- Cutting ----------

  function Capacity(maxFrameSize: nat): nat {
    if maxFrameSize <= OVERHEAD then 0 else maxFrameSize - OVERHEAD
  }

  /** A body cut into pieces of the given capacity; an empty body is one empty piece. */
  function Cut(body: seq<byte>, capacity: nat): (parts: seq<seq<byte>>)
    requires capacity > 0
    ensures parts != []
    decreases |body|
  {
    if |body| <= capacity then [body] else [body[..capacity]] + Cut(body[capacity..], capacity)
  }

  function MakeFrame(payloadType: byte, messageId: nat, index: byte, count: byte, payload: seq<byte>): Frame {
    Frame(Header(VERSION1, payloadType, |payload|, 0, 0, messageId, index, count), payload, 0)
  }

  function FramesOf(payloadType: byte, messageId: nat, parts: seq<seq<byte>>): (fs: seq<Frame>)
    requires |parts| < 256
    ensures |fs| == |parts|
  {
    seq(|parts|, i requires 0 <= i < |parts| => MakeFrame(payloadType, messageId, i, |parts|, parts[i]))
  }

  datatype Fragments = Fragments(frames: seq<Frame>) | TooSmall | TooMany

  function Fragment(payloadType: byte, body: seq<byte>, messageId: nat, maxFrameSize: nat): Fragments {
    if Capacity(maxFrameSize) == 0 then
      if body != [] then TooSmall else Fragments(FramesOf(payloadType, messageId, [[]]))
    else
      var parts := Cut(body, Capacity(maxFrameSize));
      if |parts| > 255 then TooMany else Fragments(FramesOf(payloadType, messageId, parts))
  }

  function NextMessageId(id: nat): nat {
    if id + 1 > 0xFFFF then 1 else id + 1
  }

  // ---------- What cutting means ----------

  lemma {:induction false} CutJoins(body: seq<byte>, capacity: nat)
    requires capacity > 0
    ensures Flatten(Cut(body, capacity)) == body
    decreases |body|
  {
    if |body| <= capacity {
      assert Flatten([body]) == body + Flatten([body][1..]);
    } else {
      CutJoins(body[capacity..], capacity);
      var rest := Cut(body[capacity..], capacity);
      assert ([body[..capacity]] + rest)[1..] == rest;
    }
  }

  lemma {:induction false} CutPieces(body: seq<byte>, capacity: nat, i: nat)
    requires capacity > 0 && i < |Cut(body, capacity)|
    ensures i * capacity <= |body|
    ensures Cut(body, capacity)[i] == body[i * capacity..if |body| < i * capacity + capacity then |body| else i * capacity + capacity]
    decreases |body|
  {
    if |body| > capacity && i > 0 {
      CutPieces(body[capacity..], capacity, i - 1);
      assert (i - 1) * capacity + capacity == i * capacity;
    }
  }

  lemma Monotone(a: int, b: int, c: nat)
    requires a <= b
    ensures a * c <= b * c
  {}

  /** Every piece but the last is full, and the last is not empty unless the body is. */
  lemma {:induction false} CutCount(body: seq<byte>, capacity: nat)
    requires capacity > 0
    ensures var n := |Cut(body, capacity)|;
      |body| <= n * capacity && (if body == [] then n == 1 else (n - 1) * capacity < |body|)
    decreases |body|
  {
    if |body| > capacity {
      CutCount(body[capacity..], capacity);
    }
  }

  /** So the number of pieces is the length divided by the capacity, rounded up. */
  lemma CeilingIs(length: nat, capacity: nat, n: nat)
    requires capacity > 0 && length <= n * capacity && (n - 1) * capacity < length
    ensures (length + capacity - 1) / capacity == n
  {
    var q := (length + capacity - 1) / capacity;
    DivisionBounds(length + capacity - 1, capacity);
    if q > n { Monotone(n + 1, q, capacity); }
    if q < n { Monotone(q + 1, n, capacity); }
  }

  lemma DivisionBounds(a: nat, d: nat)
    requires d > 0
    ensures (a / d) * d <= a < (a / d + 1) * d
  {}

  /** A message fits exactly when its body has at most 255 times the capacity. */
  lemma FitsIff(body: seq<byte>, capacity: nat)
    requires capacity > 0
    ensures |Cut(body, capacity)| <= 255 <==> |body| <= 255 * capacity
  {
    CutCount(body, capacity);
    var n := |Cut(body, capacity)|;
    if n <= 255 { Monotone(n, 255, capacity); } else { Monotone(255, n - 1, capacity); }
  }

  /** The sender cuts its message if and only if the frame size leaves room for it in 255 frames;
      the frames then carry the body, in order, none of them over the size. */
  lemma FragmentIff(payloadType: byte, body: seq<byte>, messageId: nat, maxFrameSize: nat)
    ensures Fragment(payloadType, body, messageId, maxFrameSize).Fragments? <==> |body| <= 255 * Capacity(maxFrameSize)
    ensures Fragment(payloadType, body, messageId, maxFrameSize).TooSmall? <==> Capacity(maxFrameSize) == 0 && body != []
  {
    if Capacity(maxFrameSize) > 0 { FitsIff(body, Capacity(maxFrameSize)); }
  }

  lemma FramesAreSendable(payloadType: byte, body: seq<byte>, messageId: nat, maxFrameSize: nat, limit: nat, i: nat)
    requires OVERHEAD < maxFrameSize <= limit && maxFrameSize < TWO_16 && messageId < TWO_16 && IsPayloadType(payloadType)
    requires Fragment(payloadType, body, messageId, maxFrameSize).Fragments?
    requires i < |Fragment(payloadType, body, messageId, maxFrameSize).frames|
    ensures var f := Fragment(payloadType, body, messageId, maxFrameSize).frames[i];
      Sendable(f, limit) && |Encode(f)| <= maxFrameSize
  {
    CutPieces(body, Capacity(maxFrameSize), i);
  }

  /** Field by field: as many frames as the body fills, numbered from zero, each with the next piece of the body. */
  lemma FragmentFields(payloadType: byte, body: seq<byte>, messageId: nat, maxFrameSize: nat, i: nat)
    requires 14 < maxFrameSize && Fragment(payloadType, body, messageId, maxFrameSize).Fragments?
    requires i < |Fragment(payloadType, body, messageId, maxFrameSize).frames|
    ensures var fs := Fragment(payloadType, body, messageId, maxFrameSize).frames;
      var room := maxFrameSize - 14;
      && |fs| == (if body == [] then 1 else (|body| + room - 1) / room)
      && i * room <= |body|
      && var piece := body[i * room..if |body| < i * room + room then |body| else i * room + room];
         fs[i].payload == piece && fs[i].header == Header(1, payloadType, |piece|, 0, 0, messageId, i, |fs|)
  {
    hide Cut;
    var room := maxFrameSize - 14;
    CutPieces(body, room, i);
    CutCount(body, room);
    if body != [] { CeilingIs(|body|, room, |Cut(body, room)|); }
  }

  /** The id of the message after n others. */
  function IdAfterMessages(n: nat): nat {
    if n == 0 then 1 else NextMessageId(IdAfterMessages(n - 1))
  }

  /** Message ids go from 1 to 65535 and round again; zero is never used. */
  lemma {:induction false} MessageIdsCount(n: nat)
    ensures IdAfterMessages(n) == 1 + n % 65535
  {
    if n > 0 { MessageIdsCount(n - 1); }
  }

  // ---------- The fragmenter object ----------

  class MessageFragmenter {
    var nextMessageId: nat
    var maxFrameSize: nat

    constructor (maxFrameSize: nat)
      ensures nextMessageId == 1 && this.maxFrameSize == maxFrameSize
    {
      nextMessageId := 1;
      this.maxFrameSize := maxFrameSize;
    }

    method SetMaxFrameSize(size: nat)
      modifies this`maxFrameSize
      ensures maxFrameSize == size
    {
      maxFrameSize := size;
    }

    method TakeMessageId() returns (id: nat)
      modifies this`nextMessageId
      ensures id == old(nextMessageId) && nextMessageId == NextMessageId(id)
    {
      id := nextMessageId;
      nextMessageId := nextMessageId + 1;
      if nextMessageId > 0xFFFF { nextMessageId := 1; }
    }

    /** An id is taken whether or not the message can be cut. */
    method FragmentMessage(payloadType: byte, body: seq<byte>) returns (r: Fragments)
      modifies this`nextMessageId
      ensures r == Fragment(payloadType, body, old(nextMessageId), maxFrameSize)
      ensures nextMessageId == NextMessageId(old(nextMessageId))
    {
      var capacity := Capacity(maxFrameSize);
      var messageId := TakeMessageId();
      assert FramesOf(payloadType, messageId, [[]]) == [MakeFrame(payloadType, messageId, 0, 1, [])];
      if capacity == 0 {
        if |body| > 0 { return TooSmall; }
        return Fragments([MakeFrame(payloadType, messageId, 0, 1, [])]);
      }
      CutCount(body, capacity);
      if |body| == 0 {
        assert Cut(body, capacity) == [[]];
        return Fragments([MakeFrame(payloadType, messageId, 0, 1, [])]);
      }
      CeilingIs(|body|, capacity, |Cut(body, capacity)|);
      hide FramesOf;
      var frameCount := (|body| + capacity - 1) / capacity;
      if frameCount > 255 { return TooMany; }
      var frames := SliceBody(payloadType, body, messageId, capacity, frameCount);
      return Fragments(frames);
    }

    /** The loop of fragment(). */
    static method SliceBody(payloadType: byte, body: seq<byte>, messageId: nat, capacity: nat, frameCount: nat)
        returns (frames: seq<Frame>)
      requires capacity > 0 && frameCount == |Cut(body, capacity)| <= 255
      ensures frames == FramesOf(payloadType, messageId, Cut(body, capacity))
    {
      hide Cut;
      frames := [];
      ghost var all := FramesOf(payloadType, messageId, Cut(body, capacity));
      for i := 0 to frameCount
        invariant frames == all[..i]
      {
        CutPieces(body, capacity, i);
        var offset := i * capacity;
        var end := if |body| < offset + capacity then |body| else offset + capacity;
        frames := frames + [MakeFrame(payloadType, messageId, i, frameCount, body[offset..end])];
      }
      assert all[..frameCount] == all;
    }
  }

  // ---------- Writing frames ----------

  class FrameEncoder {
    constructor () {}

    static method WriteHeader(writer: ByteWriter, frame: Frame)
      modifies writer
      ensures writer.values == old(writer.values) + HeaderBytes(frame)
    {
      hide BigEndian;
      OneByte(MAGIC0);
      OneByte(MAGIC1);
      OneByte(frame.header.version);
      OneByte(frame.header.payloadType);
      OneByte(frame.header.sourceId);
      OneByte(frame.header.destinationId);
      OneByte(frame.header.frameIndex);
      OneByte(frame.header.frameCount);
      writer.WriteU8(MAGIC0);
      writer.WriteU8(MAGIC1);
      writer.WriteU8(frame.header.version);
      writer.WriteU8(frame.header.payloadType);
      writer.WriteU16(|frame.payload|);
      writer.WriteU8(frame.header.sourceId);
      writer.WriteU8(frame.header.destinationId);
      writer.WriteU16(frame.header.messageId);
      writer.WriteU8(frame.header.frameIndex);
      writer.WriteU8(frame.header.frameCount);
    }

    method EncodeFrame(frame: Frame) returns (bytes: seq<byte>)
      ensures bytes == Encode(frame)
    {
      hide BigEndian, HeaderBytes;
      var writer := new ByteWriter();
      WriteHeader(writer, frame);
      writer.WriteBytes(frame.payload);
      assert writer.values == Covered(frame);
      var crc := Crc.Crc16CcittFalse(writer.values);
      writer.WriteU16(crc as int);
      bytes := writer.TakeBytes();
    }
  }
}
