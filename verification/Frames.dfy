/** The standard frame: a 12-byte header, the payload and a 2-byte checksum
    (src/protocol/codec/frame.ts, src/protocol/model.ts). */
module Frames {
  import opened Bytes
  import opened Crc
  import opened ByteBits

  const MAGIC0: byte := 0x41
  const MAGIC1: byte := 0x58
  const VERSION1: byte := 0x01
  const HEADER_SIZE := 12
  const CRC_SIZE := 2
  const OVERHEAD := 14

  const PAYLOAD_CONTROL: byte := 0x01
  const PAYLOAD_RPC: byte := 0x02
  const PAYLOAD_STREAM: byte := 0x03

  const FRAME_VERSION_UNSUPPORTED := 0x12
  const FRAME_PAYLOAD_TYPE_INVALID := 0x15
  const FRAME_CRC_ERROR := 0x16
  const FRAME_FRAGMENT_INVALID := 0x17
  const FRAME_FRAGMENT_MISSING := 0x18
  const FRAME_REASSEMBLY_TIMEOUT := 0x19
  const FRAME_TOO_LARGE := 0x1A

  predicate IsPayloadType(value: byte) {
    value == PAYLOAD_CONTROL || value == PAYLOAD_RPC || value == PAYLOAD_STREAM
  }

  datatype Header = Header(
    version: byte,
    payloadType: byte,
    payloadLength: nat,
    sourceId: byte,
    destinationId: byte,
    messageId: nat,
    frameIndex: byte,
    frameCount: byte)

  datatype Frame = Frame(header: Header, payload: seq<byte>, crc16: nat)

  // ---------- Reading the front of a buffer ----------

  /** What the decoder decides about the front of its buffer: not decidable yet; not a frame here,
      silently; not a frame here, reported; or a whole valid frame of the given size. */
  datatype Verdict = Wait | Drop | Reject(code: nat) | Accept(frame: Frame, size: nat)

  function ReadHeader(b: seq<byte>): (h: Header)
    requires |b| >= HEADER_SIZE
    ensures h.payloadLength < TWO_16
  {
    Header(b[2], b[3], U16At(b, 4), b[6], b[7], U16At(b, 8), b[10], b[11])
  }

  /** The header checks that come before the checksum, in the source's order. */
  function HeaderError(h: Header, limit: nat): Option<nat> {
    if h.version != VERSION1 then Some(FRAME_VERSION_UNSUPPORTED)
    else if !IsPayloadType(h.payloadType) then Some(FRAME_PAYLOAD_TYPE_INVALID)
    else if h.frameCount == 0 || h.frameIndex >= h.frameCount then Some(FRAME_FRAGMENT_INVALID)
    else if h.payloadLength + OVERHEAD > limit then Some(FRAME_TOO_LARGE)
    else None
  }

  predicate CrcMatches(b: seq<byte>, covered: nat)
    requires covered + CRC_SIZE <= |b|
  {
    U16At(b, covered) == Crc16(b[..covered])
  }

  /** The leftmost scanner: look only at the first bytes of the buffer. */
  function Judge(b: seq<byte>, limit: nat): (v: Verdict)
    ensures v.Accept? ==> OVERHEAD <= v.size <= |b| && v.size <= limit
    ensures v.Drop? || v.Reject? ==> |b| > 0
  {
    if |b| == 0 then Wait
    else if b[0] != MAGIC0 then Drop
    else if |b| == 1 then Wait
    else if b[1] != MAGIC1 then Drop
    else if |b| < OVERHEAD then Wait
    else
      var h := ReadHeader(b);
      if HeaderError(h, limit).Some? then Reject(HeaderError(h, limit).value)
      else
        var covered := HEADER_SIZE + h.payloadLength;
        if |b| < covered + CRC_SIZE then Wait
        else if !CrcMatches(b, covered) then Reject(FRAME_CRC_ERROR)
        else Accept(Frame(h, b[HEADER_SIZE..covered], U16At(b, covered)), covered + CRC_SIZE)
  }

  /** A verdict, once reached, does not depend on what arrives later. */
  lemma JudgeStable(b: seq<byte>, more: seq<byte>, limit: nat)
    requires Judge(b, limit) != Wait
    ensures Judge(b + more, limit) == Judge(b, limit)
  {
    if |b| >= OVERHEAD {
      assert ReadHeader(b + more) == ReadHeader(b);
      var covered := HEADER_SIZE + ReadHeader(b).payloadLength;
      if |b| >= covered + CRC_SIZE {
        assert (b + more)[..covered] == b[..covered];
        assert (b + more)[HEADER_SIZE..covered] == b[HEADER_SIZE..covered];
      }
    }
  }

  /** What the decoder keeps is shorter than a header with checksum or than the largest frame. */
  lemma WaitingIsShort(b: seq<byte>, limit: nat)
    requires Judge(b, limit) == Wait
    ensures |b| < OVERHEAD || |b| < limit
  {}

  // ---------- Writing a frame ----------

  function HeaderBytes(f: Frame): (s: seq<byte>)
    ensures |s| == HEADER_SIZE
  {
    [MAGIC0, MAGIC1, f.header.version, f.header.payloadType] + BigEndian(|f.payload|, 2)
    + [f.header.sourceId, f.header.destinationId] + BigEndian(f.header.messageId, 2)
    + [f.header.frameIndex, f.header.frameCount]
  }

  function Covered(f: Frame): seq<byte> {
    HeaderBytes(f) + f.payload
  }

  function Encode(f: Frame): (s: seq<byte>)
    ensures |s| == OVERHEAD + |f.payload|
  {
    Covered(f) + BigEndian(Crc16(Covered(f)), 2)
  }

  /** A frame the decoder would not turn down for its header. */
  predicate Sendable(f: Frame, limit: nat) {
    && f.header.payloadLength == |f.payload| < TWO_16
    && f.header.messageId < TWO_16
    && HeaderError(f.header, limit) == None
  }

  lemma HeaderRoundTrip(f: Frame, rest: seq<byte>)
    requires f.header.payloadLength == |f.payload| < TWO_16 && f.header.messageId < TWO_16
    ensures ReadHeader(HeaderBytes(f) + rest) == f.header
  {
    BigEndian2(|f.payload|);
    BigEndian2(f.header.messageId);
    var b := HeaderBytes(f) + rest;
    assert b[..HEADER_SIZE] == HeaderBytes(f);
    assert b[4..6] == BigEndian(|f.payload|, 2);
    U16AtBigEndian(b, 4, |f.payload|);
    assert b[8..10] == BigEndian(f.header.messageId, 2);
    U16AtBigEndian(b, 8, f.header.messageId);
  }

  lemma Parts(h: seq<byte>, payload: seq<byte>, crc: seq<byte>, rest: seq<byte>)
    requires |h| == HEADER_SIZE && |crc| == CRC_SIZE
    ensures var b := h + payload + crc + rest;
      && var covered := HEADER_SIZE + |payload|;
      && b == h + (payload + crc + rest)
      && b[..covered] == h + payload
      && b[HEADER_SIZE..covered] == payload
      && b[covered..covered + 2] == crc
  {}

  lemma JudgeHeader(b: seq<byte>, limit: nat)
    requires |b| >= OVERHEAD && b[0] == MAGIC0 && b[1] == MAGIC1
    ensures var h := ReadHeader(b);
      && ReadHeader(b[..HEADER_SIZE]) == h
      && (HeaderError(h, limit).Some? ==> Judge(b, limit) == Reject(HeaderError(h, limit).value))
      && (HeaderError(h, limit) == None && |b| < OVERHEAD + h.payloadLength ==> Judge(b, limit) == Wait)
  {}

  lemma JudgeComplete(b: seq<byte>, h: Header, limit: nat)
    requires |b| >= OVERHEAD + h.payloadLength && b[0] == MAGIC0 && b[1] == MAGIC1
    requires ReadHeader(b) == h && HeaderError(h, limit) == None
    ensures var covered := HEADER_SIZE + h.payloadLength;
      Judge(b, limit) ==
        if U16At(b, covered) == Crc16(b[..covered])
        then Accept(Frame(h, b[HEADER_SIZE..covered], U16At(b, covered)), covered + CRC_SIZE)
        else Reject(FRAME_CRC_ERROR)
  {
    hide Register, Crc16, ReadHeader, HeaderError, U16At;
  }

  /** The verdict on a frame whose header is good and whose payload and checksum are anything. */
  lemma JudgeWhole(f: Frame, payload: seq<byte>, crc: nat, rest: seq<byte>, limit: nat)
    requires Sendable(f, limit) && |payload| == |f.payload| && crc < TWO_16
    ensures Judge(HeaderBytes(f) + payload + BigEndian(crc, 2) + rest, limit) ==
            if crc == Crc16(HeaderBytes(f) + payload)
            then Accept(Frame(f.header, payload, crc), OVERHEAD + |payload|)
            else Reject(FRAME_CRC_ERROR)
  {
    hide Register, Crc16, BigEndian, ReadHeader, HeaderError, Judge, U16At;
    var b := HeaderBytes(f) + payload + BigEndian(crc, 2) + rest;
    assert b[0] == MAGIC0 && b[1] == MAGIC1;
    Parts(HeaderBytes(f), payload, BigEndian(crc, 2), rest);
    HeaderRoundTrip(f, payload + BigEndian(crc, 2) + rest);
    U16AtBigEndian(b, HEADER_SIZE + |payload|, crc);
    JudgeComplete(b, f.header, limit);
  }

  /** Reading an encoded frame gives the frame back, with its checksum filled in. */
  lemma EncodeRoundTrip(f: Frame, rest: seq<byte>, limit: nat)
    requires Sendable(f, limit)
    ensures Judge(Encode(f) + rest, limit) == Accept(f.(crc16 := Crc16(Covered(f))), OVERHEAD + |f.payload|)
  {
    JudgeWhole(f, f.payload, Crc16(Covered(f)), rest, limit);
  }

  /** No proper prefix of a frame is enough to decide. */
  lemma PrefixWaits(f: Frame, n: nat, limit: nat)
    requires Sendable(f, limit) && n < |Encode(f)|
    ensures Judge(Encode(f)[..n], limit) == Wait
  {
    hide Register, Crc16, BigEndian, HeaderError, U16At;
    var b := Encode(f)[..n];
    if n >= 2 { assert b[0] == MAGIC0 && b[1] == MAGIC1; }
    if n >= OVERHEAD {
      assert b == HeaderBytes(f) + b[HEADER_SIZE..];
      HeaderRoundTrip(f, b[HEADER_SIZE..]);
      JudgeHeader(b, limit);
    }
  }

  // ---------- The format, byte by byte ----------

  /** The number that two adjacent bytes spell. */
  function Pair(b: seq<byte>, i: nat): nat
    requires i + 1 < |b|
  {
    b[i] as nat * 256 + b[i + 1] as nat
  }

  /** A buffer that starts with a whole frame for a receiver with this limit. */
  predicate StartsWithFrame(b: seq<byte>, limit: nat) {
    && 14 <= |b|
    && b[0] == 0x41 && b[1] == 0x58
    && b[2] == 1
    && (b[3] == 1 || b[3] == 2 || b[3] == 3)
    && b[10] < b[11]
    && Pair(b, 4) + 14 <= limit
    && Pair(b, 4) + 14 <= |b|
    && Pair(b, Pair(b, 4) + 12) == Crc16(b[..Pair(b, 4) + 12])
  }

  /** The frame that such a buffer starts with. */
  function FrameAtFront(b: seq<byte>): Frame
    requires 14 <= |b| && Pair(b, 4) + 14 <= |b|
  {
    var n := Pair(b, 4);
    Frame(Header(b[2], b[3], n, b[6], b[7], Pair(b, 8), b[10], b[11]), b[12..n + 12], Pair(b, n + 12))
  }

  lemma PairIs(b: seq<byte>, i: nat)
    requires i + 1 < |b|
    ensures Pair(b, i) == U16At(b, i) < TWO_16
    ensures BigEndian(Pair(b, i), 2) == [b[i], b[i + 1]]
  {
    BigEndian2(Pair(b, i));
  }

  /** A frame is accepted exactly where its bytes are those of a valid frame, and it is that frame. */
  lemma AcceptedIff(b: seq<byte>, limit: nat)
    ensures Judge(b, limit).Accept? <==> StartsWithFrame(b, limit)
    ensures StartsWithFrame(b, limit) ==> Judge(b, limit) == Accept(FrameAtFront(b), Pair(b, 4) + 14)
  {
    hide Crc16, U16At;
    if 14 <= |b| {
      PairIs(b, 4);
      PairIs(b, 8);
      if Pair(b, 4) + 14 <= |b| { PairIs(b, Pair(b, 4) + 12); }
    }
  }

  /** Where a frame is accepted, the buffer starts with the encoding of that frame. */
  lemma AcceptedIsEncoded(b: seq<byte>, limit: nat)
    requires StartsWithFrame(b, limit)
    ensures b[..Pair(b, 4) + 14] == Encode(FrameAtFront(b)) && Sendable(FrameAtFront(b), limit)
  {
    hide Crc16, BigEndian, U16At;
    var n := Pair(b, 4);
    var f := FrameAtFront(b);
    PairIs(b, 4);
    PairIs(b, 8);
    PairIs(b, n + 12);
    assert HeaderBytes(f) == b[..12];
    assert Covered(f) == b[..n + 12];
    assert b[..n + 14] == b[..n + 12] + [b[n + 12], b[n + 13]];
  }

  /** What else can be said of the front of a buffer: which byte decides, and what is reported. */
  lemma RejectedFor(b: seq<byte>, limit: nat)
    ensures b != [] && b[0] != 0x41 ==> Judge(b, limit) == Drop
    ensures |b| >= 2 && b[0] == 0x41 && b[1] != 0x58 ==> Judge(b, limit) == Drop
    ensures (b == [] || b[0] == 0x41) && (|b| < 2 || b[1] == 0x58) && |b| < 14 ==> Judge(b, limit) == Wait
    ensures |b| >= 14 && b[0] == 0x41 && b[1] == 0x58 ==>
      var v := Judge(b, limit); var n := Pair(b, 4);
      if b[2] != 1 then v == Reject(0x12)
      else if b[3] < 1 || b[3] > 3 then v == Reject(0x15)
      else if b[10] >= b[11] then v == Reject(0x17)
      else if n + 14 > limit then v == Reject(0x1A)
      else if n + 14 > |b| then v == Wait
      else if Pair(b, n + 12) != Crc16(b[..n + 12]) then v == Reject(0x16)
      else v.Accept?
  {
    hide Crc16, U16At;
    if |b| >= 14 {
      PairIs(b, 4);
      if Pair(b, 4) + 14 <= |b| { PairIs(b, Pair(b, 4) + 12); }
    }
  }

  // ---------- Damaged frames ----------

  /** The bytes of a frame whose payload was replaced on the way; header and checksum arrived as sent. */
  function WithPayload(f: Frame, payload: seq<byte>): seq<byte> {
    HeaderBytes(f) + payload + BigEndian(Crc16(Covered(f)), 2)
  }

  /** A payload of the right length whose checksum differs is reported as a checksum error, never delivered. */
  lemma DamageReported(f: Frame, payload: seq<byte>, rest: seq<byte>, limit: nat)
    requires Sendable(f, limit) && |payload| == |f.payload|
    requires Register(INITIAL, HeaderBytes(f) + payload) != Register(INITIAL, Covered(f))
    ensures Judge(WithPayload(f, payload) + rest, limit) == Reject(FRAME_CRC_ERROR)
  {
    CrcDiffers(HeaderBytes(f) + payload, Covered(f));
    JudgeWhole(f, payload, Crc16(Covered(f)), rest, limit);
  }

  lemma PayloadWindow(f: Frame, payload: seq<byte>, q: nat, n: nat)
    requires AgreeOutside(f.payload, payload, q, n)
    ensures AgreeOutside(Covered(f), HeaderBytes(f) + payload, 8 * HEADER_SIZE + q, n)
  {
    hide HeaderBytes, SameBit;
    var x, y := Covered(f), HeaderBytes(f) + payload;
    forall j | 0 <= j < 8 * |x| && !(8 * HEADER_SIZE + q <= j < 8 * HEADER_SIZE + q + n) ensures SameBitAt(x, y, j) {
      if j < 8 * HEADER_SIZE {
        SameByteBits(HeaderBytes(f)[j / 8], j % 8);
      } else {
        assert SameBitAt(f.payload, payload, j - 8 * HEADER_SIZE);
      }
    }
  }

  lemma PayloadTail(h: seq<byte>, x: seq<byte>, y: seq<byte>)
    requires x != y
    ensures h + x != h + y
  {
    assert (h + x)[|h|..] == x && (h + y)[|h|..] == y;
  }

  /** A burst of at most sixteen adjacent bits, wherever in the payload it starts and however short the payload is,
      is caught. */
  lemma BurstDamageReported(f: Frame, payload: seq<byte>, q: nat, rest: seq<byte>, limit: nat)
    requires Sendable(f, limit) && payload != f.payload && AgreeOutside(f.payload, payload, q, 16)
    ensures Judge(WithPayload(f, payload) + rest, limit) == Reject(FRAME_CRC_ERROR)
  {
    hide AgreeOutside, HeaderBytes, Register, Sendable, Judge;
    PayloadWindow(f, payload, q, 16);
    PayloadTail(HeaderBytes(f), f.payload, payload);
    BurstDetected(INITIAL, Covered(f), HeaderBytes(f) + payload, 8 * HEADER_SIZE + q);
    AgreeLength(f.payload, payload, q);
    DamageReported(f, payload, rest, limit);
  }

  /** So is any change inside two adjacent bytes, or the last one. */
  lemma TwoByteDamageReported(f: Frame, payload: seq<byte>, p: nat, rest: seq<byte>, limit: nat)
    requires Sendable(f, limit) && payload != f.payload && |payload| == |f.payload|
    requires forall i :: 0 <= i < |payload| && i != p && i != p + 1 ==> payload[i] == f.payload[i]
    ensures Judge(WithPayload(f, payload) + rest, limit) == Reject(FRAME_CRC_ERROR)
  {
    hide HeaderBytes, Register, Sendable, Judge;
    PayloadTail(HeaderBytes(f), f.payload, payload);
    TwoByteWindowDetected(INITIAL, Covered(f), HeaderBytes(f) + payload, HEADER_SIZE + p);
    DamageReported(f, payload, rest, limit);
  }
}
