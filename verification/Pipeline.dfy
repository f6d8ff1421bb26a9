/** The whole wire path: fragmenter, encoder, any cuts, decoder, reassembler
    (src/protocol/codec/frame.ts, src/core/wire/framed.ts). */
module Pipeline {
  import opened Bytes
  import opened Sets
  import opened Frames
  import opened Decoder
  import opened Reassembler
  import opened Interleaving
  import opened Fragmenter

  // ---------- The receiving half ----------

  /** The reassembler behind a decoder, as FramedWireAdapter wires them. */
  datatype Receiver = Receiver(table: Table, outputs: seq<Output>, limits: Limits, maxFrameSize: nat)

  function React(r: Receiver, e: Event, now: nat): Receiver {
    match e
    case Got(f) =>
      var (t, out) := OnFrame(r.table, f, now, r.limits);
      r.(table := t, outputs := r.outputs + out)
    case Failed(code) => r.(outputs := r.outputs + [Error(code)])
  }

  /** The listener while the clock reads `now`. */
  function At(now: nat): Listener<Receiver> {
    Listener((r, e) => React(r, e, now), (r: Receiver) => r.maxFrameSize)
  }

  datatype Chunk = Chunk(bytes: seq<byte>, now: nat)

  /** onBytes calls, each at its own time. */
  function FeedTimed(b: seq<byte>, r: Receiver, chunks: seq<Chunk>): (seq<byte>, Receiver)
    decreases |chunks|
  {
    if chunks == [] then (b, r)
    else
      var (b', r') := Scan(At(chunks[0].now), b + chunks[0].bytes, r);
      FeedTimed(b', r', chunks[1..])
  }

  // ---------- A chunk is a run of single bytes at one time ----------

  datatype TimedByte = TimedByte(value: byte, now: nat)

  function Stamp(bytes: seq<byte>, now: nat): (s: seq<TimedByte>)
    ensures |s| == |bytes|
  {
    seq(|bytes|, i requires 0 <= i < |bytes| => TimedByte(bytes[i], now))
  }

  function Stream(chunks: seq<Chunk>): seq<TimedByte> {
    if chunks == [] then [] else Stamp(chunks[0].bytes, chunks[0].now) + Stream(chunks[1..])
  }

  function Values(s: seq<TimedByte>): (v: seq<byte>)
    ensures |v| == |s|
  {
    seq(|s|, i requires 0 <= i < |s| => s[i].value)
  }

  function FeedStream(b: seq<byte>, r: Receiver, s: seq<TimedByte>): (seq<byte>, Receiver)
    decreases |s|
  {
    if s == [] then (b, r)
    else
      var (b', r') := Scan(At(s[0].now), b + [s[0].value], r);
      FeedStream(b', r', s[1..])
  }

  ghost predicate Resting(b: seq<byte>, r: Receiver) {
    Judge(b, r.maxFrameSize) == Wait
  }

  lemma RestsAtAnyTime(b: seq<byte>, r: Receiver, now: nat)
    ensures AtRest(At(now), b, r) <==> Resting(b, r)
  {}

  lemma ScanRests(b: seq<byte>, r: Receiver, now: nat)
    ensures Resting(Scan(At(now), b, r).0, Scan(At(now), b, r).1)
  {
    ScanComesToRest(At(now), b, r);
    RestsAtAnyTime(Scan(At(now), b, r).0, Scan(At(now), b, r).1, now);
  }

  lemma {:induction false} ChunkAsBytes(b: seq<byte>, r: Receiver, bytes: seq<byte>, now: nat)
    requires Resting(b, r)
    ensures FeedStream(b, r, Stamp(bytes, now)) == Scan(At(now), b + bytes, r)
    decreases |bytes|
  {
    hide Judge, At;
    if bytes == [] {
      assert b + bytes == b;
      RestsAtAnyTime(b, r, now);
    } else {
      var (b', r') := Scan(At(now), b + bytes[..1], r);
      assert bytes[..1] == [bytes[0]];
      ScanRests(b + bytes[..1], r, now);
      ChunkAsBytes(b', r', bytes[1..], now);
      assert Stamp(bytes, now)[1..] == Stamp(bytes[1..], now);
      ScanAppend(At(now), b + bytes[..1], bytes[1..], r);
      assert b + bytes[..1] + bytes[1..] == b + bytes;
    }
  }

  lemma {:induction false} FeedStreamAppend(b: seq<byte>, r: Receiver, s: seq<TimedByte>, t: seq<TimedByte>)
    ensures FeedStream(b, r, s + t) == FeedStream(FeedStream(b, r, s).0, FeedStream(b, r, s).1, t)
    decreases |s|
  {
    if s == [] {
      assert s + t == t;
    } else {
      assert (s + t)[1..] == s[1..] + t;
      var (b', r') := Scan(At(s[0].now), b + [s[0].value], r);
      FeedStreamAppend(b', r', s[1..], t);
    }
  }

  /** Only the bytes and the time at which each arrives matter. */
  lemma {:induction false} ChunksAreStream(b: seq<byte>, r: Receiver, chunks: seq<Chunk>)
    requires Resting(b, r)
    ensures FeedTimed(b, r, chunks) == FeedStream(b, r, Stream(chunks))
    decreases |chunks|
  {
    hide Judge, At, Scan;
    if chunks != [] {
      var c := chunks[0];
      ChunkAsBytes(b, r, c.bytes, c.now);
      FeedStreamAppend(b, r, Stamp(c.bytes, c.now), Stream(chunks[1..]));
      ScanRests(b + c.bytes, r, c.now);
      ChunksAreStream(Scan(At(c.now), b + c.bytes, r).0, Scan(At(c.now), b + c.bytes, r).1, chunks[1..]);
    }
  }

  // ---------- One frame, byte by byte ----------

  /** The frame as the decoder hands it on. */
  function Arrived(f: Frame): Frame {
    f.(crc16 := Crc.Crc16(Covered(f)))
  }

  lemma {:induction false} FrameNotYet(r: Receiver, f: Frame, s: seq<TimedByte>)
    requires Sendable(f, r.maxFrameSize) && |s| < |Encode(f)| && Values(s) == Encode(f)[..|s|]
    ensures FeedStream([], r, s) == (Values(s), r)
    decreases |s|
  {
    hide Judge, At, Encode, Sendable;
    if s == [] {
      assert Values(s) == [];
    } else {
      var h, last := s[..|s| - 1], s[|s| - 1];
      assert s == h + [last];
      assert Values(h) == Encode(f)[..|h|];
      FrameNotYet(r, f, h);
      FeedStreamAppend([], r, h, [last]);
      FeedOne(Values(h), r, last);
      assert Values(h) + [last.value] == Values(s);
      PrefixWaits(f, |s|, r.maxFrameSize);
      RestsAtAnyTime(Values(s), r, last.now);
    }
  }

  lemma FeedOne(b: seq<byte>, r: Receiver, x: TimedByte)
    ensures FeedStream(b, r, [x]) == Scan(At(x.now), b + [x.value], r)
  {
    hide Scan, At;
    var (b', r') := Scan(At(x.now), b + [x.value], r);
    assert FeedStream(b', r', [x][1..]) == (b', r');
  }

  /** A frame is delivered when its last byte arrives, and leaves nothing behind. */
  lemma FrameDelivered(r: Receiver, f: Frame, s: seq<TimedByte>)
    requires Sendable(f, r.maxFrameSize) && Values(s) == Encode(f)
    ensures FeedStream([], r, s) == ([], React(r, Got(Arrived(f)), s[|s| - 1].now))
  {
    hide Judge, Encode, Sendable, React, Crc.Crc16;
    var h, last := s[..|s| - 1], s[|s| - 1];
    assert s == h + [last];
    assert Values(h) == Encode(f)[..|h|];
    FrameNotYet(r, f, h);
    FeedStreamAppend([], r, h, [last]);
    FeedOne(Values(h), r, last);
    assert Values(h) + [last.value] == Values(s) == Encode(f) + [];
    ScanEncoded(At(last.now), f, [], r);
    ShortWaits([], React(r, Got(Arrived(f)), last.now).maxFrameSize);
  }

  // ---------- A list of frames ----------

  function EncodeAll(fs: seq<Frame>): seq<byte> {
    if fs == [] then [] else EncodeAll(fs[..|fs| - 1]) + Encode(fs[|fs| - 1])
  }

  /** The frames with the times at which their last bytes arrive. */
  function Arrivals(fs: seq<Frame>, s: seq<TimedByte>): seq<Timed>
    requires |s| == |EncodeAll(fs)|
  {
    if fs == [] then []
    else
      EncodeAllSize(fs);
      var n := |fs| - 1;
      Arrivals(fs[..n], s[..|EncodeAll(fs[..n])|]) + [Timed(Arrived(fs[n]), s[|s| - 1].now)]
  }

  lemma EncodeAllSize(fs: seq<Frame>)
    requires fs != []
    ensures |EncodeAll(fs)| == |EncodeAll(fs[..|fs| - 1])| + |Encode(fs[|fs| - 1])|
    ensures |Encode(fs[|fs| - 1])| > 0
  {
    hide Covered, HeaderBytes;
  }

  ghost predicate TimedLike(ts: seq<Timed>, fs: seq<Frame>, s: seq<TimedByte>) {
    && |ts| == |fs|
    && (forall k :: 0 <= k < |fs| ==> ts[k].frame == Arrived(fs[k]))
    && (forall k :: 0 <= k < |fs| ==> exists i :: 0 <= i < |s| && s[i].now == ts[k].now)
  }

  lemma {:induction false} ArrivalsAre(fs: seq<Frame>, s: seq<TimedByte>)
    requires |s| == |EncodeAll(fs)|
    ensures TimedLike(Arrivals(fs, s), fs, s)
  {
    hide Arrived, Encode, EncodeAll;
    if fs != [] {
      EncodeAllSize(fs);
      var n := |fs| - 1;
      var h := s[..|EncodeAll(fs[..n])|];
      ArrivalsAre(fs[..n], h);
      var ts := Arrivals(fs[..n], h);
      assert Arrivals(fs, s) == ts + [Timed(Arrived(fs[n]), s[|s| - 1].now)];
      hide Arrivals;
      forall k | 0 <= k < |fs| ensures exists i :: 0 <= i < |s| && s[i].now == Arrivals(fs, s)[k].now {
        if k < n {
          var i :| 0 <= i < |h| && h[i].now == ts[k].now;
          assert s[i] == h[i];
        } else {
          assert s[|s| - 1].now == Arrivals(fs, s)[k].now;
        }
      }
    }
  }

  function After(r: Receiver, ts: seq<Timed>): Receiver {
    var (t, out) := Run(r.table, ts, r.limits);
    r.(table := t, outputs := r.outputs + out)
  }

  lemma {:induction false} FramesDelivered(r: Receiver, fs: seq<Frame>, s: seq<TimedByte>)
    requires Values(s) == EncodeAll(fs)
    requires forall f :: f in fs ==> Sendable(f, r.maxFrameSize)
    ensures FeedStream([], r, s) == ([], After(r, Arrivals(fs, s)))
    decreases |fs|
  {
    hide Encode, Sendable, Arrived, OnFrame, FeedStream, Run, React;
    if fs == [] {
      NothingHappens(r);
    } else {
      EncodeAllSize(fs);
      var n := |fs| - 1;
      var p := |EncodeAll(fs[..n])|;
      assert s == s[..p] + s[p..];
      assert Values(s[..p]) == Values(s)[..p] == EncodeAll(fs[..n]);
      assert Values(s[p..]) == Values(s)[p..] == Encode(fs[n]);
      FramesDelivered(r, fs[..n], s[..p]);
      FeedStreamAppend([], r, s[..p], s[p..]);
      FrameDelivered(After(r, Arrivals(fs[..n], s[..p])), fs[n], s[p..]);
      AfterSnoc(r, Arrivals(fs[..n], s[..p]), Timed(Arrived(fs[n]), s[|s| - 1].now));
    }
  }

  lemma NothingHappens(r: Receiver)
    ensures FeedStream([], r, []) == ([], After(r, []))
  {
    assert r.outputs + [] == r.outputs;
  }

  lemma AfterSnoc(r: Receiver, ts: seq<Timed>, last: Timed)
    ensures React(After(r, ts), Got(last.frame), last.now) == After(r, ts + [last])
  {
    hide OnFrame;
    assert (ts + [last])[..|ts|] == ts;
    var (t1, out1) := Run(r.table, ts, r.limits);
    var (t2, out2) := OnFrame(t1, last.frame, last.now, r.limits);
    assert r.outputs + out1 + out2 == r.outputs + (out1 + out2);
  }

  // ---------- One message ----------

  /** Bytes of one message that arrive within the timeout of each other. */
  ghost predicate Timely(s: seq<TimedByte>, timeoutMs: nat) {
    forall i, j :: 0 <= i < |s| && 0 <= j < |s| ==> s[j].now - s[i].now <= timeoutMs
  }

  /** Fragments of one message, each once and in order. */
  ghost predicate InOrder(ts: seq<Timed>, id: nat, payloadType: byte, parts: seq<seq<byte>>, timeoutMs: nat) {
    && |ts| <= |parts| < 256
    && (forall k :: 0 <= k < |ts| ==>
          ts[k].frame.header == MakeFrame(payloadType, id, k, |parts|, parts[k]).header && ts[k].frame.payload == parts[k])
    && (forall i, j :: 0 <= i < |ts| && 0 <= j < |ts| ==> ts[j].now - ts[i].now <= timeoutMs)
  }

  lemma {:induction false} SeenInOrder(ts: seq<Timed>, id: nat, payloadType: byte, parts: seq<seq<byte>>, timeoutMs: nat)
    requires InOrder(ts, id, payloadType, parts, timeoutMs)
    ensures forall i :: i in Seen(ts, id) <==> 0 <= i < |ts|
  {
    if ts != [] {
      SeenInOrder(ts[..|ts| - 1], id, payloadType, parts, timeoutMs);
    }
  }

  lemma NextIsAllowed(h: seq<Timed>, last: Timed, id: nat, payloadType: byte, parts: seq<seq<byte>>, l: Limits)
    requires InOrder(h + [last], id, payloadType, parts, l.timeoutMs) && PartsSize(parts) <= l.maxMessageSize
    ensures Allowed(h, last, map[id := Source(payloadType, parts)], l)
  {
    var src := map[id := Source(payloadType, parts)];
    var ts := h + [last];
    assert ts[|h|] == last;
    assert forall k :: 0 <= k < |h| ==> ts[k] == h[k];
    SeenInOrder(h, id, payloadType, parts, l.timeoutMs);
    assert |h| !in Seen(h, id);
    hide Seen;
    assert Pending(h, src) <= {id};
    SubsetSize(Pending(h, src), {id});
  }

  lemma {:induction false} InOrderIsGood(ts: seq<Timed>, id: nat, payloadType: byte, parts: seq<seq<byte>>, l: Limits)
    requires InOrder(ts, id, payloadType, parts, l.timeoutMs) && PartsSize(parts) <= l.maxMessageSize
    ensures GoodRun(ts, map[id := Source(payloadType, parts)], l)
  {
    hide Allowed;
    if ts != [] {
      var h := ts[..|ts| - 1];
      assert ts == h + [ts[|ts| - 1]];
      InOrderIsGood(h, id, payloadType, parts, l);
      NextIsAllowed(h, ts[|ts| - 1], id, payloadType, parts, l);
    }
  }

  lemma {:induction false} DeliveriesInOrder(ts: seq<Timed>, id: nat, payloadType: byte, parts: seq<seq<byte>>, timeoutMs: nat)
    requires parts != [] && InOrder(ts, id, payloadType, parts, timeoutMs)
    ensures forall x :: x in ts ==> x.frame.header.messageId == id
    ensures Deliveries(ts, map[id := Source(payloadType, parts)]) ==
            if |ts| == |parts| then [Message(id, payloadType, Flatten(parts))] else []
  {
    if ts != [] {
      DeliveriesInOrder(ts[..|ts| - 1], id, payloadType, parts, timeoutMs);
      SeenInOrder(ts, id, payloadType, parts, timeoutMs);
      var src := map[id := Source(payloadType, parts)];
      if |ts| < |parts| { assert |ts| !in Seen(ts, id); }
      assert Complete(ts, id, src) <==> |ts| == |parts|;
    }
  }

  /** A message received whole, from an empty table: it is delivered and the table is empty again. */
  lemma MessageReassembled(ts: seq<Timed>, id: nat, payloadType: byte, parts: seq<seq<byte>>, l: Limits)
    requires parts != [] && |ts| == |parts| && InOrder(ts, id, payloadType, parts, l.timeoutMs)
    requires PartsSize(parts) <= l.maxMessageSize
    ensures Run(map[], ts, l) == (map[], [Message(id, payloadType, Flatten(parts))])
  {
    var src := map[id := Source(payloadType, parts)];
    InOrderIsGood(ts, id, payloadType, parts, l);
    DeliveriesInOrder(ts, id, payloadType, parts, l.timeoutMs);
    RunMatches(ts, src, l);
    SeenInOrder(ts, id, payloadType, parts, l.timeoutMs);
    assert Complete(ts, id, src);
    assert Pending(ts, src) == {};
    assert Run(map[], ts, l).0.Keys == {};
  }

  // ---------- Lists of messages ----------

  datatype Msg = Msg(payloadType: byte, body: seq<byte>)

  ghost predicate Fits(m: Msg, maxFrameSize: nat) {
    IsPayloadType(m.payloadType) && |m.body| <= 255 * (maxFrameSize - OVERHEAD)
  }

  function FramesFor(m: Msg, id: nat, maxFrameSize: nat): seq<Frame> {
    var r := Fragment(m.payloadType, m.body, id, maxFrameSize);
    if r.Fragments? then r.frames else []
  }

  /** What the sender writes for a list of messages, ids taken in turn. */
  function Wire(ms: seq<Msg>, firstId: nat, maxFrameSize: nat): seq<byte> {
    if ms == [] then []
    else EncodeAll(FramesFor(ms[0], firstId, maxFrameSize)) + Wire(ms[1..], NextMessageId(firstId), maxFrameSize)
  }

  /** What the receiver should say. */
  function Delivered(ms: seq<Msg>, firstId: nat): seq<Output> {
    if ms == [] then []
    else [Message(firstId, ms[0].payloadType, ms[0].body)] + Delivered(ms[1..], NextMessageId(firstId))
  }

  /** The bytes of each message arrive within the timeout of each other; different messages may be far apart. */
  ghost predicate TimelyEach(s: seq<TimedByte>, ms: seq<Msg>, firstId: nat, maxFrameSize: nat, timeoutMs: nat)
    decreases |ms|
  {
    ms == [] ||
    var n := |EncodeAll(FramesFor(ms[0], firstId, maxFrameSize))|;
    && n <= |s|
    && Timely(s[..n], timeoutMs)
    && TimelyEach(s[n..], ms[1..], NextMessageId(firstId), maxFrameSize, timeoutMs)
  }

  lemma {:induction false} PartsSizeIs(parts: seq<seq<byte>>)
    ensures PartsSize(parts) == |Flatten(parts)|
  {
    if parts != [] {
      PartsSizeIs(parts[1..]);
    }
  }

  lemma MessageDelivered(r: Receiver, m: Msg, id: nat, maxFrameSize: nat, s: seq<TimedByte>)
    requires OVERHEAD < maxFrameSize <= r.maxFrameSize && maxFrameSize < TWO_16 && id < TWO_16
    requires Fits(m, maxFrameSize) && |m.body| <= r.limits.maxMessageSize && r.table == map[]
    requires Values(s) == EncodeAll(FramesFor(m, id, maxFrameSize)) && Timely(s, r.limits.timeoutMs)
    ensures FeedStream([], r, s) == ([], r.(outputs := r.outputs + [Message(id, m.payloadType, m.body)]))
  {
    var capacity := Capacity(maxFrameSize);
    var parts := Cut(m.body, capacity);
    FragmentIff(m.payloadType, m.body, id, maxFrameSize);
    var fs := FramesFor(m, id, maxFrameSize);
    forall f | f in fs ensures Sendable(f, r.maxFrameSize) {
      var i :| 0 <= i < |fs| && fs[i] == f;
      FramesAreSendable(m.payloadType, m.body, id, maxFrameSize, r.maxFrameSize, i);
    }
    FramesDelivered(r, fs, s);
    ArrivalsAre(fs, s);
    var ts := Arrivals(fs, s);
    InOrderArrivals(fs, s, ts, id, m.payloadType, parts, r.limits.timeoutMs);
    CutJoins(m.body, capacity);
    PartsSizeIs(parts);
    MessageReassembled(ts, id, m.payloadType, parts, r.limits);
  }

  lemma InOrderArrivals(fs: seq<Frame>, s: seq<TimedByte>, ts: seq<Timed>, id: nat, payloadType: byte,
                        parts: seq<seq<byte>>, timeoutMs: nat)
    requires |parts| < 256 && fs == FramesOf(payloadType, id, parts)
    requires TimedLike(ts, fs, s) && Timely(s, timeoutMs)
    ensures InOrder(ts, id, payloadType, parts, timeoutMs)
  {
    forall i, j | 0 <= i < |ts| && 0 <= j < |ts| ensures ts[j].now - ts[i].now <= timeoutMs {
      var a :| 0 <= a < |s| && s[a].now == ts[i].now;
      var b :| 0 <= b < |s| && s[b].now == ts[j].now;
    }
  }

  lemma ValuesSplit(s: seq<TimedByte>, x: seq<byte>, y: seq<byte>)
    requires Values(s) == x + y
    ensures Values(s[..|x|]) == x && Values(s[|x|..]) == y && s == s[..|x|] + s[|x|..]
  {
    assert Values(s[..|x|]) == Values(s)[..|x|];
    assert Values(s[|x|..]) == Values(s)[|x|..];
  }

  /** The stream of a list of messages starts with the stream of the first. */
  lemma FirstMessage(s: seq<TimedByte>, ms: seq<Msg>, firstId: nat, maxFrameSize: nat, timeoutMs: nat)
    requires ms != [] && Values(s) == Wire(ms, firstId, maxFrameSize) && TimelyEach(s, ms, firstId, maxFrameSize, timeoutMs)
    ensures var first := EncodeAll(FramesFor(ms[0], firstId, maxFrameSize));
      var n := |first|;
      && n <= |s| && s == s[..n] + s[n..]
      && Values(s[..n]) == first && Timely(s[..n], timeoutMs)
      && Values(s[n..]) == Wire(ms[1..], NextMessageId(firstId), maxFrameSize)
      && TimelyEach(s[n..], ms[1..], NextMessageId(firstId), maxFrameSize, timeoutMs)
  {
    hide EncodeAll, FramesFor, Timely;
    ValuesSplit(s, EncodeAll(FramesFor(ms[0], firstId, maxFrameSize)), Wire(ms[1..], NextMessageId(firstId), maxFrameSize));
  }

  lemma DeliveredFirst(r: Receiver, ms: seq<Msg>, firstId: nat)
    requires ms != []
    ensures r.outputs + [Message(firstId, ms[0].payloadType, ms[0].body)] + Delivered(ms[1..], NextMessageId(firstId)) ==
            r.outputs + Delivered(ms, firstId)
  {}

  lemma {:induction false} StreamDelivered(r: Receiver, ms: seq<Msg>, firstId: nat, maxFrameSize: nat, s: seq<TimedByte>)
    requires OVERHEAD < maxFrameSize <= r.maxFrameSize && maxFrameSize < TWO_16 && firstId < TWO_16
    requires forall m :: m in ms ==> Fits(m, maxFrameSize) && |m.body| <= r.limits.maxMessageSize
    requires r.table == map[]
    requires Values(s) == Wire(ms, firstId, maxFrameSize)
    requires TimelyEach(s, ms, firstId, maxFrameSize, r.limits.timeoutMs)
    ensures FeedStream([], r, s) == ([], r.(outputs := r.outputs + Delivered(ms, firstId)))
    decreases |ms|
  {
    if ms == [] {
      NothingHappens(r);
      assert r.outputs + [] == r.outputs;
    } else {
      hide *;
      FirstMessage(s, ms, firstId, maxFrameSize, r.limits.timeoutMs);
      var n := |EncodeAll(FramesFor(ms[0], firstId, maxFrameSize))|;
      MessageDelivered(r, ms[0], firstId, maxFrameSize, s[..n]);
      FeedStreamAppend([], r, s[..n], s[n..]);
      NextIdInRange(firstId);
      var r' := r.(outputs := r.outputs + [Message(firstId, ms[0].payloadType, ms[0].body)]);
      StreamDelivered(r', ms[1..], NextMessageId(firstId), maxFrameSize, s[n..]);
      DeliveredFirst(r, ms, firstId);
    }
  }

  lemma NextIdInRange(id: nat)
    requires id < TWO_16
    ensures NextMessageId(id) < TWO_16
  {}

  lemma {:induction false} StreamValues(chunks: seq<Chunk>, bytes: seq<seq<byte>>)
    requires |bytes| == |chunks| && forall k :: 0 <= k < |chunks| ==> bytes[k] == chunks[k].bytes
    ensures Values(Stream(chunks)) == Flatten(bytes)
  {
    if chunks == [] {
      assert Values([]) == [];
    } else {
      StreamValues(chunks[1..], bytes[1..]);
      assert Values(Stamp(chunks[0].bytes, chunks[0].now) + Stream(chunks[1..])) ==
             Values(Stamp(chunks[0].bytes, chunks[0].now)) + Values(Stream(chunks[1..]));
      assert Values(Stamp(chunks[0].bytes, chunks[0].now)) == chunks[0].bytes;
    }
  }

  function BytesOf(chunks: seq<Chunk>): seq<seq<byte>> {
    seq(|chunks|, i requires 0 <= i < |chunks| => chunks[i].bytes)
  }

  /** The whole pipeline: any list of messages, cut into frames, written, cut anywhere into chunks that
      arrive at any times, comes out as the same payload types and bodies in the same order, with
      no error, an empty buffer and an empty table, as long as the receiver's limits admit the
      sender's frames and bodies and no message straggles in over more than the timeout. */
  lemma PipelineRoundTrip(r: Receiver, ms: seq<Msg>, firstId: nat, maxFrameSize: nat, chunks: seq<Chunk>)
    requires OVERHEAD < maxFrameSize <= r.maxFrameSize && maxFrameSize < TWO_16 && firstId < TWO_16
    requires forall m :: m in ms ==> Fits(m, maxFrameSize) && |m.body| <= r.limits.maxMessageSize
    requires r.table == map[]
    requires Flatten(BytesOf(chunks)) == Wire(ms, firstId, maxFrameSize)
    requires TimelyEach(Stream(chunks), ms, firstId, maxFrameSize, r.limits.timeoutMs)
    ensures FeedTimed([], r, chunks) == ([], r.(outputs := r.outputs + Delivered(ms, firstId)))
  {
    ShortWaits([], r.maxFrameSize);
    ChunksAreStream([], r, chunks);
    StreamValues(chunks, BytesOf(chunks));
    StreamDelivered(r, ms, firstId, maxFrameSize, Stream(chunks));
  }

  /** The receiver that FramedWireAdapter builds for a frame limit: the reassembler takes 256 times that limit. */
  function AdapterReceiver(maxFrameSize: nat): Receiver {
    Receiver(map[], [], Limits(maxFrameSize * 256, DEFAULT_TIMEOUT_MS), maxFrameSize)
  }

  /** Two adapters, the sender's limit at most the receiver's: everything the sender can cut gets through. */
  lemma AdapterRoundTrip(limit: nat, ms: seq<Msg>, maxFrameSize: nat, chunks: seq<Chunk>)
    requires OVERHEAD < maxFrameSize <= limit && maxFrameSize < TWO_16
    requires forall m :: m in ms ==> IsPayloadType(m.payloadType) && Fragment(m.payloadType, m.body, 1, maxFrameSize).Fragments?
    requires Flatten(BytesOf(chunks)) == Wire(ms, 1, maxFrameSize)
    requires TimelyEach(Stream(chunks), ms, 1, maxFrameSize, DEFAULT_TIMEOUT_MS)
    ensures var (left, r) := FeedTimed([], AdapterReceiver(limit), chunks);
      left == [] && r.table == map[] && r.outputs == Delivered(ms, 1)
  {
    hide Wire, TimelyEach, FeedTimed, Stream, Fragment, Flatten, Delivered;
    Monotone(maxFrameSize - OVERHEAD, limit, 255);
    forall m | m in ms ensures Fits(m, maxFrameSize) && |m.body| <= limit * 256 {
      FragmentIff(m.payloadType, m.body, 1, maxFrameSize);
    }
    PipelineRoundTrip(AdapterReceiver(limit), ms, 1, maxFrameSize, chunks);
    assert [] + Delivered(ms, 1) == Delivered(ms, 1);
  }
}
