/** The framed wire under a core: decoder, reassembler, fragmenter and encoder put together
    (src/core/wire/framed.ts). Reading can change the frame limit while the buffer is being read. */
module FramedWire {
  import opened Bytes
  import opened Frames
  import opened Decoder
  import opened Reassembler
  import opened Interleaving
  import opened Fragmenter
  import opened Pipeline
  import opened PayloadCodec
  import C = ControlSession
  import M = Messages
  import K = Core
  import T = TwoParty

  /** A core with the assemblies of its wire, the time of reading and a random number for a handshake that may
      be read. The reassembler's limit is fixed when the wire is made. */
  datatype Port = Port(core: K.Core, table: Table, limits: Limits, now: nat, random: bv32)

  function NewPort(core: K.Core): Port {
    Port(core, map[], Limits(core.maxFrameSize * 256, DEFAULT_TIMEOUT_MS), 0, 1)
  }

  /** dispatchPayload */
  function Dispatch(p: Port, payloadType: byte, body: seq<byte>, codec: Codec): Port {
    if payloadType == PAYLOAD_CONTROL then p.(core := K.HandleControlBody(p.core, body))
    else if payloadType == PAYLOAD_RPC then
      match codec.decodeRpc(body)
      case Parsed(msg) => p.(core := K.HandleRpc(p.core, msg, p.random))
      case Broken(code) => p.(core := K.Emit(p.core, M.Failed(code)))
      case Blank => p
    else if payloadType == PAYLOAD_STREAM then
      var s := codec.decodeStream(body);
      if s.Some? then p.(core := K.HandleStream(p.core, s.value.0, s.value.1)) else p
    else p
  }

  function Hear(p: Port, outs: seq<Output>, codec: Codec): Port
    decreases |outs|
  {
    if outs == [] then p
    else
      var p1 := match outs[0]
        case Message(_, payloadType, body) => Dispatch(p, payloadType, body, codec)
        case Error(code) => p.(core := K.Emit(p.core, M.Failed(code)));
      Hear(p1, outs[1..], codec)
  }

  function HearEvent(p: Port, e: Decoder.Event, codec: Codec): Port {
    match e
    case Got(frame) =>
      var (t, outs) := OnFrame(p.table, frame, p.now, p.limits);
      Hear(p.(table := t), outs, codec)
    case Failed(code) => p.(core := K.Emit(p.core, M.Failed(code)))
  }

  /** The decoder's listener: a core that has just handled an OPEN or ACCEPT has a new frame limit, and the
      decoder works with it from the next byte on. */
  function Reader(codec: Codec): Listener<Port> {
    Listener((p: Port, e: Decoder.Event) => HearEvent(p, e, codec), (p: Port) => p.core.maxFrameSize)
  }

  /** However the bytes are cut into chunks, the core and the table end the same and the same bytes are left,
      even where a message in the middle of the bytes changes the frame limit. */
  lemma ChunksDoNotMatter(p: Port, b: seq<byte>, one: seq<seq<byte>>, other: seq<seq<byte>>, codec: Codec)
    requires AtRest(Reader(codec), b, p) && Flatten(one) == Flatten(other)
    ensures Feed(Reader(codec), b, p, one) == Feed(Reader(codec), b, p, other)
  {
    ChunkingIndependence(Reader(codec), b, p, one, other);
  }

  // ---------- One message, read through the wire ----------

  function AllAt(fs: seq<Frame>, now: nat): (ts: seq<Timed>)
    ensures |ts| == |fs|
  {
    seq(|fs|, i requires 0 <= i < |fs| => Timed(Arrived(fs[i]), now))
  }

  /** Until its last frame is there, a message makes the reassembler say nothing. */
  lemma PrefixSays(payloadType: byte, body: seq<byte>, id: nat, cap: nat, now: nat, l: Limits, k: nat)
    requires Fragment(payloadType, body, id, cap).Fragments? && Capacity(cap) > 0 && |body| <= l.maxMessageSize
    requires k <= |Fragment(payloadType, body, id, cap).frames|
    ensures var fs := Fragment(payloadType, body, id, cap).frames;
      Run(map[], AllAt(fs[..k], now), l).1 == if k == |fs| then [Message(id, payloadType, body)] else []
    ensures k == |Fragment(payloadType, body, id, cap).frames| ==>
      Run(map[], AllAt(Fragment(payloadType, body, id, cap).frames[..k], now), l).0 == map[]
  {
    hide Cut, Run, Allowed, GoodRun;
    var fs := Fragment(payloadType, body, id, cap).frames;
    var parts := Cut(body, Capacity(cap));
    CutCount(body, Capacity(cap));
    CutJoins(body, Capacity(cap));
    PartsSizeIs(parts);
    var ts := AllAt(fs[..k], now);
    assert InOrder(ts, id, payloadType, parts, l.timeoutMs);
    InOrderIsGood(ts, id, payloadType, parts, l);
    DeliveriesInOrder(ts, id, payloadType, parts, l.timeoutMs);
    RunMatches(ts, map[id := Source(payloadType, parts)], l);
    if k == |fs| { MessageReassembled(ts, id, payloadType, parts, l); }
  }

  lemma RunOneMore(fs: seq<Frame>, k: nat, now: nat, l: Limits)
    requires k < |fs|
    ensures var before := Run(map[], AllAt(fs[..k], now), l); var after := Run(map[], AllAt(fs[..k + 1], now), l);
      var (t, outs) := OnFrame(before.0, Arrived(fs[k]), now, l);
      after == (t, before.1 + outs)
  {
    hide OnFrame;
    var ts := AllAt(fs[..k + 1], now);
    assert ts[..k] == AllAt(fs[..k], now) && ts[k] == Timed(Arrived(fs[k]), now);
  }

  /** A port after some frames of a message. */
  function Midway(p: Port, fs: seq<Frame>, k: nat): Port
    requires k <= |fs|
  {
    p.(table := Run(map[], AllAt(fs[..k], p.now), p.limits).0)
  }

  lemma HearOne(p: Port, o: Output, codec: Codec)
    requires o.Message?
    ensures Hear(p, [o], codec) == Dispatch(p, o.payloadType, o.body, codec)
  {
    hide Dispatch;
    assert [o][1..] == [];
  }

  /** The frames of one message, read one after another. */
  lemma {:induction false} FramesRead(p: Port, payloadType: byte, body: seq<byte>, id: nat, cap: nat, k: nat, rest: seq<byte>, codec: Codec)
    requires Fragment(payloadType, body, id, cap).Fragments? && Capacity(cap) > 0 && |body| <= p.limits.maxMessageSize
    requires p.table == map[] && k <= |Fragment(payloadType, body, id, cap).frames|
    requires forall f :: f in Fragment(payloadType, body, id, cap).frames ==> Sendable(f, p.core.maxFrameSize)
    ensures var fs := Fragment(payloadType, body, id, cap).frames; var next := Reader(codec);
      Scan(next, EncodeAll(fs[..k]) + rest, p) ==
        Scan(next, rest, if k == |fs| then Dispatch(p, payloadType, body, codec) else Midway(p, fs, k))
    decreases k
  {
    hide Run, Scan, Dispatch, Sendable, OnFrame, Fragment, Encode;
    var fs := Fragment(payloadType, body, id, cap).frames;
    var next := Reader(codec);
    PrefixSays(payloadType, body, id, cap, p.now, p.limits, k);
    if k == 0 {
      SomeFrames(payloadType, body, id, cap);
      EmptyRun(p.limits, p.now);
      assert fs[..0] == [] && EncodeAll(fs[..0]) + rest == rest;
    } else {
      var j := k - 1;
      var f := fs[j];
      assert fs[..k][..j] == fs[..j] && f in fs;
      Associative(EncodeAll(fs[..j]), Encode(f), rest);
      FramesRead(p, payloadType, body, id, cap, j, Encode(f) + rest, codec);
      PrefixSays(payloadType, body, id, cap, p.now, p.limits, j);
      RunOneMore(fs, j, p.now, p.limits);
      var mid := Midway(p, fs, j);
      ScanEncoded(next, f, rest, mid);
      var (t, outs) := OnFrame(mid.table, Arrived(f), p.now, p.limits);
      assert [] + outs == outs;
      if k == |fs| {
        HearOne(mid.(table := t), Message(id, payloadType, body), codec);
        assert mid.(table := t) == p;
      }
    }
  }

  lemma EmptyRun(l: Limits, now: nat)
    ensures Run(map[], AllAt([], now), l) == (map[], [])
  {}

  lemma SomeFrames(payloadType: byte, body: seq<byte>, id: nat, cap: nat)
    requires Fragment(payloadType, body, id, cap).Fragments? && Capacity(cap) > 0
    ensures |Fragment(payloadType, body, id, cap).frames| > 0
  {
    CutCount(body, Capacity(cap));
  }

  /** A message whose frames all pass is handed to the core once its last frame is read, and nothing is left
      behind. */
  lemma MessageRead(p: Port, payloadType: byte, body: seq<byte>, id: nat, cap: nat, rest: seq<byte>, codec: Codec)
    requires Fragment(payloadType, body, id, cap).Fragments? && Capacity(cap) > 0 && |body| <= p.limits.maxMessageSize
    requires p.table == map[]
    requires forall f :: f in Fragment(payloadType, body, id, cap).frames ==> Sendable(f, p.core.maxFrameSize)
    ensures Scan(Reader(codec), EncodeAll(Fragment(payloadType, body, id, cap).frames) + rest, p) ==
            Scan(Reader(codec), rest, Dispatch(p, payloadType, body, codec))
  {
    hide Scan, Dispatch, Fragment, Sendable;
    var fs := Fragment(payloadType, body, id, cap).frames;
    assert fs[..|fs|] == fs;
    FramesRead(p, payloadType, body, id, cap, |fs|, rest, codec);
  }

  // ---------- What the two-party model says of the wire ----------

  function TypeOf(m: M.Outbound): byte {
    if m.ControlBody? then PAYLOAD_CONTROL else PAYLOAD_RPC
  }

  lemma SendableWithin(f: Frame, cap: nat, limit: nat)
    requires Sendable(f, cap) && f.header.payloadLength + OVERHEAD <= limit
    ensures Sendable(f, limit)
  {}

  /** The two-party model's largest frame bounds the frames that are really written. */
  lemma LargestFrameBounds(m: M.Outbound, cap: nat, id: nat, limit: nat, codec: Codec)
    requires OVERHEAD < cap < TWO_16 && id < TWO_16 && Fragment(TypeOf(m), BodyOf(m, codec), id, cap).Fragments?
    requires T.LargestFrame(|BodyOf(m, codec)|, cap) <= limit
    ensures forall f :: f in Fragment(TypeOf(m), BodyOf(m, codec), id, cap).frames ==> Sendable(f, limit)
  {
    hide Sendable, Fragment;
    var body := BodyOf(m, codec);
    var fs := Fragment(TypeOf(m), body, id, cap).frames;
    forall f | f in fs ensures Sendable(f, limit) {
      var i :| 0 <= i < |fs| && fs[i] == f;
      FramesAreSendable(TypeOf(m), body, id, cap, cap, i);
      FrameSize(TypeOf(m), body, id, cap, i);
      SendableWithin(f, cap, limit);
    }
  }

  /** A body that fits one frame is the frame's payload; otherwise no payload is over the capacity. */
  lemma FrameSize(payloadType: byte, body: seq<byte>, id: nat, cap: nat, i: nat)
    requires OVERHEAD < cap && Fragment(payloadType, body, id, cap).Fragments?
    requires i < |Fragment(payloadType, body, id, cap).frames|
    ensures var f := Fragment(payloadType, body, id, cap).frames[i];
      f.header.payloadLength + OVERHEAD <= if |body| + OVERHEAD <= cap then |body| + OVERHEAD else cap
  {
    CutPieces(body, Capacity(cap), i);
  }

  /** Where the two-party model writes a message and lets it pass, the message can be cut and the wire hands
      exactly that message to the core. */
  lemma PassingMessageIsRead(p: Port, cfg: T.Config, m: M.Outbound, cap: nat, id: nat, rest: seq<byte>)
    requires cfg.framed && p.core.control.Some?
    requires T.CanCut(cfg, m, cap) && T.Passes(p.core, T.Packet(m, cap), cfg.codec)
    requires OVERHEAD < cap < TWO_16 && id < TWO_16 && p.table == map[] && |BodyOf(m, cfg.codec)| <= p.limits.maxMessageSize
    ensures Fragment(TypeOf(m), BodyOf(m, cfg.codec), id, cap).Fragments?
    ensures Scan(Reader(cfg.codec), EncodeAll(Fragment(TypeOf(m), BodyOf(m, cfg.codec), id, cap).frames) + rest, p) ==
            Scan(Reader(cfg.codec), rest, p.(core := T.Receive(p.core, T.Packet(m, cap), cfg.codec, p.random)))
  {
    hide Scan, Fragment, Sendable, K.HandleControlBody, K.HandleRpc, EncodeAll;
    FragmentIff(TypeOf(m), BodyOf(m, cfg.codec), id, cap);
    LargestFrameBounds(m, cap, id, p.core.maxFrameSize, cfg.codec);
    MessageRead(p, TypeOf(m), BodyOf(m, cfg.codec), id, cap, rest, cfg.codec);
  }

  /** Where the two-party model fails to write, there is nothing to be written. */
  lemma UncuttableHasNoFrames(cfg: T.Config, m: M.Outbound, cap: nat, id: nat)
    ensures cfg.framed ==>
      (Fragment(TypeOf(m), BodyOf(m, cfg.codec), id, cap).Fragments? <==> T.CanCut(cfg, m, cap))
  {
    hide Fragment;
    FragmentIff(TypeOf(m), BodyOf(m, cfg.codec), id, cap);
  }

  /** Where it does not let a message pass, the first thing the core hears is FrameTooLarge. */
  lemma BlockedMessageIsReported(p: Port, cfg: T.Config, m: M.Outbound, cap: nat, id: nat, rest: seq<byte>)
    requires cfg.framed && p.core.control.Some?
    requires T.CanCut(cfg, m, cap) && !T.Passes(p.core, T.Packet(m, cap), cfg.codec)
    requires OVERHEAD < cap < TWO_16 && id < TWO_16
    ensures Fragment(TypeOf(m), BodyOf(m, cfg.codec), id, cap).Fragments?
    ensures var bytes := EncodeAll(Fragment(TypeOf(m), BodyOf(m, cfg.codec), id, cap).frames) + rest;
      bytes != [] && Scan(Reader(cfg.codec), bytes, p) ==
        Scan(Reader(cfg.codec), bytes[1..], p.(core := K.Emit(p.core, M.Failed(FRAME_TOO_LARGE))))
  {
    hide Scan, Fragment, Judge, EncodeAll;
    var body := BodyOf(m, cfg.codec);
    FragmentIff(TypeOf(m), body, id, cap);
    var fs := Fragment(TypeOf(m), body, id, cap).frames;
    SomeFrames(TypeOf(m), body, id, cap);
    FramesAreSendable(TypeOf(m), body, id, cap, cap, 0);
    FirstFrameIsLargest(TypeOf(m), body, id, cap);
    var tail := EncodeTail(fs, rest);
    var bytes := EncodeAll(fs) + rest;
    TooLargeRejected(fs[0], tail, cap, p.core.maxFrameSize);
    ScanRejects(Reader(cfg.codec), bytes, p, FRAME_TOO_LARGE);
  }

  lemma ScanRejects(next: Listener<Port>, b: seq<byte>, p: Port, code: nat)
    requires Judge(b, next.limit(p)) == Reject(code)
    ensures b != [] && Scan(next, b, p) == Scan(next, b[1..], next.react(p, Decoder.Failed(code)))
  {}

  lemma FirstFrameIsLargest(payloadType: byte, body: seq<byte>, id: nat, cap: nat)
    requires OVERHEAD < cap && Fragment(payloadType, body, id, cap).Fragments?
    requires |Fragment(payloadType, body, id, cap).frames| > 0
    ensures var f := Fragment(payloadType, body, id, cap).frames[0];
      f.header.payloadLength + OVERHEAD == T.LargestFrame(|body|, cap)
  {
    CutPieces(body, Capacity(cap), 0);
  }

  lemma {:induction false} EncodeTail(fs: seq<Frame>, rest: seq<byte>) returns (tail: seq<byte>)
    requires fs != []
    ensures EncodeAll(fs) + rest == Encode(fs[0]) + tail
    decreases |fs|
  {
    hide Encode;
    var n := |fs| - 1;
    if n == 0 {
      assert fs[..0] == [] && EncodeAll(fs[..0]) == [];
      tail := rest;
    } else {
      tail := EncodeTail(fs[..n], Encode(fs[n]) + rest);
      Associative(EncodeAll(fs[..n]), Encode(fs[n]), rest);
    }
  }

  lemma TooLargeRejected(f: Frame, rest: seq<byte>, cap: nat, limit: nat)
    requires Sendable(f, cap) && f.header.payloadLength + OVERHEAD > limit
    ensures Judge(Encode(f) + rest, limit) == Reject(FRAME_TOO_LARGE)
  {
    hide ReadHeader, Crc.Crc16, BigEndian;
    var tail := f.payload + BigEndian(Crc.Crc16(Covered(f)), 2) + rest;
    assert Encode(f) + rest == HeaderBytes(f) + tail;
    HeaderRoundTrip(f, tail);
    JudgeHeader(HeaderBytes(f) + tail, limit);
  }

  // ---------- Frame-size closure ----------

  /** Two ends that agreed on a frame size: whatever either of them can cut, the other admits frame by frame,
      before and after it takes the agreed size over, and has room for when the message is put together. */
  lemma FrameSizeClosure(cfg: T.Config, s: T.Side, payloadType: byte, body: seq<byte>, id: nat)
    requires T.GoodLocals(cfg) && id < TWO_16 && IsPayloadType(payloadType)
    requires Fragment(payloadType, body, id, T.Deal(cfg).maxFrameSize).Fragments?
    ensures var peer := T.LocalOf(cfg, T.Other(s)).maxFrameSize;
      |body| <= peer * 256 &&
      forall f :: f in Fragment(payloadType, body, id, T.Deal(cfg).maxFrameSize).frames ==>
        Sendable(f, peer) && Sendable(f, T.Deal(cfg).maxFrameSize)
  {
    hide Sendable, Fragment;
    var m := T.Deal(cfg).maxFrameSize;
    var peer := T.LocalOf(cfg, T.Other(s)).maxFrameSize;
    var fs := Fragment(payloadType, body, id, m).frames;
    FragmentIff(payloadType, body, id, m);
    Monotone(Capacity(m), peer, 255);
    forall f | f in fs ensures Sendable(f, peer) && Sendable(f, m) {
      var i :| 0 <= i < |fs| && fs[i] == f;
      FramesAreSendable(payloadType, body, id, m, peer, i);
      FramesAreSendable(payloadType, body, id, m, m, i);
    }
  }

  // ---------- The adapter object ----------

  class FramedWireAdapter {
    const codec: Codec
    const decoder: FrameDecoder<Port>
    const fragmenter: MessageFragmenter
    const encoder: FrameEncoder

    /** Decoder and fragmenter work with one frame size, the core's. */
    ghost predicate Valid()
      reads this, decoder, fragmenter
    {
      && decoder.Valid() && decoder.next == Reader(codec)
      && fragmenter.maxFrameSize == decoder.maxFrameSize
    }

    constructor (core: K.Core, codec: Codec)
      ensures Valid() && decoder.listener == NewPort(core) && decoder.buffer == [] && this.codec == codec
      ensures fragmenter.maxFrameSize == core.maxFrameSize && fragmenter.nextMessageId == 1
    {
      this.codec := codec;
      decoder := new FrameDecoder(Reader(codec), NewPort(core));
      fragmenter := new MessageFragmenter(core.maxFrameSize);
      encoder := new FrameEncoder();
    }

    method FeedBytes(bytes: seq<byte>, now: nat, random: bv32)
      requires Valid()
      modifies decoder, fragmenter`maxFrameSize
      ensures Valid()
      ensures (decoder.buffer, decoder.listener) ==
              Scan(Reader(codec), old(decoder.buffer) + bytes, old(decoder.listener).(now := now, random := random))
    {
      hide Scan, HearEvent;
      decoder.listener := decoder.listener.(now := now, random := random);
      decoder.OnBytes(bytes);
      SetMaxFrameSize(decoder.listener.core.maxFrameSize);
    }

    method SetMaxFrameSize(size: nat)
      modifies decoder`maxFrameSize, fragmenter`maxFrameSize
      ensures decoder.maxFrameSize == size && fragmenter.maxFrameSize == size
    {
      decoder.SetMaxFrameSize(size);
      fragmenter.SetMaxFrameSize(size);
    }

    /** framePayload: None when the message cannot be cut. */
    method FramePayload(payloadType: byte, body: seq<byte>) returns (chunks: Option<seq<seq<byte>>>)
      requires Valid()
      modifies fragmenter`nextMessageId
      ensures Valid() && fragmenter.nextMessageId == NextMessageId(old(fragmenter.nextMessageId))
      ensures var r := Fragment(payloadType, body, old(fragmenter.nextMessageId), fragmenter.maxFrameSize);
        if r.Fragments? then chunks.Some? && Flatten(chunks.value) == EncodeAll(r.frames) else chunks == None
    {
      hide Fragment, Encode;
      var r := fragmenter.FragmentMessage(payloadType, body);
      if !r.Fragments? { return None; }
      var out: seq<seq<byte>> := [];
      for n := 0 to |r.frames|
        invariant fragmenter.nextMessageId == NextMessageId(old(fragmenter.nextMessageId))
        invariant Flatten(out) == EncodeAll(r.frames[..n])
      {
        var bytes := encoder.EncodeFrame(r.frames[n]);
        assert r.frames[..n + 1][..n] == r.frames[..n];
        FlattenAppend(out, [bytes]);
        assert Flatten([bytes]) == bytes + Flatten([bytes][1..]) == bytes;
        out := out + [bytes];
      }
      assert r.frames[..|r.frames|] == r.frames;
      return Some(out);
    }
  }
}
