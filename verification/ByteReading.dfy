/** Reading the bytes of a channel through the framed wire, frame by frame and in chunks of any size
    (src/core/wire/framed.ts, src/protocol/codec/frame.ts). */
module ByteReading {
  import opened Bytes
  import opened Frames
  import opened Decoder
  import opened Reassembler
  import opened Interleaving
  import opened Fragmenter
  import opened Pipeline
  import opened FramedWire
  import opened PayloadCodec
  import T = TwoParty

  // ---------- The bytes of messages ----------

  function PacketFrames(p: T.Packet, id: nat, codec: Codec): seq<Frame> {
    var r := Fragment(TypeOf(p.msg), BodyOf(p.msg, codec), id, p.cap);
    if r.Fragments? then r.frames else []
  }

  function Spell(fs: seq<Frame>): seq<byte> {
    if fs == [] then [] else Encode(fs[0]) + Spell(fs[1..])
  }

  /** The bytes of messages that follow each other, ids taken in turn. */
  function Unread(ps: seq<T.Packet>, id: nat, codec: Codec): seq<byte> {
    if ps == [] then [] else Spell(PacketFrames(ps[0], id, codec)) + Unread(ps[1..], NextMessageId(id), codec)
  }

  function IdAfter(ps: seq<T.Packet>, id: nat): nat {
    if ps == [] then id else IdAfter(ps[1..], NextMessageId(id))
  }

  lemma {:induction false} SpellAppend(fs: seq<Frame>, f: Frame)
    ensures Spell(fs + [f]) == Spell(fs) + Encode(f)
    decreases |fs|
  {
    hide Encode;
    if fs == [] {
      assert [f][1..] == [] && fs + [f] == [f];
      assert Spell([f]) == Encode(f) + Spell([]);
    } else {
      assert (fs + [f])[1..] == fs[1..] + [f];
      SpellAppend(fs[1..], f);
      Associative(Encode(fs[0]), Spell(fs[1..]), Encode(f));
    }
  }

  lemma {:induction false} SpellIsEncodeAll(fs: seq<Frame>)
    ensures Spell(fs) == EncodeAll(fs)
  {
    hide Encode;
    if fs != [] {
      var n := |fs| - 1;
      SpellIsEncodeAll(fs[..n]);
      SpellAppend(fs[..n], fs[n]);
      assert fs[..n] + [fs[n]] == fs;
    }
  }

  lemma {:induction false} UnreadAppend(ps: seq<T.Packet>, p: T.Packet, id: nat, codec: Codec)
    ensures Unread(ps + [p], id, codec) == Unread(ps, id, codec) + Spell(PacketFrames(p, IdAfter(ps, id), codec))
    ensures IdAfter(ps + [p], id) == NextMessageId(IdAfter(ps, id))
    decreases |ps|
  {
    hide Spell, PacketFrames, NextMessageId;
    if ps == [] {
      assert ps + [p] == [p] && [p][1..] == [];
      assert Unread([p], id, codec) == Spell(PacketFrames(p, id, codec)) + Unread([], NextMessageId(id), codec);
      assert IdAfter([p], id) == IdAfter([], NextMessageId(id));
    } else {
      assert (ps + [p])[1..] == ps[1..] + [p];
      UnreadAppend(ps[1..], p, NextMessageId(id), codec);
      Associative(Spell(PacketFrames(ps[0], id, codec)), Unread(ps[1..], NextMessageId(id), codec),
                  Spell(PacketFrames(p, IdAfter(ps, id), codec)));
    }
  }

  // ---------- Half a message ----------

  /** Where a reader stands: in the message with this id, after this many frames, which came when. */
  datatype Place = Place(id: nat, ts: seq<Timed>)

  function Parts(p: T.Packet, codec: Codec): seq<seq<byte>> {
    if Capacity(p.cap) == 0 then [] else Cut(BodyOf(p.msg, codec), Capacity(p.cap))
  }

  /** The message can be written and, once written, be put together. */
  ghost predicate Writable(p: T.Packet, l: Limits, codec: Codec) {
    && OVERHEAD < p.cap < TWO_16
    && |BodyOf(p.msg, codec)| <= 255 * Capacity(p.cap) && |BodyOf(p.msg, codec)| <= l.maxMessageSize
  }

  /** The reassembler holds exactly the frames of the message that came so far, and is as old as the first. */
  ghost predicate Halfway(port: Port, p: T.Packet, at: Place, codec: Codec) {
    && InOrder(at.ts, at.id, TypeOf(p.msg), Parts(p, codec), port.limits.timeoutMs)
    && |at.ts| < |Parts(p, codec)|
    && Run(map[], at.ts, port.limits) == (port.table, [])
    && (forall i :: 0 <= i < |at.ts| ==> at.ts[0].now <= at.ts[i].now <= port.now)
    && (at.ts != [] ==> at.id in port.table && port.table[at.id].createdAt == at.ts[0].now)
  }

  /** The message has not been waited for too long. */
  predicate InTime(port: Port, at: Place) {
    at.ts == [] || port.now - at.ts[0].now <= port.limits.timeoutMs
  }

  lemma FramesAre(p: T.Packet, id: nat, l: Limits, codec: Codec)
    requires Writable(p, l, codec)
    ensures var parts := Parts(p, codec); var r := Fragment(TypeOf(p.msg), BodyOf(p.msg, codec), id, p.cap);
      && parts != [] && |parts| < 256 && Flatten(parts) == BodyOf(p.msg, codec)
      && PartsSize(parts) == |BodyOf(p.msg, codec)|
      && r == Fragments(FramesOf(TypeOf(p.msg), id, parts)) && PacketFrames(p, id, codec) == r.frames
  {
    hide Cut, FramesOf;
    var body := BodyOf(p.msg, codec);
    FitsIff(body, Capacity(p.cap));
    CutJoins(body, Capacity(p.cap));
    PartsSizeIs(Parts(p, codec));
  }

  lemma NothingYet(port: Port, p: T.Packet, id: nat, codec: Codec)
    requires port.table == map[] && Writable(p, port.limits, codec)
    ensures Halfway(port, p, Place(id, []), codec) && InTime(port, Place(id, []))
  {
    hide Fragment;
    FramesAre(p, id, port.limits, codec);
  }

  /** What the reassembler makes of the frames of one message, each coming at its own time. */
  lemma FramesSay(ts: seq<Timed>, id: nat, payloadType: byte, parts: seq<seq<byte>>, l: Limits)
    requires parts != [] && InOrder(ts, id, payloadType, parts, l.timeoutMs) && PartsSize(parts) <= l.maxMessageSize
    ensures var (t, outs) := Run(map[], ts, l);
      && outs == (if |ts| == |parts| then [Message(id, payloadType, Flatten(parts))] else [])
      && (|ts| == |parts| ==> t == map[])
      && (0 < |ts| < |parts| ==> id in t)
  {
    hide Run, Allowed, GoodRun, Holds;
    var src := map[id := Source(payloadType, parts)];
    InOrderIsGood(ts, id, payloadType, parts, l);
    DeliveriesInOrder(ts, id, payloadType, parts, l.timeoutMs);
    RunMatches(ts, src, l);
    if |ts| == |parts| { MessageReassembled(ts, id, payloadType, parts, l); }
    else if ts != [] { HalfIsPending(ts, id, payloadType, parts, l.timeoutMs); }
  }

  lemma HalfIsPending(ts: seq<Timed>, id: nat, payloadType: byte, parts: seq<seq<byte>>, timeoutMs: nat)
    requires InOrder(ts, id, payloadType, parts, timeoutMs) && 0 < |ts| < |parts|
    ensures id in Pending(ts, map[id := Source(payloadType, parts)])
  {
    hide Seen;
    SeenInOrder(ts, id, payloadType, parts, timeoutMs);
    assert 0 in Seen(ts, id) && |ts| !in Seen(ts, id);
  }

  lemma AddedAge(t: Table, a: Assembly, f: Frame, l: Limits)
    requires f.header.messageId in t ==> t[f.header.messageId] == a
    ensures var t' := AddFragment(t, a, f, l).0; var id := f.header.messageId; id in t' ==> t'[id].createdAt == a.createdAt
  {
    hide SomeMissing, Joined, Matches;
  }

  /** An assembly is as old as its first fragment. */
  lemma AgeStays(t: Table, f: Frame, now: nat, l: Limits)
    requires f.header.messageId in OnFrame(t, f, now, l).0
    ensures var id := f.header.messageId;
      OnFrame(t, f, now, l).0[id].createdAt == if id in t && (f.header.frameCount == 1 || !Expired(t[id], now, l.timeoutMs))
                                               then t[id].createdAt else now
  {
    hide AddFragment;
    var id := f.header.messageId;
    if f.header.frameCount != 1 {
      var t' := t - ExpiredIds(t, now, l.timeoutMs);
      assert id in t' <==> id in t && !Expired(t[id], now, l.timeoutMs);
      AddedAge(t', if id in t' then t'[id] else NewAssembly(f.header, now), f, l);
    }
  }

  lemma OneMore(ts: seq<Timed>, x: Timed, id: nat, payloadType: byte, parts: seq<seq<byte>>, timeoutMs: nat)
    requires InOrder(ts, id, payloadType, parts, timeoutMs) && |ts| < |parts| < 256
    requires x.frame == Arrived(MakeFrame(payloadType, id, |ts|, |parts|, parts[|ts|]))
    requires ts != [] ==> x.now - ts[0].now <= timeoutMs
    requires forall i :: 0 <= i < |ts| ==> ts[0].now <= ts[i].now <= x.now
    ensures InOrder(ts + [x], id, payloadType, parts, timeoutMs)
    ensures var all := ts + [x]; forall i :: 0 <= i < |all| ==> all[0].now <= all[i].now <= x.now
  {
    hide Arrived;
    ArrivedIs(MakeFrame(payloadType, id, |ts|, |parts|, parts[|ts|]));
  }

  lemma ArrivedIs(f: Frame)
    ensures Arrived(f).header == f.header && Arrived(f).payload == f.payload
  {}

  lemma RunOnce(ts: seq<Timed>, x: Timed, l: Limits)
    ensures var before := Run(map[], ts, l); var (t, outs) := OnFrame(before.0, x.frame, x.now, l);
      Run(map[], ts + [x], l) == (t, before.1 + outs)
  {
    hide OnFrame;
    assert (ts + [x])[..|ts|] == ts;
  }

  function NextPlace(port: Port, p: T.Packet, at: Place, codec: Codec): Place
    requires |at.ts| < |PacketFrames(p, at.id, codec)|
  {
    Place(at.id, at.ts + [Timed(Arrived(PacketFrames(p, at.id, codec)[|at.ts|]), port.now)])
  }

  /** One more frame of a message: either the message is complete and nothing of it is left, or the reader stands
      one frame further on. */
  lemma FrameHeard(port: Port, p: T.Packet, at: Place, codec: Codec) returns (t: Table, outs: seq<Output>)
    requires Writable(p, port.limits, codec) && Halfway(port, p, at, codec) && InTime(port, at)
    ensures var fs := PacketFrames(p, at.id, codec);
      && |at.ts| < |fs| && (t, outs) == OnFrame(port.table, Arrived(fs[|at.ts|]), port.now, port.limits)
      && (|at.ts| + 1 == |fs| ==> t == map[] && outs == [Message(at.id, TypeOf(p.msg), BodyOf(p.msg, codec))])
      && (|at.ts| + 1 < |fs| ==> outs == [] && Halfway(port.(table := t), p, NextPlace(port, p, at, codec), codec)
                                 && InTime(port.(table := t), NextPlace(port, p, at, codec)))
  {
    hide Parts, Arrived, OnFrame, Run, InOrder, Fragment, PacketFrames, PartsSize, Flatten;
    FramesAre(p, at.id, port.limits, codec);
    var parts := Parts(p, codec);
    var x := Timed(Arrived(PacketFrames(p, at.id, codec)[|at.ts|]), port.now);
    OneMore(at.ts, x, at.id, TypeOf(p.msg), parts, port.limits.timeoutMs);
    FramesSay(at.ts + [x], at.id, TypeOf(p.msg), parts, port.limits);
    RunOnce(at.ts, x, port.limits);
    var r := OnFrame(port.table, x.frame, port.now, port.limits);
    t, outs := r.0, r.1;
    assert [] + outs == outs;
    if |at.ts| + 1 < |parts| {
      ArrivedIs(PacketFrames(p, at.id, codec)[|at.ts|]);
      AgeStays(port.table, x.frame, port.now, port.limits);
      if at.ts == [] { NothingRun(port.limits); }
    }
  }

  lemma NothingRun(l: Limits)
    ensures Run(map[], [], l) == (map[], [])
  {}

  /** The same as the decoder sees it. */
  lemma ReadFrame(port: Port, p: T.Packet, at: Place, rest: seq<byte>, codec: Codec) returns (port': Port)
    requires Writable(p, port.limits, codec) && Halfway(port, p, at, codec) && InTime(port, at) && at.id < TWO_16
    requires port.core.control.Some? && T.Passes(port.core, p, codec)
    ensures var fs := PacketFrames(p, at.id, codec);
      && |at.ts| < |fs| && Sendable(fs[|at.ts|], port.core.maxFrameSize)
      && Scan(Reader(codec), Encode(fs[|at.ts|]) + rest, port) == Scan(Reader(codec), rest, port')
      && (|at.ts| + 1 == |fs| ==> port' == port.(core := T.Receive(port.core, p, codec, port.random), table := map[]))
      && (|at.ts| + 1 < |fs| ==> port' == port.(table := port'.table)
                                 && Halfway(port', p, NextPlace(port, p, at, codec), codec)
                                 && InTime(port', NextPlace(port, p, at, codec)))
  {
    hide Scan, Encode, Sendable, OnFrame, Halfway, InTime, Fragment, NextPlace, Parts, T.Read;
    var fs := PacketFrames(p, at.id, codec);
    var t, outs := FrameHeard(port, p, at, codec);
    FramesAre(p, at.id, port.limits, codec);
    LargestFrameBounds(p.msg, p.cap, at.id, port.core.maxFrameSize, codec);
    var f := fs[|at.ts|];
    assert f in fs;
    ScanEncoded(Reader(codec), f, rest, port);
    port' := HearEvent(port, Got(Arrived(f)), codec);
    if |at.ts| + 1 == |fs| {
      HearOne(port.(table := t), outs[0], codec);
      DispatchIsReceive(port.(table := t), p, codec);
    }
  }

  lemma DispatchIsReceive(port: Port, p: T.Packet, codec: Codec)
    requires T.Passes(port.core, p, codec)
    ensures Dispatch(port, TypeOf(p.msg), BodyOf(p.msg, codec), codec) ==
            port.(core := T.Receive(port.core, p, codec, port.random))
  {
    hide T.Passes;
  }

  // ---------- The bytes still to be read ----------

  /** The bytes that lie before a reader are those of the messages on their way, from where it stands. */
  ghost predicate Ahead(data: seq<byte>, port: Port, ps: seq<T.Packet>, at: Place, codec: Codec) {
    if ps == [] then data == [] && port.table == map[]
    else
      && Halfway(port, ps[0], at, codec) && |at.ts| <= |PacketFrames(ps[0], at.id, codec)|
      && data == Spell(PacketFrames(ps[0], at.id, codec)[|at.ts|..]) + Unread(ps[1..], NextMessageId(at.id), codec)
  }

  /** What has been kept is less than the next frame. */
  predicate Short(buffer: seq<byte>, ps: seq<T.Packet>, at: Place, codec: Codec) {
    if ps == [] then buffer == []
    else
      |at.ts| < |PacketFrames(ps[0], at.id, codec)| && |buffer| < |Encode(PacketFrames(ps[0], at.id, codec)[|at.ts|])|
  }

  /** The next frame lies at the front. */
  lemma FrameAhead(data: seq<byte>, port: Port, ps: seq<T.Packet>, at: Place, codec: Codec) returns (rest: seq<byte>)
    requires ps != [] && Writable(ps[0], port.limits, codec) && Ahead(data, port, ps, at, codec)
    ensures var fs := PacketFrames(ps[0], at.id, codec);
      && |at.ts| < |fs| && data == Encode(fs[|at.ts|]) + rest
      && rest == Spell(fs[|at.ts| + 1..]) + Unread(ps[1..], NextMessageId(at.id), codec)
  {
    hide PacketFrames, Encode, Fragment, Parts, Unread, InOrder;
    FramesAre(ps[0], at.id, port.limits, codec);
    var fs := PacketFrames(ps[0], at.id, codec);
    var k := |at.ts|;
    assert fs[k..][1..] == fs[k + 1..] && fs[k..][0] == fs[k];
    rest := Spell(fs[k + 1..]) + Unread(ps[1..], NextMessageId(at.id), codec);
    Associative(Encode(fs[k]), Spell(fs[k + 1..]), Unread(ps[1..], NextMessageId(at.id), codec));
  }

  /** Part of a frame is not enough to do anything. */
  lemma ScanWaits(data: seq<byte>, later: seq<byte>, f: Frame, rest: seq<byte>, port: Port, codec: Codec)
    requires data + later == Encode(f) + rest && |data| < |Encode(f)| && Sendable(f, port.core.maxFrameSize)
    ensures Scan(Reader(codec), data, port) == (data, port)
  {
    hide Encode, Judge, Sendable;
    assert data == (data + later)[..|data|] == Encode(f)[..|data|];
    PrefixWaits(f, |data|, port.core.maxFrameSize);
  }

  lemma ScanNothing(port: Port, codec: Codec)
    ensures Scan(Reader(codec), [], port) == ([], port)
  {}

  /** A whole frame in the data. */
  lemma SplitFrame(data: seq<byte>, later: seq<byte>, frame: seq<byte>, rest: seq<byte>)
    requires data + later == frame + rest && |data| >= |frame|
    ensures data == frame + data[|frame|..] && data[|frame|..] + later == rest
  {
    assert data[..|frame|] == (data + later)[..|frame|] == frame;
    assert rest == (data + later)[|frame|..] == data[|frame|..] + later;
  }

  /** After a message the reader stands before the next. */
  lemma AheadOfNext(port: Port, ps: seq<T.Packet>, id: nat, codec: Codec)
    requires port.table == map[] && (ps != [] ==> Writable(ps[0], port.limits, codec))
    ensures Ahead(Unread(ps, id, codec), port, ps, Place(id, []), codec)
    ensures ps != [] ==> InTime(port, Place(id, []))
  {
    hide PacketFrames, Halfway, Spell;
    if ps != [] {
      NothingYet(port, ps[0], id, codec);
      var fs := PacketFrames(ps[0], id, codec);
      assert fs[0..] == fs;
    }
  }

  lemma MessageDone(fs: seq<Frame>, ps: seq<T.Packet>, id: nat, codec: Codec)
    ensures Spell(fs[|fs|..]) + Unread(ps, id, codec) == Unread(ps, id, codec)
  {
    assert fs[|fs|..] == [] && Spell([]) == [];
  }
}
