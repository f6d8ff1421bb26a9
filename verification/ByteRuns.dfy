/** Two cores whose framed wires exchange bytes, read in chunks of any size (src/core/core.ts,
    src/core/wire/framed.ts, src/endpoint/endpoint.ts): every run of bytes is a run of whole messages. */
module ByteRuns {
  import opened Bytes
  import opened Frames
  import opened Decoder
  import opened Reassembler
  import opened Fragmenter
  import opened Pipeline
  import opened FramedWire
  import opened ByteReading
  import opened PayloadCodec
  import M = Messages
  import K = Core
  import C = ControlSession
  import T = TwoParty
  import S = TwoPartySafety
  import R = TwoPartyRuns
  import D = TwoPartyDelivery

  /** One end: the core on its wire, the bytes its decoder keeps, the fragmenter's next message id, and the bytes
      on their way to it. */
  datatype ByteEnd = ByteEnd(port: Port, buffer: seq<byte>, up: bool, mute: bool, nextId: nat, incoming: seq<byte>)

  datatype ByteWorld = ByteWorld(server: ByteEnd, client: ByteEnd)

  /** As between the two parties, but what is read is a chunk of so many bytes at a time of the reader's clock. */
  datatype ByteAct =
    | Start(side: T.Side)
    | Flush(side: T.Side, atOnce: bool)
    | Feed(side: T.Side, count: nat, now: nat, random: bv32)
    | Beat(side: T.Side)
    | Say(side: T.Side, msg: M.RpcMessage)

  function Get(b: ByteWorld, s: T.Side): ByteEnd {
    if s == T.Server then b.server else b.client
  }

  function Set(b: ByteWorld, s: T.Side, e: ByteEnd): ByteWorld {
    if s == T.Server then b.(server := e) else b.(client := e)
  }

  /** A chunk comes when no message has been waited for longer than the reassembler's timeout. */
  predicate Enabled(b: ByteWorld, a: ByteAct) {
    var e := Get(b, a.side);
    match a
    case Start(_) => !e.up
    case Flush(_, _) => !e.mute && e.port.core.outbox != []
    case Feed(_, count, now, _) =>
      && e.up && count <= |e.incoming| && e.port.now <= now
      && forall id :: id in e.port.table ==> !Expired(e.port.table[id], now, e.port.limits.timeoutMs)
    case Beat(_) => e.port.core.control.Some? && e.port.core.gate != M.LinkConnected
    case Say(_, msg) => e.port.core.gate == M.AppReady && T.IsBusiness(msg, e.port.core.hs.sid)
  }

  function WithCore(e: ByteEnd, c: K.Core): ByteEnd {
    e.(port := e.port.(core := c))
  }

  /** framePayload and the write of its chunks; a message that cannot be cut ends the outbound stream. */
  function Write(b: ByteWorld, cfg: T.Config, s: T.Side, atOnce: bool): ByteWorld
    requires Get(b, s).port.core.outbox != []
  {
    var e := Get(b, s);
    var p := T.Cut(e.port.core, atOnce);
    var r := Fragment(TypeOf(p.msg), BodyOf(p.msg, cfg.codec), e.nextId, p.cap);
    if !r.Fragments? then
      Set(b, s, WithCore(e, e.port.core.(outbox := [])).(mute := true, nextId := NextMessageId(e.nextId)))
    else
      var peer := Get(b, T.Other(s));
      Set(Set(b, s, WithCore(e, e.port.core.(outbox := e.port.core.outbox[1..])).(nextId := NextMessageId(e.nextId))),
          T.Other(s), peer.(incoming := peer.incoming + EncodeAll(r.frames)))
  }

  function Next(b: ByteWorld, cfg: T.Config, a: ByteAct): ByteWorld
    requires Enabled(b, a)
  {
    var s := a.side;
    var e := Get(b, s);
    match a
    case Start(_) => Set(b, s, WithCore(e, T.StartCore(e.port.core)).(up := true))
    case Flush(_, atOnce) => Write(b, cfg, s, atOnce)
    case Feed(_, count, now, random) =>
      var (buffer, port) := Scan(Reader(cfg.codec), e.buffer + e.incoming[..count], e.port.(now := now, random := random));
      Set(b, s, e.(buffer := buffer, port := port, incoming := e.incoming[count..]))
    case Beat(_) => Set(b, s, WithCore(e, K.SendHeartbeat(e.port.core)))
    case Say(_, msg) => Set(b, s, WithCore(e, K.Send(e.port.core, M.Rpc(msg))))
  }

  predicate IsRun(b: ByteWorld, cfg: T.Config, acts: seq<ByteAct>)
    decreases |acts|
  {
    acts == [] || (Enabled(b, acts[0]) && IsRun(Next(b, cfg, acts[0]), cfg, acts[1..]))
  }

  function After(b: ByteWorld, cfg: T.Config, acts: seq<ByteAct>): ByteWorld
    requires IsRun(b, cfg, acts)
    decreases |acts|
  {
    if acts == [] then b else After(Next(b, cfg, acts[0]), cfg, acts[1..])
  }

  /** The ends without what is on its way. */
  function Cores(b: ByteWorld): T.World {
    T.World(T.End(b.server.port.core, b.server.up, b.server.mute, []),
            T.End(b.client.port.core, b.client.up, b.client.mute, []))
  }

  predicate IsInitial(b: ByteWorld, cfg: T.Config) {
    && T.IsInitial(Cores(b), cfg)
    && (forall s :: var e := Get(b, s);
          e.port.table == map[] && e.port.limits == LimitsOf(cfg, s) && e.buffer == [] && e.incoming == [] && e.nextId == 1)
  }

  // ---------- Bytes and messages ----------

  function LimitsOf(cfg: T.Config, s: T.Side): Limits {
    Limits(T.LocalOf(cfg, s).maxFrameSize * 256, 10000)
  }

  /** The wire of a new core starts like that. */
  lemma NewPortStarts(core: K.Core, cfg: T.Config, s: T.Side)
    requires core.maxFrameSize == T.LocalOf(cfg, s).maxFrameSize
    ensures NewPort(core).table == map[] && NewPort(core).limits == LimitsOf(cfg, s) && NewPort(core).core == core
  {}

  /** A byte end and the end of the two parties that it stands for. */
  ghost predicate Mirrors(b: ByteEnd, e: T.End, cfg: T.Config, s: T.Side, at: Place) {
    && b.port.core == e.core && b.up == e.up && b.mute == e.mute && b.port.limits == LimitsOf(cfg, s)
    && at.id < TWO_16 && b.nextId < TWO_16
    && Ahead(b.buffer + b.incoming, b.port, e.incoming, at, cfg.codec)
    && Short(b.buffer, e.incoming, at, cfg.codec)
  }

  /** The ids the sender will give go on from those on their way. */
  predicate InTurn(sender: ByteEnd, reader: T.End, at: Place) {
    !sender.mute ==> sender.nextId == IdAfter(reader.incoming, at.id)
  }

  datatype Places = Places(server: Place, client: Place)

  function At(at: Places, s: T.Side): Place {
    if s == T.Server then at.server else at.client
  }

  ghost predicate BothMirror(b: ByteWorld, w: T.World, cfg: T.Config, at: Places) {
    && Mirrors(b.server, w.server, cfg, T.Server, at.server) && InTurn(b.client, w.server, at.server)
    && Mirrors(b.client, w.client, cfg, T.Client, at.client) && InTurn(b.server, w.client, at.client)
  }

  ghost predicate Good(w: T.World, cfg: T.Config, ph: S.Phase) {
    S.AllOk(w, cfg, ph) && R.WireCut(w, cfg)
  }

  lemma HeadIsWritable(w: T.World, cfg: T.Config, ph: S.Phase, s: T.Side)
    requires Good(w, cfg, ph) && T.Agreeable(cfg) && cfg.framed && T.Get(w, s).incoming != []
    ensures Writable(T.Get(w, s).incoming[0], LimitsOf(cfg, s), cfg.codec)
  {
    hide S.Base, S.AtStage, S.Fits, S.StageOf, S.PatternOf, S.UpOf, S.MuteOf, S.OutboxSized, T.Toward, T.CanCut;
    hide S.PhaseOk, Faithful, S.Sized, Writable;
    var p := T.Get(w, s).incoming[0];
    S.HeadSized(T.Get(w, s).incoming, cfg, s);
    assert T.CanCut(cfg, p.msg, p.cap) by { assert p in T.Get(w, s).incoming; }
    SizedIsWritable(p, cfg, s);
  }

  /** Whatever waits at the head of a channel is admitted by its reader and can be put together by it. */
  lemma HeadIsReadable(w: T.World, cfg: T.Config, ph: S.Phase, s: T.Side)
    requires Good(w, cfg, ph) && T.Agreeable(cfg) && cfg.framed && T.Get(w, s).incoming != [] && T.Get(w, s).up
    ensures var e := T.Get(w, s); var p := e.incoming[0];
      e.core.control.Some? && T.Passes(e.core, p, cfg.codec) && Writable(p, LimitsOf(cfg, s), cfg.codec)
  {
    hide S.AtStage, S.Fits, S.StageOf, S.PatternOf, S.UpOf, S.MuteOf, S.SizesOk, S.PhaseOk;
    hide T.Toward, T.Passes, T.IsNegotiation, T.Agreeable;
    HeadIsWritable(w, cfg, ph, s);
    S.BaseFramed(T.Get(w, s).core, cfg, s);
    NotNegotiation(w, cfg, ph, s);
    S.HeadPasses(w, cfg, ph, s);
  }

  lemma NotNegotiation(w: T.World, cfg: T.Config, ph: S.Phase, s: T.Side)
    requires S.AllOk(w, cfg, ph) && T.Get(w, s).incoming != [] && T.Get(w, s).up
    ensures var stage := S.StageOf(cfg, ph, s, T.Get(w, s).up);
      stage.Linked? || stage.Session? ==> !T.IsNegotiation(T.Get(w, s).incoming[0].msg)
  {
    hide S.AllOk, S.Fits, S.Harmless, S.IsKind, T.IsNegotiation, T.IsHandshake, T.Toward, T.Deal;
    S.HeadOf(w, cfg, ph, s, 1);
    var m := T.Get(w, s).incoming[0].msg;
    var p := S.PatternOf(cfg, ph, s);
    if p.Await? && S.IsKind(m, p.kind) {
      S.KindIsRpc(m, p.kind);
    } else if S.Harmless(m, S.SidOf(S.StageOf(cfg, ph, s, T.Get(w, s).up))) {
      S.HarmlessMeans(m, S.SidOf(S.StageOf(cfg, ph, s, T.Get(w, s).up)));
    }
  }

  lemma SizedIsWritable(p: T.Packet, cfg: T.Config, s: T.Side)
    requires cfg.framed && T.GoodLocals(cfg) && S.Sized(p.msg, p.cap, cfg, s) && T.CanCut(cfg, p.msg, p.cap)
    ensures Writable(p, LimitsOf(cfg, s), cfg.codec)
  {
    hide T.IsNegotiation;
    if T.IsNegotiation(p.msg) { S.NegotiationIsControl(p.msg); }
  }

  // ---------- Reading a chunk ----------

  /** What reading comes to: the messages that were completed, and where the reader stands then. */
  ghost predicate ReadSo(w: T.World, w': T.World, cfg: T.Config, s: T.Side, port: Port, port': Port, at: Place, at': Place) {
    && T.Get(w', T.Other(s)) == T.Get(w, T.Other(s))
    && T.Get(w', s) == T.Get(w, s).(core := port'.core, incoming := T.Get(w', s).incoming)
    && port' == port.(core := port'.core, table := port'.table)
    && at'.id < TWO_16 && IdAfter(T.Get(w', s).incoming, at'.id) == IdAfter(T.Get(w, s).incoming, at.id)
  }

  /** The frame that completes a message is the delivery of that message. */
  lemma Delivered(w: T.World, cfg: T.Config, ph: S.Phase, s: T.Side, random: bv32) returns (ph': S.Phase)
    requires Good(w, cfg, ph) && T.Agreeable(cfg) && T.Get(w, s).up && T.Get(w, s).incoming != []
    ensures var a := T.Deliver(s, random); T.Enabled(w, a) && Good(T.Next(w, cfg, a), cfg, ph')
    ensures var w' := T.Next(w, cfg, T.Deliver(s, random)); var e := T.Get(w, s);
      && T.Get(w', T.Other(s)) == T.Get(w, T.Other(s))
      && T.Get(w', s) == e.(core := T.Receive(e.core, e.incoming[0], cfg.codec, random), incoming := e.incoming[1..])
  {
    hide S.AllOk, R.WireCut, T.Agreeable, T.Receive, S.NextPhase;
    var a := T.Deliver(s, random);
    ph' := S.NextKeeps(w, cfg, ph, a);
    R.NextKeepsCut(w, cfg, a);
  }

  lemma AheadMore(data: seq<byte>, port: Port, ps: seq<T.Packet>, at: Place, codec: Codec)
    requires ps != [] && Halfway(port, ps[0], at, codec) && |at.ts| <= |PacketFrames(ps[0], at.id, codec)|
    requires data == Spell(PacketFrames(ps[0], at.id, codec)[|at.ts|..]) + Unread(ps[1..], NextMessageId(at.id), codec)
    ensures Ahead(data, port, ps, at, codec)
  {}

  lemma NextPlaceIs(port: Port, p: T.Packet, at: Place, codec: Codec)
    requires |at.ts| < |PacketFrames(p, at.id, codec)|
    ensures NextPlace(port, p, at, codec).id == at.id && |NextPlace(port, p, at, codec).ts| == |at.ts| + 1
  {}

  lemma IdAfterFirst(ps: seq<T.Packet>, id: nat)
    requires ps != []
    ensures IdAfter(ps, id) == IdAfter(ps[1..], NextMessageId(id))
  {}

  lemma NothingToRead(port: Port, data: seq<byte>, later: seq<byte>, at: Place, codec: Codec)
    requires Ahead(data + later, port, [], at, codec)
    ensures data == [] && later == []
  {
    assert |data + later| == |data| + |later|;
  }

  predicate AllDeliveries(acts: seq<T.Act>) {
    forall i :: 0 <= i < |acts| ==> acts[i].Deliver?
  }

  /** Reading a chunk is delivering the messages whose last frames it completes, one after another. */
  lemma {:induction false} ReadChunk(w: T.World, cfg: T.Config, ph: S.Phase, s: T.Side, port: Port, data: seq<byte>,
                                     later: seq<byte>, at: Place)
    returns (acts: seq<T.Act>, ph': S.Phase, at': Place)
    requires Good(w, cfg, ph) && T.Agreeable(cfg) && cfg.framed && T.Get(w, s).up
    requires port.core == T.Get(w, s).core && port.limits == LimitsOf(cfg, s) && at.id < TWO_16
    requires Ahead(data + later, port, T.Get(w, s).incoming, at, cfg.codec)
    requires T.Get(w, s).incoming != [] ==> InTime(port, at)
    ensures T.IsRun(w, cfg, acts) && Good(T.After(w, cfg, acts), cfg, ph') && AllDeliveries(acts)
    ensures var w' := T.After(w, cfg, acts); var (left, port') := Scan(Reader(cfg.codec), data, port);
      && ReadSo(w, w', cfg, s, port, port', at, at')
      && Ahead(left + later, port', T.Get(w', s).incoming, at', cfg.codec)
      && Short(left, T.Get(w', s).incoming, at', cfg.codec)
    decreases |data|
  {
    hide Good, T.Agreeable, Scan, Encode, Sendable, PacketFrames, Halfway, InTime, NextPlace, Spell, Unread, Writable, Ahead;
    hide T.Passes, T.Receive, NextMessageId, T.Enabled, T.Next, IdAfter;
    acts, ph', at' := [], ph, at;
    var ps := T.Get(w, s).incoming;
    if ps == [] {
      NothingToRead(port, data, later, at, cfg.codec);
      ScanNothing(port, cfg.codec);
    } else {
      HeadIsReadable(w, cfg, ph, s);
      var fs := PacketFrames(ps[0], at.id, cfg.codec);
      var rest := FrameAhead(data + later, port, ps, at, cfg.codec);
      AheadMeans(data + later, port, ps, at, cfg.codec);
      var f := fs[|at.ts|];
      var none := ReadFrame(port, ps[0], at, [], cfg.codec);
      if |data| < |Encode(f)| {
        ScanWaits(data, later, f, rest, port, cfg.codec);
      } else {
        SplitFrame(data, later, Encode(f), rest);
        var data1 := data[|Encode(f)|..];
        var port1 := ReadFrame(port, ps[0], at, data1, cfg.codec);
        if |at.ts| + 1 < |fs| {
          var at1 := NextPlace(port, ps[0], at, cfg.codec);
          NextPlaceIs(port, ps[0], at, cfg.codec);
          AheadMore(data1 + later, port1, ps, at1, cfg.codec);
          acts, ph', at' := ReadChunk(w, cfg, ph, s, port1, data1, later, at1);
        } else {
          var a := T.Deliver(s, port.random);
          var ph1 := Delivered(w, cfg, ph, s, port.random);
          var w1 := T.Next(w, cfg, a);
          var id1 := NextMessageId(at.id);
          NextIdInRange(at.id);
          if ps[1..] != [] { HeadIsReadable(w1, cfg, ph1, s); }
          MessageDone(fs, ps[1..], id1, cfg.codec);
          AheadOfNext(port1, ps[1..], id1, cfg.codec);
          IdAfterFirst(ps, at.id);
          acts, ph', at' := ReadChunk(w1, cfg, ph1, s, port1, data1, later, Place(id1, []));
          R.RunOne(w, cfg, a);
          R.RunAppend(w, cfg, [a], acts);
          acts := [a] + acts;
        }
      }
    }
  }

  lemma AheadMeans(data: seq<byte>, port: Port, ps: seq<T.Packet>, at: Place, codec: Codec)
    requires Ahead(data, port, ps, at, codec) && ps != []
    ensures Halfway(port, ps[0], at, codec)
  {}

  // ---------- Every act of the bytes is some acts of the messages ----------

  ghost predicate Follows(b: ByteWorld, w: T.World, cfg: T.Config, at: Places, ph: S.Phase) {
    BothMirror(b, w, cfg, at) && Good(w, cfg, ph)
  }

  lemma AheadElsewhere(data: seq<byte>, port: Port, port': Port, ps: seq<T.Packet>, at: Place, codec: Codec)
    requires Ahead(data, port, ps, at, codec)
    requires port'.table == port.table && port'.limits == port.limits && port.now <= port'.now
    ensures Ahead(data, port', ps, at, codec)
  {
    hide PacketFrames, ByteReading.Parts, InOrder, Run;
  }

  /** A chunk that is read. */
  lemma FeedFollows(b: ByteWorld, w: T.World, cfg: T.Config, at: Places, ph: S.Phase, a: ByteAct)
    returns (acts: seq<T.Act>, at': Places, ph': S.Phase)
    requires Follows(b, w, cfg, at, ph) && Enabled(b, a) && a.Feed? && T.Agreeable(cfg) && cfg.framed
    ensures AllDeliveries(acts)
    ensures T.IsRun(w, cfg, acts) && Follows(Next(b, cfg, a), T.After(w, cfg, acts), cfg, at', ph')
  {
    hide Good, T.Agreeable, Scan, Ahead, Short, InTime, T.Enabled, T.Next, IdAfter;
    var s := a.side;
    var e := Get(b, s);
    var port := e.port.(now := a.now, random := a.random);
    var place := At(at, s);
    var data := e.buffer + e.incoming[..a.count];
    assert data + e.incoming[a.count..] == e.buffer + e.incoming;
    AheadElsewhere(e.buffer + e.incoming, e.port, port, T.Get(w, s).incoming, place, cfg.codec);
    if T.Get(w, s).incoming != [] { StillInTime(e, port, T.Get(w, s).incoming, place, cfg.codec, a); }
    var place';
    acts, ph', place' := ReadChunk(w, cfg, ph, s, port, data, e.incoming[a.count..], place);
    at' := if s == T.Server then at.(server := place') else at.(client := place');
  }

  lemma StillInTime(e: ByteEnd, port: Port, ps: seq<T.Packet>, at: Place, codec: Codec, a: ByteAct)
    requires ps != [] && a.Feed? && port == e.port.(now := a.now, random := a.random)
    requires Ahead(e.buffer + e.incoming, e.port, ps, at, codec)
    requires forall id :: id in e.port.table ==> !Expired(e.port.table[id], a.now, e.port.limits.timeoutMs)
    ensures InTime(port, at)
  {
    hide PacketFrames, ByteReading.Parts, InOrder, Run;
  }

  /** What an end does to its own core leaves the bytes alone. */
  lemma CoreFollows(b: ByteEnd, e: T.End, cfg: T.Config, s: T.Side, at: Place, b': ByteEnd, e': T.End)
    requires Mirrors(b, e, cfg, s, at)
    requires b' == b.(port := b.port.(core := e'.core), up := e'.up, mute := e'.mute, nextId := b'.nextId)
    requires b'.nextId < TWO_16
    requires e' == e.(core := e'.core, up := e'.up, mute := e'.mute)
    ensures Mirrors(b', e', cfg, s, at)
  {
    hide Ahead, Short;
    AheadElsewhere(b.buffer + b.incoming, b.port, b'.port, e.incoming, at, cfg.codec);
  }

  /** The two ends, each with its mirror. */
  lemma Assemble(b: ByteWorld, w: T.World, cfg: T.Config, at: Places, s: T.Side)
    requires var o := T.Other(s);
      && Mirrors(Get(b, s), T.Get(w, s), cfg, s, At(at, s)) && Mirrors(Get(b, o), T.Get(w, o), cfg, o, At(at, o))
      && InTurn(Get(b, s), T.Get(w, o), At(at, o)) && InTurn(Get(b, o), T.Get(w, s), At(at, s))
    ensures BothMirror(b, w, cfg, at)
  {
    hide Mirrors, InTurn;
  }

  lemma Disassemble(b: ByteWorld, w: T.World, cfg: T.Config, at: Places, s: T.Side)
    requires BothMirror(b, w, cfg, at)
    ensures Mirrors(Get(b, s), T.Get(w, s), cfg, s, At(at, s)) && InTurn(Get(b, T.Other(s)), T.Get(w, s), At(at, s))
    ensures Get(b, s).port.core == T.Get(w, s).core && Get(b, s).up == T.Get(w, s).up && Get(b, s).mute == T.Get(w, s).mute
    ensures Get(b, s).nextId < TWO_16
  {
    hide Ahead, Short, InTurn;
  }

  /** The same act of the two parties. */
  function Plain(a: ByteAct): T.Act
    requires !a.Feed?
  {
    match a
    case Start(s) => T.Start(s)
    case Flush(s, atOnce) => T.Flush(s, atOnce)
    case Beat(s) => T.Beat(s)
    case Say(s, msg) => T.Say(s, msg)
  }

  lemma PlainFollows(b: ByteWorld, w: T.World, cfg: T.Config, at: Places, ph: S.Phase, a: ByteAct)
    returns (acts: seq<T.Act>, at': Places, ph': S.Phase)
    requires Follows(b, w, cfg, at, ph) && Enabled(b, a) && !a.Feed? && T.Compliant(cfg) && cfg.framed
    ensures acts == [Plain(a)]
    ensures T.IsRun(w, cfg, acts) && Follows(Next(b, cfg, a), T.After(w, cfg, acts), cfg, at', ph')
  {
    hide S.AllOk, R.WireCut, T.Compliant, T.Agreeable, T.Next, Next, BothMirror, S.SafeWrite;
    var m := Plain(a);
    PlainEnabled(b, w, cfg, at, a);
    R.CompliantIsAgreeable(cfg);
    S.CompliantWrites(w, cfg, ph, m);
    ph' := S.NextKeeps(w, cfg, ph, m);
    R.NextKeepsCut(w, cfg, m);
    R.RunOne(w, cfg, m);
    acts := [m];
    if a.Flush? {
      at' := WriteFollows(b, w, cfg, at, ph', a);
    } else {
      at' := at;
      ActFollows(b, w, cfg, at, a);
    }
  }

  lemma PlainEnabled(b: ByteWorld, w: T.World, cfg: T.Config, at: Places, a: ByteAct)
    requires BothMirror(b, w, cfg, at) && Enabled(b, a) && !a.Feed?
    ensures T.Enabled(w, Plain(a))
  {
    hide BothMirror, T.IsBusiness;
    Disassemble(b, w, cfg, at, a.side);
  }

  /** What an act other than writing or reading does to its end's core. */
  function Touched(c: K.Core, a: ByteAct): K.Core {
    match a
    case Start(_) => T.StartCore(c)
    case Beat(_) => K.SendHeartbeat(c)
    case Say(_, msg) => K.Send(c, M.Rpc(msg))
    case _ => c
  }

  lemma TouchedMeans(b: ByteWorld, w: T.World, cfg: T.Config, a: ByteAct)
    requires !a.Feed? && !a.Flush? && Enabled(b, a) && T.Enabled(w, Plain(a))
    ensures var e := Get(b, a.side);
      Next(b, cfg, a) == Set(b, a.side, WithCore(e, Touched(e.port.core, a)).(up := e.up || a.Start?))
    ensures var e := T.Get(w, a.side);
      T.Next(w, cfg, Plain(a)) == T.Set(w, a.side, e.(core := Touched(e.core, a), up := e.up || a.Start?))
  {
    hide T.StartCore, K.SendHeartbeat, K.Send, T.IsBusiness;
  }

  lemma ActFollows(b: ByteWorld, w: T.World, cfg: T.Config, at: Places, a: ByteAct)
    requires !a.Feed? && !a.Flush? && BothMirror(b, w, cfg, at) && Enabled(b, a) && T.Enabled(w, Plain(a))
    ensures BothMirror(Next(b, cfg, a), T.Next(w, cfg, Plain(a)), cfg, at)
  {
    hide BothMirror, Mirrors, Touched, Enabled, Next, T.Enabled, T.Next;
    var s := a.side;
    TouchedMeans(b, w, cfg, a);
    Disassemble(b, w, cfg, at, s);
    Disassemble(b, w, cfg, at, T.Other(s));
    var b', w' := Next(b, cfg, a), T.Next(w, cfg, Plain(a));
    CoreFollows(Get(b, s), T.Get(w, s), cfg, s, At(at, s), Get(b', s), T.Get(w', s));
    Assemble(b', w', cfg, at, s);
  }

  // ---------- Writing ----------

  lemma AheadAppend(data: seq<byte>, port: Port, ps: seq<T.Packet>, at: Place, p: T.Packet, codec: Codec)
    requires ps != [] && Ahead(data, port, ps, at, codec)
    ensures Ahead(data + Spell(PacketFrames(p, IdAfter(ps, at.id), codec)), port, ps + [p], at, codec)
    ensures IdAfter(ps + [p], at.id) == NextMessageId(IdAfter(ps, at.id))
  {
    hide PacketFrames, Halfway, Spell, NextMessageId;
    assert (ps + [p])[1..] == ps[1..] + [p] && (ps + [p])[0] == ps[0];
    var id := NextMessageId(at.id);
    UnreadAppend(ps[1..], p, id, codec);
    Associative(Spell(PacketFrames(ps[0], at.id, codec)[|at.ts|..]), Unread(ps[1..], id, codec),
                Spell(PacketFrames(p, IdAfter(ps[1..], id), codec)));
  }

  lemma AheadFirst(data: seq<byte>, port: Port, at: Place, p: T.Packet, id: nat, codec: Codec)
    requires Ahead(data, port, [], at, codec) && Writable(p, port.limits, codec)
    ensures data == [] && Ahead(Spell(PacketFrames(p, id, codec)), port, [p], Place(id, []), codec)
    ensures IdAfter([p], id) == NextMessageId(id)
    ensures Short([], [p], Place(id, []), codec)
  {
    hide PacketFrames, Halfway, Spell, NextMessageId, Writable, Encode, ByteReading.Parts;
    AheadOfNext(port, [p], id, codec);
    FramesAre(p, id, port.limits, codec);
    assert [p][1..] == [];
    assert Unread([p], id, codec) == Spell(PacketFrames(p, id, codec)) + Unread([], NextMessageId(id), codec);
    assert IdAfter([p], id) == IdAfter([], NextMessageId(id));
    EncodeIsSome(PacketFrames(p, id, codec)[0]);
  }

  lemma EncodeIsSome(f: Frame)
    ensures |Encode(f)| > 0
  {}

  /** The bytes of a message reach the peer behind the bytes of those before it. */
  lemma ReaderFollows(e: ByteEnd, r: T.End, cfg: T.Config, o: T.Side, at: Place, p: T.Packet, id: nat) returns (at': Place)
    requires Mirrors(e, r, cfg, o, at) && id == IdAfter(r.incoming, at.id) && id < TWO_16
    requires r.incoming == [] ==> Writable(p, LimitsOf(cfg, o), cfg.codec)
    ensures var bytes := Spell(PacketFrames(p, id, cfg.codec));
      Mirrors(e.(incoming := e.incoming + bytes), r.(incoming := r.incoming + [p]), cfg, o, at')
    ensures IdAfter(r.incoming + [p], at'.id) == NextMessageId(id)
  {
    hide PacketFrames, Spell, NextMessageId, Ahead, Writable, Encode;
    var bytes := Spell(PacketFrames(p, id, cfg.codec));
    Associative(e.buffer, e.incoming, bytes);
    if r.incoming == [] {
      AheadFirst(e.buffer + e.incoming, e.port, at, p, id, cfg.codec);
      at' := Place(id, []);
      assert e.buffer + e.incoming + bytes == bytes && e.buffer == [];
      assert r.incoming + [p] == [p];
    } else {
      AheadAppend(e.buffer + e.incoming, e.port, r.incoming, at, p, cfg.codec);
      at' := at;
      assert (r.incoming + [p])[0] == r.incoming[0];
    }
  }

  lemma WriteEffect(b: ByteWorld, cfg: T.Config, s: T.Side, atOnce: bool)
    requires Enabled(b, Flush(s, atOnce))
    ensures var b' := Next(b, cfg, Flush(s, atOnce)); var e := Get(b, s); var o := Get(b, T.Other(s)); var c := e.port.core;
      var p := T.Cut(c, atOnce); var r := Fragment(TypeOf(p.msg), BodyOf(p.msg, cfg.codec), e.nextId, p.cap);
      if r.Fragments? then
        && Get(b', s) == WithCore(e, c.(outbox := c.outbox[1..])).(nextId := NextMessageId(e.nextId))
        && Get(b', T.Other(s)) == o.(incoming := o.incoming + EncodeAll(r.frames))
      else
        && Get(b', s) == WithCore(e, c.(outbox := [])).(mute := true, nextId := NextMessageId(e.nextId))
        && Get(b', T.Other(s)) == o
  {
    hide Fragment, EncodeAll, NextMessageId;
  }

  /** A message written at one end and its bytes at the other. */
  lemma WriteWorks(b: ByteWorld, w: T.World, cfg: T.Config, at: Places, s: T.Side, p: T.Packet, b': ByteWorld, w': T.World)
    returns (at': Places)
    requires BothMirror(b, w, cfg, at) && !Get(b, s).mute
    requires var e := Get(b, s); var o := T.Other(s);
      && Get(b', s) == WithCore(e, T.Get(w', s).core).(nextId := NextMessageId(e.nextId))
      && T.Get(w', s) == T.Get(w, s).(core := T.Get(w', s).core)
      && Get(b', o) == Get(b, o).(incoming := Get(b, o).incoming + Spell(PacketFrames(p, e.nextId, cfg.codec)))
      && T.Get(w', o) == T.Get(w, o).(incoming := T.Get(w, o).incoming + [p])
      && (T.Get(w, o).incoming == [] ==> Writable(p, LimitsOf(cfg, o), cfg.codec))
    ensures BothMirror(b', w', cfg, at')
  {
    hide BothMirror, Mirrors, IdAfter, Spell, NextMessageId, Writable, PacketFrames;
    var o := T.Other(s);
    Disassemble(b, w, cfg, at, s);
    Disassemble(b, w, cfg, at, o);
    NextIdInRange(Get(b, s).nextId);
    var place := ReaderFollows(Get(b, o), T.Get(w, o), cfg, o, At(at, o), p, Get(b, s).nextId);
    at' := if o == T.Server then at.(server := place) else at.(client := place);
    CoreFollows(Get(b, s), T.Get(w, s), cfg, s, At(at, s), Get(b', s), T.Get(w', s));
    Assemble(b', w', cfg, at', s);
  }

  lemma WriteFails(b: ByteWorld, w: T.World, cfg: T.Config, at: Places, s: T.Side, b': ByteWorld, w': T.World)
    requires BothMirror(b, w, cfg, at)
    requires var e := Get(b, s); var o := T.Other(s);
      && Get(b', s) == WithCore(e, T.Get(w', s).core).(mute := true, nextId := NextMessageId(e.nextId))
      && T.Get(w', s) == T.Get(w, s).(core := T.Get(w', s).core, mute := true)
      && Get(b', o) == Get(b, o) && T.Get(w', o) == T.Get(w, o)
    ensures BothMirror(b', w', cfg, at)
  {
    hide BothMirror, Mirrors, IdAfter, NextMessageId;
    Disassemble(b, w, cfg, at, s);
    Disassemble(b, w, cfg, at, T.Other(s));
    NextIdInRange(Get(b, s).nextId);
    CoreFollows(Get(b, s), T.Get(w, s), cfg, s, At(at, s), Get(b', s), T.Get(w', s));
    Assemble(b', w', cfg, at, s);
  }

  lemma WriteFollows(b: ByteWorld, w: T.World, cfg: T.Config, at: Places, ph: S.Phase, a: ByteAct) returns (at': Places)
    requires a.Flush? && BothMirror(b, w, cfg, at) && Enabled(b, a) && T.Enabled(w, Plain(a))
    requires cfg.framed && T.Agreeable(cfg)
    requires Good(T.Next(w, cfg, Plain(a)), cfg, ph)
    ensures BothMirror(Next(b, cfg, a), T.Next(w, cfg, Plain(a)), cfg, at')
  {
    hide BothMirror, Good, T.Agreeable, T.CanCut, Fragment, Spell, EncodeAll, NextMessageId, Writable, Next, T.Next;
    var s := a.side;
    var o := T.Other(s);
    var e := Get(b, s);
    var p := T.Cut(e.port.core, a.atOnce);
    var b', w' := Next(b, cfg, a), T.Next(w, cfg, Plain(a));
    Disassemble(b, w, cfg, at, s);
    WriteEffect(b, cfg, s, a.atOnce);
    UncuttableHasNoFrames(cfg, p.msg, p.cap, e.nextId);
    if T.CanCut(cfg, p.msg, p.cap) {
      S.FlushEffect(w, cfg, s, a.atOnce);
      SpellIsEncodeAll(PacketFrames(p, e.nextId, cfg.codec));
      if T.Get(w, o).incoming == [] { HeadIsWritable(w', cfg, ph, o); }
      at' := WriteWorks(b, w, cfg, at, s, p, b', w');
    } else {
      at' := at;
      S.MuteEffect(w, cfg, s, a.atOnce);
      WriteFails(b, w, cfg, at, s, b', w');
    }
  }

  // ---------- Every run ----------

  /** The business an end has said in a run. */
  function SaidBy(acts: seq<ByteAct>, s: T.Side): seq<M.RpcMessage> {
    if acts == [] then []
    else
      var last := acts[|acts| - 1];
      SaidBy(acts[..|acts| - 1], s) + SaidNow(last, s)
  }

  function SaidNow(a: ByteAct, s: T.Side): seq<M.RpcMessage> {
    if a.Say? && a.side == s then [a.msg] else []
  }

  lemma {:induction false} DeliveriesSayNothing(acts: seq<T.Act>, s: T.Side)
    requires AllDeliveries(acts)
    ensures D.SaidBy(acts, s) == []
  {
    if acts != [] { DeliveriesSayNothing(acts[..|acts| - 1], s); }
  }

  lemma {:induction false} SaidFirst(a: ByteAct, acts: seq<ByteAct>, s: T.Side)
    ensures SaidBy([a] + acts, s) == SaidNow(a, s) + SaidBy(acts, s)
    decreases |acts|
  {
    hide SaidNow;
    if acts == [] {
      assert [a] + acts == [a] && [a][..0] == [] && SaidBy([], s) == [];
      assert SaidBy([a], s) == SaidBy([], s) + SaidNow(a, s);
    } else {
      var n := |acts| - 1;
      assert ([a] + acts)[..n + 1] == [a] + acts[..n];
      SaidFirst(a, acts[..n], s);
    }
  }

  lemma StepFollows(b: ByteWorld, w: T.World, cfg: T.Config, at: Places, ph: S.Phase, a: ByteAct)
    returns (acts: seq<T.Act>, at': Places, ph': S.Phase)
    requires Follows(b, w, cfg, at, ph) && Enabled(b, a) && T.Compliant(cfg) && cfg.framed
    ensures T.IsRun(w, cfg, acts) && Follows(Next(b, cfg, a), T.After(w, cfg, acts), cfg, at', ph')
    ensures forall s :: D.SaidBy(acts, s) == SaidNow(a, s)
  {
    hide Follows, Enabled, Next, T.Compliant, T.Agreeable, D.SaidBy, AllDeliveries;
    R.CompliantIsAgreeable(cfg);
    if a.Feed? {
      acts, at', ph' := FeedFollows(b, w, cfg, at, ph, a);
      forall s ensures D.SaidBy(acts, s) == SaidNow(a, s) { DeliveriesSayNothing(acts, s); }
    } else {
      acts, at', ph' := PlainFollows(b, w, cfg, at, ph, a);
      forall s ensures D.SaidBy(acts, s) == SaidNow(a, s) { D.SaidOne(Plain(a), s); }
    }
  }

  lemma {:induction false} RunFollows(b: ByteWorld, w: T.World, cfg: T.Config, at: Places, ph: S.Phase, acts: seq<ByteAct>)
    returns (mirror: seq<T.Act>, at': Places, ph': S.Phase)
    requires Follows(b, w, cfg, at, ph) && IsRun(b, cfg, acts) && T.Compliant(cfg) && cfg.framed
    ensures T.IsRun(w, cfg, mirror) && Follows(After(b, cfg, acts), T.After(w, cfg, mirror), cfg, at', ph')
    ensures forall s :: D.SaidBy(mirror, s) == SaidBy(acts, s)
    decreases |acts|
  {
    hide Follows, Enabled, Next, T.Compliant, T.Next, T.Enabled, SaidNow;
    mirror, at', ph' := [], at, ph;
    if acts != [] {
      var first, at1, ph1 := StepFollows(b, w, cfg, at, ph, acts[0]);
      var rest;
      rest, at', ph' := RunFollows(Next(b, cfg, acts[0]), T.After(w, cfg, first), cfg, at1, ph1, acts[1..]);
      R.RunAppend(w, cfg, first, rest);
      mirror := first + rest;
      assert acts == [acts[0]] + acts[1..];
      forall s ensures D.SaidBy(mirror, s) == SaidBy(acts, s) {
        D.SaidAppend(first, rest, s);
        SaidFirst(acts[0], acts[1..], s);
      }
    }
  }

  lemma InitialFollows(b: ByteWorld, cfg: T.Config)
    requires IsInitial(b, cfg)
    ensures Follows(b, Cores(b), cfg, Places(Place(1, []), Place(1, [])), S.Idle)
  {
    hide S.AllOk, Reader;
    S.InitialOk(Cores(b), cfg);
    assert Get(b, T.Server) == b.server && Get(b, T.Client) == b.client;
  }

  /** Every run of bytes, in whatever chunks they are read, is a run of whole messages: it leads the two cores
      exactly where some run of the two parties leads them, with the same messages still to be read. */
  lemma BytesAreMessages(b: ByteWorld, cfg: T.Config, acts: seq<ByteAct>) returns (mirror: seq<T.Act>, at: Places)
    requires IsInitial(b, cfg) && IsRun(b, cfg, acts) && T.Compliant(cfg) && cfg.framed
    ensures T.IsRun(Cores(b), cfg, mirror)
    ensures BothMirror(After(b, cfg, acts), T.After(Cores(b), cfg, mirror), cfg, at)
    ensures forall s :: D.SaidBy(mirror, s) == SaidBy(acts, s)
  {
    hide IsInitial, T.Compliant, BothMirror, Good;
    InitialFollows(b, cfg);
    var ph;
    mirror, at, ph := RunFollows(b, Cores(b), cfg, Places(Place(1, []), Place(1, [])), S.Idle, acts);
  }

  /** Nothing is left to read or to write. */
  predicate Quiet(b: ByteWorld) {
    forall s :: var e := Get(b, s); e.incoming == [] && (e.mute || e.port.core.outbox == [])
  }

  ghost predicate Sound(b: ByteWorld, cfg: T.Config) {
    var w := Cores(b);
    && T.SameSession(w)
    && T.Untroubled(w.server.core) && T.Untroubled(w.client.core)
    && T.Agrees(w.server.core, cfg) && T.Agrees(w.client.core, cfg)
    && (forall s :: var e := Get(b, s); e.incoming == [] ==> e.buffer == [] && e.port.table == map[])
    && (w.server.up && w.client.up && Quiet(b) ==> T.BothReady(w))
  }

  /** When the channel is empty, so are the buffer and the table of its reader. */
  lemma NothingKept(e: ByteEnd, r: T.End, cfg: T.Config, s: T.Side, at: Place)
    requires Mirrors(e, r, cfg, s, at) && e.incoming == []
    requires r.incoming != [] ==> Writable(r.incoming[0], LimitsOf(cfg, s), cfg.codec)
    ensures r.incoming == [] && e.buffer == [] && e.port.table == map[]
  {
    hide PacketFrames, Encode, Spell, Unread, Writable, Halfway;
    assert e.buffer + e.incoming == e.buffer;
    if r.incoming != [] { var rest := FrameAhead(e.buffer, e.port, r.incoming, at, cfg.codec); }
  }

  /** Safety of the bytes: after any run in which no message is waited for longer than the reassembler's timeout,
      whatever the chunks, a ready client shares a proper session id with a ready server, no end has reported any
      failure, both work on the agreed terms, nothing is kept of what was read to its end, and if both are started
      and nothing is left to read or write then both are ready. */
  lemma BytesAreSafe(b: ByteWorld, cfg: T.Config, acts: seq<ByteAct>)
    requires IsInitial(b, cfg) && IsRun(b, cfg, acts) && T.Compliant(cfg) && cfg.framed
    ensures Sound(After(b, cfg, acts), cfg)
  {
    hide IsInitial, T.Compliant, T.Agreeable, BothMirror, Good, Sound;
    R.CompliantIsAgreeable(cfg);
    InitialFollows(b, cfg);
    var mirror, at, ph := RunFollows(b, Cores(b), cfg, Places(Place(1, []), Place(1, [])), S.Idle, acts);
    FollowingIsSound(After(b, cfg, acts), T.After(Cores(b), cfg, mirror), cfg, at, ph);
  }

  lemma FollowingIsSound(b: ByteWorld, w: T.World, cfg: T.Config, at: Places, ph: S.Phase)
    requires Follows(b, w, cfg, at, ph) && T.Agreeable(cfg) && cfg.framed
    ensures Sound(b, cfg)
  {
    hide S.AllOk, R.WireCut, T.Agreeable, Ahead, Short, IdAfter, Writable, T.Agrees, T.Untroubled, T.Toward, T.IsHandshake;
    S.OkIsSafe(w, cfg, ph);
    forall s: T.Side | Get(b, s).incoming == []
      ensures T.Get(w, s).incoming == [] && Get(b, s).buffer == [] && Get(b, s).port.table == map[]
    {
      if T.Get(w, s).incoming != [] { HeadIsWritable(w, cfg, ph, s); }
      NothingKept(Get(b, s), T.Get(w, s), cfg, s, At(at, s));
    }
    if Quiet(b) { NothingUnderWay(b, w, cfg, at); }
  }

  lemma NothingUnderWay(b: ByteWorld, w: T.World, cfg: T.Config, at: Places)
    requires BothMirror(b, w, cfg, at) && Quiet(b) && forall s :: T.Get(w, s).incoming == []
    ensures !T.InFlight(w)
  {
    hide Ahead, Short, IdAfter, T.IsHandshake;
    forall s ensures T.Toward(w, s) == [] {
      assert Get(b, T.Other(s)).mute || Get(b, T.Other(s)).port.core.outbox == [];
      assert T.Traffic([], []) == [];
    }
  }

  /** Business arrives over bytes as well: what an end has passed on is the beginning of what the other has said, each
      message once and in order, and it is all of it once the channel is empty and nothing is left to write. */
  lemma BytesArrive(b: ByteWorld, cfg: T.Config, acts: seq<ByteAct>, o: T.Side) returns (n: nat)
    requires IsInitial(b, cfg) && IsRun(b, cfg, acts) && T.Compliant(cfg) && cfg.framed
    ensures var b' := After(b, cfg, acts); var said := SaidBy(acts, T.Other(o)); var c := Get(b', o).port.core;
      && n <= |said|
      && D.CallsPassed(c.events) == D.Calls(said[..n], cfg.codec) && c.responses == D.Responses(said[..n], cfg.codec)
      && (Get(b', o).incoming == [] && !Get(b', T.Other(o)).mute && Get(b', T.Other(o)).port.core.outbox == [] ==> n == |said|)
  {
    hide IsInitial, T.Compliant, T.Agreeable, BothMirror, Good, D.Ledger;
    R.CompliantIsAgreeable(cfg);
    InitialFollows(b, cfg);
    assert T.IsInitial(Cores(b), cfg) by { InitialCores(b, cfg); }
    var mirror, at, ph := RunFollows(b, Cores(b), cfg, Places(Place(1, []), Place(1, [])), S.Idle, acts);
    n := D.BusinessArrives(Cores(b), cfg, mirror, o);
    var b', w' := After(b, cfg, acts), T.After(Cores(b), cfg, mirror);
    Disassemble(b', w', cfg, at, o);
    Disassemble(b', w', cfg, at, T.Other(o));
    LedgerOfBytes(b', w', cfg, at, ph, SaidBy(acts, T.Other(o)), o, n);
  }

  lemma InitialCores(b: ByteWorld, cfg: T.Config)
    requires IsInitial(b, cfg)
    ensures T.IsInitial(Cores(b), cfg)
  {}

  lemma LedgerOfBytes(b: ByteWorld, w: T.World, cfg: T.Config, at: Places, ph: S.Phase, said: seq<M.RpcMessage>, o: T.Side, n: nat)
    requires Follows(b, w, cfg, at, ph) && T.Agreeable(cfg) && cfg.framed && D.Ledger(w, cfg, said, o, n)
    ensures var c := Get(b, o).port.core;
      && n <= |said|
      && D.CallsPassed(c.events) == D.Calls(said[..n], cfg.codec) && c.responses == D.Responses(said[..n], cfg.codec)
      && (Get(b, o).incoming == [] && !Get(b, T.Other(o)).mute && Get(b, T.Other(o)).port.core.outbox == [] ==> n == |said|)
  {
    hide Good, T.Agreeable, BothMirror, Mirrors, D.Calls, D.Responses, D.CallsPassed, D.Data, T.Traffic, Writable;
    Disassemble(b, w, cfg, at, o);
    Disassemble(b, w, cfg, at, T.Other(o));
    if Get(b, o).incoming == [] {
      if T.Get(w, o).incoming != [] { HeadIsWritable(w, cfg, ph, o); }
      NothingKept(Get(b, o), T.Get(w, o), cfg, o, At(at, o));
      assert T.Traffic([], []) == [] by { NoTraffic(); }
      D.EmptyData();
    }
  }

  lemma NoTraffic()
    ensures T.Traffic([], []) == []
  {}
}
