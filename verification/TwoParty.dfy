/** Two cores joined by two first-in-first-out channels (src/core/core.ts, src/core/controlSession.ts,
    src/core/handshake.ts, src/endpoint/endpoint.ts). The ends are named by their logical role; which of
    them opens the link, and whether there is a link to open at all, is a parameter. */
module TwoParty {
  import opened Bytes
  import opened Messages
  import opened Core
  import C = ControlSession
  import H = Handshake
  import opened PayloadCodec
  import ControlCodec
  import Fragmenter
  import Frames

  /** A message on its way, with the frame limit its sender cut it for. */
  datatype Packet = Packet(msg: Outbound, cap: nat)

  /** One end: its core, whether its endpoint was started, whether its outbound stream has failed, and the
      channel towards it. */
  datatype End = End(core: Core, up: bool, mute: bool, incoming: seq<Packet>)

  datatype World = World(server: End, client: End)

  datatype Side = Server | Client

  /** Whether the link is framed and who opens it, the two limits, the encoding of messages, and the options
      that find their way into the handshake: the server's entropy and the client's event masks. */
  datatype Config = Config(
    framed: bool,
    serverOpens: bool,
    serverLocal: C.Local,
    clientLocal: C.Local,
    codec: Codec,
    entropy: bv32,
    eventMasks: Option<string>)

  /** start() of an endpoint; one message written to the channel; one message read from it; one heartbeat;
      one business message. */
  datatype Act =
    | Start(side: Side)
    | Flush(side: Side, atOnce: bool)
    | Deliver(side: Side, random: bv32)
    | Beat(side: Side)
    | Say(side: Side, msg: RpcMessage)

  function Other(s: Side): Side {
    if s == Server then Client else Server
  }

  function Get(w: World, s: Side): End {
    if s == Server then w.server else w.client
  }

  function Set(w: World, s: Side, e: End): World {
    if s == Server then w.(server := e) else w.(client := e)
  }

  function LocalOf(cfg: Config, s: Side): C.Local {
    if s == Server then cfg.serverLocal else cfg.clientLocal
  }

  predicate Opens(cfg: Config, s: Side) {
    cfg.serverOpens == (s == Server)
  }

  /** The largest frame that carries a body cut for a limit. */
  function LargestFrame(size: nat, cap: nat): nat {
    if size + Frames.OVERHEAD <= cap then size + Frames.OVERHEAD else cap
  }

  /** A message can be cut for a limit; without frames there is nothing to cut. */
  predicate CanCut(cfg: Config, m: Outbound, cap: nat) {
    cfg.framed ==> |BodyOf(m, cfg.codec)| <= 255 * Fragmenter.Capacity(cap)
  }

  function StartCore(c: Core): Core {
    if c.control == None then MarkLinkReady(c)
    else if c.control.value.physicalServer then c
    else SendControlOpen(c)
  }

  predicate Passes(c: Core, p: Packet, codec: Codec) {
    c.control.Some? ==> LargestFrame(|BodyOf(p.msg, codec)|, p.cap) <= c.maxFrameSize
  }

  /** A core reads a message; on a framed link the message is lost if one of its frames is too large. */
  function Receive(c: Core, p: Packet, codec: Codec, random: bv32): Core {
    if !Passes(c, p, codec) then Emit(c, Failed(Frames.FRAME_TOO_LARGE)) else Read(c, p.msg, codec, random)
  }

  function Read(c: Core, m: Outbound, codec: Codec, random: bv32): Core {
    match m
    case ControlBody(body) => HandleControlBody(c, body)
    case Rpc(msg) =>
      match codec.decodeRpc(codec.encodeRpc(msg))
      case Parsed(read) => HandleRpc(c, read, random)
      case Broken(code) => Emit(c, Failed(code))
      case Blank => c
  }

  predicate IsBusiness(msg: RpcMessage, sid: string) {
    && msg.sid == sid
    && (msg.Request? || msg.Event? || (msg.Response? && msg.status != CONTROL_OPEN_REQUIRED && msg.status < TWO_32))
  }

  predicate Enabled(w: World, a: Act) {
    var e := Get(w, a.side);
    match a
    case Start(_) => !e.up
    case Flush(_, _) => !e.mute && e.core.outbox != []
    case Deliver(_, _) => e.up && e.incoming != []
    case Beat(_) => e.core.control.Some? && e.core.gate != LinkConnected
    case Say(_, msg) => e.core.gate == AppReady && IsBusiness(msg, e.core.hs.sid)
  }

  /** A message is cut either for the limit in force when it was sent or for the one in force when the
      outbound stream gets round to it. */
  function Cut(c: Core, atOnce: bool): Packet
    requires c.outbox != []
  {
    Packet(c.outbox[0].msg, if atOnce then c.outbox[0].limit else c.maxFrameSize)
  }

  /** Writing a message that cannot be cut ends the outbound stream, and what was still to be written is lost. */
  function Write(w: World, cfg: Config, s: Side, atOnce: bool): World
    requires Get(w, s).core.outbox != []
  {
    var e := Get(w, s);
    var p := Cut(e.core, atOnce);
    if !CanCut(cfg, p.msg, p.cap) then Set(w, s, e.(mute := true, core := e.core.(outbox := [])))
    else
      var peer := Get(w, Other(s));
      Set(Set(w, s, e.(core := e.core.(outbox := e.core.outbox[1..]))), Other(s), peer.(incoming := peer.incoming + [p]))
  }

  function Next(w: World, cfg: Config, a: Act): World
    requires Enabled(w, a)
  {
    var s := a.side;
    var e := Get(w, s);
    match a
    case Start(_) => Set(w, s, e.(up := true, core := StartCore(e.core)))
    case Flush(_, atOnce) => Write(w, cfg, s, atOnce)
    case Deliver(_, random) =>
      Set(w, s, e.(core := Receive(e.core, e.incoming[0], cfg.codec, random), incoming := e.incoming[1..]))
    case Beat(_) => Set(w, s, e.(core := SendHeartbeat(e.core)))
    case Say(_, msg) => Set(w, s, e.(core := Send(e.core, Rpc(msg))))
  }

  // ---------- Starting points and runs ----------

  function NewControl(cfg: Config, s: Side): Option<C.State> {
    if cfg.framed then Some(C.State(!Opens(cfg, s), C.Idle, 1, None, None, LocalOf(cfg, s))) else None
  }

  predicate IsFresh(e: End, cfg: Config, s: Side) {
    && !e.up && !e.mute && e.incoming == [] && IsNew(e.core)
    && e.core.control == NewControl(cfg, s) && e.core.maxFrameSize == LocalOf(cfg, s).maxFrameSize
    && e.core.hs.logicalServer == (s == Server)
    && (if s == Server then e.core.hs.entropy == cfg.entropy else e.core.hs.eventMasks == cfg.eventMasks)
  }

  predicate IsInitial(w: World, cfg: Config) {
    IsFresh(w.server, cfg, Server) && IsFresh(w.client, cfg, Client)
  }

  /** A run: every act is possible when its turn comes. */
  predicate IsRun(w: World, cfg: Config, acts: seq<Act>)
    decreases |acts|
  {
    acts == [] || (Enabled(w, acts[0]) && IsRun(Next(w, cfg, acts[0]), cfg, acts[1..]))
  }

  function After(w: World, cfg: Config, acts: seq<Act>): World
    requires IsRun(w, cfg, acts)
    decreases |acts|
  {
    if acts == [] then w else After(Next(w, cfg, acts[0]), cfg, acts[1..])
  }

  // ---------- Limits ----------

  const NEGOTIATION_FRAME := 36

  /** The limits are equal, or both leave room for a whole OPEN. */
  predicate Admits(cfg: Config) {
    || cfg.serverLocal.maxFrameSize == cfg.clientLocal.maxFrameSize
    || (cfg.serverLocal.maxFrameSize >= NEGOTIATION_FRAME && cfg.clientLocal.maxFrameSize >= NEGOTIATION_FRAME)
  }

  predicate GoodLocals(cfg: Config) {
    C.GoodLocal(cfg.serverLocal) && C.GoodLocal(cfg.clientLocal)
  }

  /** What the two ends are to agree on. */
  function Deal(cfg: Config): C.Negotiated {
    C.Negotiated(C.Min(cfg.serverLocal.maxFrameSize, cfg.clientLocal.maxFrameSize),
                 LocalOf(cfg, if cfg.serverOpens then Server else Client).heartbeatIntervalMs, C.JSON_ENCODING, true)
  }

  function AgreedSize(cfg: Config): nat {
    Deal(cfg).maxFrameSize
  }

  /** The Identify and the Identified that come of a seed can be cut for the agreed size. */
  predicate SeedFits(cfg: Config, seed: bv32) {
    && CanCut(cfg, Rpc(Identify("", seed, cfg.eventMasks)), AgreedSize(cfg))
    && CanCut(cfg, Rpc(Identified(H.GenerateSid(seed, cfg.entropy))), AgreedSize(cfg))
  }

  /** Every handshake message can be cut for the agreed size: each body has at most 255 times the capacity. */
  ghost predicate HandshakeFits(cfg: Config) {
    CanCut(cfg, Rpc(Hello("")), AgreedSize(cfg)) && forall seed :: seed != 0 ==> SeedFits(cfg, seed)
  }

  /** The two ends can come to terms. */
  ghost predicate Agreeable(cfg: Config) {
    Faithful(cfg.codec) && (cfg.framed ==> GoodLocals(cfg) && Admits(cfg))
  }

  ghost predicate Compliant(cfg: Config) {
    Agreeable(cfg) && (cfg.framed ==> HandshakeFits(cfg))
  }

  // ---------- What may be on its way ----------

  /** The messages an end has yet to read: those in its channel, then those its peer has yet to write. */
  function Traffic(wire: seq<Packet>, outbox: seq<Sent>): (t: seq<Outbound>)
    ensures |t| == |wire| + |outbox|
  {
    seq(|wire| + |outbox|, i requires 0 <= i < |wire| + |outbox| =>
      if i < |wire| then wire[i].msg else outbox[i - |wire|].msg)
  }

  /** What an end may still write. */
  function Unwritten(e: End): seq<Sent> {
    if e.mute then [] else e.core.outbox
  }

  function Toward(w: World, s: Side): seq<Outbound> {
    Traffic(Get(w, s).incoming, Unwritten(Get(w, Other(s))))
  }

  predicate HasOpcode(m: Outbound, opcode: nat) {
    m.ControlBody? && var p := ControlCodec.Decode(m.body); p.Some? && p.value.opcode == opcode && p.value.controlId < TWO_16
  }

  predicate IsBeat(m: Outbound) {
    (HasOpcode(m, ControlCodec.HEARTBEAT) || HasOpcode(m, ControlCodec.HEARTBEAT_ACK)) && |m.body| == C.PLAIN_SIZE
  }

  predicate IsNegotiation(m: Outbound) {
    HasOpcode(m, ControlCodec.OPEN) || HasOpcode(m, ControlCodec.ACCEPT)
  }

  /** Messages that carry the session forward. */
  predicate IsHandshake(m: Outbound) {
    IsNegotiation(m) || (m.Rpc? && (m.msg.Hello? || m.msg.Identify? || m.msg.Identified?))
  }

  predicate IsOpenRequired(m: Outbound) {
    m.Rpc? && m.msg.Response? && m.msg.status == CONTROL_OPEN_REQUIRED
  }

  /** An event that reports a protocol failure. */
  predicate IsTrouble(e: CoreEvent) {
    e.Failed? || e.HandshakeError? || e.LinkOpenRejected? || e.LinkClosing?
  }

  predicate Untroubled(c: Core) {
    forall e :: e in c.events ==> !IsTrouble(e)
  }

  // ---------- What the protocol promises ----------

  predicate BothReady(w: World) {
    w.server.core.gate == AppReady && w.client.core.gate == AppReady
  }

  /** A ready client has a ready server, and they hold one proper session id. */
  predicate SameSession(w: World) {
    w.client.core.gate == AppReady ==>
      w.server.core.gate == AppReady && w.server.core.hs.sid == w.client.core.hs.sid && H.IsServerSid(w.client.core.hs.sid)
  }

  /** On a framed link a core past its gate has the agreed terms and works with the agreed frame limit. */
  predicate Agrees(c: Core, cfg: Config) {
    cfg.framed && c.gate != LinkConnected ==>
      c.control.Some? && c.control.value.negotiated == Some(Deal(cfg)) && c.maxFrameSize == Deal(cfg).maxFrameSize
  }

  predicate InFlight(w: World) {
    exists s, i :: 0 <= i < |Toward(w, s)| && IsHandshake(Toward(w, s)[i])
  }

  ghost predicate Safe(w: World, cfg: Config) {
    && SameSession(w)
    && Untroubled(w.server.core) && Untroubled(w.client.core)
    && Agrees(w.server.core, cfg) && Agrees(w.client.core, cfg)
    && (forall s, i :: 0 <= i < |Toward(w, s)| ==> !IsOpenRequired(Toward(w, s)[i]))
    && (w.server.up && w.client.up ==> BothReady(w) || InFlight(w))
  }
}
