/** Safety of every run of two cores that keep to the protocol. */
module TwoPartySafety {
  import opened Bytes
  import opened Messages
  import opened Core
  import opened TwoParty
  import C = ControlSession
  import H = Handshake
  import opened PayloadCodec
  import ControlCodec
  import Fragmenter

  /** How far the two ends have come. */
  datatype Phase =
    | Idle
    | OpenSent
    | Accepted
    | HelloSent
    | IdentifySent(seed: bv32)
    | IdentifiedSent(sid: string)
    | Done(sid: string)

  /** How many handshake messages have been read by then; without a link to open there are two fewer. */
  function PhaseRank(cfg: Config, p: Phase): nat {
    match p
    case Idle => if cfg.framed then 0 else 2
    case OpenSent => 0
    case Accepted => 1
    case HelloSent => 2
    case IdentifySent(_) => 3
    case IdentifiedSent(_) => 4
    case Done(_) => 5
  }

  // ---------- What travels in one direction ----------

  /** Messages that do not belong to the handshake: heartbeats, and business under a session id. */
  predicate Harmless(m: Outbound, sid: Option<string>) {
    IsBeat(m) || (sid.Some? && m.Rpc? && IsBusiness(m.msg, sid.value))
  }

  ghost predicate AllHarmless(s: seq<Outbound>, sid: Option<string>) {
    forall m :: m in s ==> Harmless(m, sid)
  }

  datatype Kind = AHello | AnIdentify(seed: bv32, masks: Option<string>) | AnIdentified(sid: string)

  predicate IsKind(m: Outbound, k: Kind) {
    m.Rpc? &&
    match k
    case AHello => m.msg == Hello("")
    case AnIdentify(seed, masks) => m.msg == Identify("", seed, masks)
    case AnIdentified(sid) => m.msg == Identified(sid)
  }

  /** Exactly one message of the kind, only heartbeats before it, only harmless messages after it. */
  ghost predicate Awaits(s: seq<Outbound>, k: Kind, sid: Option<string>)
    decreases |s|
  {
    s != [] && if IsKind(s[0], k) then AllHarmless(s[1..], sid) else IsBeat(s[0]) && Awaits(s[1..], k, sid)
  }

  datatype Pattern =
    | Nothing
    | OneOpen(local: C.Local)
    | AcceptThenBeats(deal: C.Negotiated)
    | AcceptThenHello(deal: C.Negotiated)
    | Await(kind: Kind, after: Option<string>)
    | Free(sid: Option<string>)

  function AcceptOf(n: C.Negotiated): Outbound {
    ControlBody(C.AcceptBody(1, n.maxFrameSize, n.heartbeatIntervalMs))
  }

  ghost predicate Fits(s: seq<Outbound>, p: Pattern) {
    match p
    case Nothing => s == []
    case OneOpen(l) => s == [ControlBody(C.OpenBody(1, l))]
    case AcceptThenBeats(n) => s != [] && s[0] == AcceptOf(n) && AllHarmless(s[1..], None)
    case AcceptThenHello(n) => s != [] && s[0] == AcceptOf(n) && Awaits(s[1..], AHello, None)
    case Await(k, sid) => Awaits(s, k, sid)
    case Free(sid) => AllHarmless(s, sid)
  }

  /** Messages that may join a direction at its end without changing what it is. */
  predicate MayFollow(p: Pattern, m: Outbound) {
    match p
    case Nothing => false
    case OneOpen(_) => false
    case AcceptThenBeats(_) => Harmless(m, None)
    case AcceptThenHello(_) => Harmless(m, None)
    case Await(_, sid) => Harmless(m, sid)
    case Free(sid) => Harmless(m, sid)
  }

  lemma {:induction false} AwaitsAppend(s: seq<Outbound>, k: Kind, sid: Option<string>, m: Outbound)
    requires Awaits(s, k, sid) && Harmless(m, sid)
    ensures Awaits(s + [m], k, sid)
    decreases |s|
  {
    hide Harmless, IsBeat, IsKind;
    assert (s + [m])[1..] == s[1..] + [m];
    if !IsKind(s[0], k) { AwaitsAppend(s[1..], k, sid, m); }
  }

  lemma {:induction false} AwaitsLast(s: seq<Outbound>, k: Kind, sid: Option<string>, m: Outbound)
    requires AllHarmless(s, None) && IsKind(m, k)
    ensures Awaits(s + [m], k, sid)
    decreases |s|
  {
    if s == [] {
      assert s + [m] == [m];
    } else {
      assert s[0] in s && Harmless(s[0], None);
      assert (s + [m])[1..] == s[1..] + [m] && (s + [m])[0] == s[0];
      BeatsAreNothingElse(s[0], k);
      AwaitsLast(s[1..], k, sid, m);
    }
  }

  lemma BeatsAreNothingElse(m: Outbound, k: Kind)
    requires IsBeat(m)
    ensures !IsKind(m, k) && !IsHandshake(m) && !IsOpenRequired(m)
  {}

  lemma FitsAppend(s: seq<Outbound>, p: Pattern, m: Outbound)
    requires Fits(s, p) && MayFollow(p, m)
    ensures Fits(s + [m], p)
  {
    hide Harmless, Awaits;
    if s != [] { assert (s + [m])[1..] == s[1..] + [m] && (s + [m])[0] == s[0]; }
    match p
    case AcceptThenHello(_) => AwaitsAppend(s[1..], AHello, None, m);
    case Await(k, sid) => AwaitsAppend(s, k, sid, m);
    case _ =>
  }

  /** The head of a direction that is not itself the awaited message is harmless and can be dropped. */
  lemma FitsTail(s: seq<Outbound>, k: Kind, sid: Option<string>)
    requires Awaits(s, k, sid)
    ensures IsKind(s[0], k) ==> AllHarmless(s[1..], sid)
    ensures !IsKind(s[0], k) ==> Harmless(s[0], None) && Awaits(s[1..], k, sid)
  {}

  lemma {:induction false} AwaitsHolds(s: seq<Outbound>, k: Kind, sid: Option<string>) returns (i: nat)
    requires Awaits(s, k, sid)
    ensures i < |s| && IsKind(s[i], k)
    decreases |s|
  {
    i := 0;
    if !IsKind(s[0], k) {
      i := AwaitsHolds(s[1..], k, sid);
      i := i + 1;
    }
  }

  lemma {:induction false} AwaitsNoRefusal(s: seq<Outbound>, k: Kind, sid: Option<string>, i: nat)
    requires Awaits(s, k, sid) && i < |s|
    ensures !IsOpenRequired(s[i])
    decreases |s|
  {
    if i == 0 {
    } else if IsKind(s[0], k) {
      assert s[1..][i - 1] in s[1..];
    } else {
      AwaitsNoRefusal(s[1..], k, sid, i - 1);
    }
  }

  lemma FitsNoRefusal(s: seq<Outbound>, p: Pattern, i: nat)
    requires Fits(s, p) && i < |s|
    ensures !IsOpenRequired(s[i])
  {
    hide Awaits, C.OpenBody, C.AcceptBody;
    match p
    case OneOpen(_) =>
    case AcceptThenBeats(_) => if i > 0 { assert s[1..][i - 1] in s[1..]; }
    case AcceptThenHello(_) => if i > 0 { AwaitsNoRefusal(s[1..], AHello, None, i - 1); }
    case Await(k, sid) => AwaitsNoRefusal(s, k, sid, i);
    case Free(_) => assert s[i] in s;
  }

  // ---------- One core ----------

  datatype Stage = Waiting | Opening | Linked | Session(sid: string)

  ghost predicate Base(c: Core, cfg: Config, s: Side) {
    && c.control.Some? == cfg.framed
    && (cfg.framed ==> c.control.value.physicalServer == !Opens(cfg, s) && c.control.value.local == LocalOf(cfg, s)
                       && c.control.value.nextControlId < TWO_16)
    && c.hs.logicalServer == (s == Server)
    && (if s == Server then c.hs.entropy == cfg.entropy else c.hs.eventMasks == cfg.eventMasks)
    && Untroubled(c)
  }

  predicate LinkedOn(c: Core, cfg: Config) {
    cfg.framed ==>
      && c.control.Some?
      && c.control.value.negotiated == Some(Deal(cfg))
      && c.control.value.link == C.Open && c.control.value.pendingOpenId == None
      && c.maxFrameSize == Deal(cfg).maxFrameSize
  }

  predicate AtStage(c: Core, cfg: Config, s: Side, stage: Stage) {
    match stage
    case Waiting => c.gate == LinkConnected && c.maxFrameSize == LocalOf(cfg, s).maxFrameSize && c.control == NewControl(cfg, s)
    case Opening => c.gate == LinkConnected && c.maxFrameSize == LocalOf(cfg, s).maxFrameSize
                    && c.control == Some(C.State(false, C.Opening, 2, Some(1), None, LocalOf(cfg, s)))
    case Linked => c.gate == FramingReady && LinkedOn(c, cfg)
    case Session(sid) => c.gate == AppReady && c.hs.sid == sid && LinkedOn(c, cfg)
  }

  /** A core after a step that only sends messages and reports nothing wrong. */
  predicate OnlySends(c: Core, c': Core, sent: seq<Outbound>) {
    && c'.hs == c.hs && c'.gate == c.gate && c'.maxFrameSize == c.maxFrameSize
    && c'.control.Some? == c.control.Some?
    && (c.control.Some? ==> c'.control.value == c.control.value.(nextControlId := c'.control.value.nextControlId))
    && (c.control.Some? && c.control.value.nextControlId < TWO_16 ==> c'.control.value.nextControlId < TWO_16)
    && c'.outbox == c.outbox + Stamped(sent, c.maxFrameSize)
    && (Untroubled(c) ==> Untroubled(c'))
  }

  function Stamped(sent: seq<Outbound>, limit: nat): seq<Sent> {
    seq(|sent|, i requires 0 <= i < |sent| => Sent(sent[i], limit))
  }

  /** What a core answers to a harmless message. */
  function Reply(c: Core, m: Outbound): (r: seq<Outbound>)
    ensures |r| <= 1
  {
    if c.control.Some? && HasOpcode(m, ControlCodec.HEARTBEAT)
    then [ControlBody(C.Plain(ControlCodec.HEARTBEAT_ACK, ControlCodec.Decode(m.body).value.controlId, SUCCESS))]
    else []
  }

  lemma PlainIsBeat(opcode: nat, id: nat)
    requires opcode == ControlCodec.HEARTBEAT || opcode == ControlCodec.HEARTBEAT_ACK
    requires id < TWO_16
    ensures IsBeat(ControlBody(C.Plain(opcode, id, SUCCESS)))
  {
    C.PlainDecodes(opcode, id, SUCCESS);
    C.PlainSize(opcode, id, SUCCESS);
  }

  lemma ReplyIsHarmless(c: Core, m: Outbound)
    ensures AllHarmless(Reply(c, m), None)
  {
    hide C.Plain;
    if c.control.Some? && HasOpcode(m, ControlCodec.HEARTBEAT) {
      PlainIsBeat(ControlCodec.HEARTBEAT_ACK, ControlCodec.Decode(m.body).value.controlId);
    }
  }

  lemma ReadBeat(c: Core, m: Outbound, codec: Codec, random: bv32)
    requires IsBeat(m)
    ensures OnlySends(c, Read(c, m, codec, random), Reply(c, m))
  {
    hide C.Plain, ControlCodec.Decode;
    var p := ControlCodec.Decode(m.body).value;
    if c.control.Some? {
      var (s, actions) := C.HandleBody(c.control.value, m.body);
      assert |actions| == 1 && actions[1..] == [];
      assert RunActions(c.(control := Some(s)), actions) == RunAction(c.(control := Some(s)), actions[0]);
    }
  }

  lemma ReadBusiness(c: Core, m: Outbound, codec: Codec, random: bv32)
    requires c.gate == AppReady && m.Rpc? && IsBusiness(m.msg, c.hs.sid) && Faithful(codec)
    ensures OnlySends(c, Read(c, m, codec, random), [])
  {
    hide Faithful;
    FaithfulFor(codec, m.msg);
  }

  lemma FaithfulFor(codec: Codec, m: RpcMessage)
    requires Faithful(codec) && (m.Response? ==> m.status < TWO_32)
    ensures codec.decodeRpc(codec.encodeRpc(m)).Parsed? && Carries(m, codec.decodeRpc(codec.encodeRpc(m)).msg)
  {}

  lemma OnlySendsKeeps(c: Core, c': Core, sent: seq<Outbound>, cfg: Config, s: Side, stage: Stage)
    requires OnlySends(c, c', sent) && Base(c, cfg, s) && AtStage(c, cfg, s, stage)
    requires stage.Linked? || stage.Session?
    ensures Base(c', cfg, s) && AtStage(c', cfg, s, stage)
  {
    hide Untroubled, NewControl, Deal;
  }

  /** What a linked end says when it becomes ready: a server greets. */
  function Greeting(s: Side): (r: seq<Outbound>) {
    if s == Server then [Rpc(Hello(""))] else []
  }

  lemma LinkReadyEffect(c: Core, cfg: Config, s: Side)
    requires c.gate == LinkConnected && Base(c, cfg, s)
    requires cfg.framed ==> c.control.value.negotiated == Some(Deal(cfg)) && c.control.value.link == C.Open
                            && c.control.value.pendingOpenId == None
    ensures var size := if cfg.framed then Some(Deal(cfg).maxFrameSize) else None;
      forall ms: nat :: var c' := LinkBecameReady(c, size, ms);
        Base(c', cfg, s) && AtStage(c', cfg, s, Linked) && c'.outbox == c.outbox + Stamped(Greeting(s), c'.maxFrameSize)
  {
    hide Deal, NewControl;
  }

  lemma OpenSentEffect(c: Core, cfg: Config, s: Side)
    requires cfg.framed && Opens(cfg, s) && Base(c, cfg, s) && AtStage(c, cfg, s, Waiting)
    ensures var c' := StartCore(c);
      && Base(c', cfg, s) && AtStage(c', cfg, s, Opening)
      && c'.outbox == c.outbox + [Sent(ControlBody(C.OpenBody(1, LocalOf(cfg, s))), c.maxFrameSize)]
  {
    hide C.OpenBody;
    var (s', actions) := C.SendOpen(c.control.value);
    assert actions[1..] == [];
    assert RunActions(c.(control := Some(s')), actions) == RunAction(c.(control := Some(s')), actions[0]);
  }

  lemma TwoActions(c: Core, a: C.Action, b: C.Action)
    ensures RunActions(c, [a, b]) == RunAction(RunAction(c, a), b)
  {
    hide RunAction;
    assert [a, b][1..] == [b] && [b][1..] == [];
    assert RunActions(RunAction(c, a), [b]) == RunActions(RunAction(RunAction(c, a), b), []);
  }

  lemma OneAction(c: Core, a: C.Action)
    ensures RunActions(c, [a]) == RunAction(c, a)
  {
    hide RunAction;
    assert [a][1..] == [];
  }

  /** An OPEN that reaches the end that waits for one: it answers, and its link is up. */
  lemma ReadOpen(c: Core, cfg: Config, s: Side, random: bv32)
    requires cfg.framed && GoodLocals(cfg) && !Opens(cfg, s) && Base(c, cfg, s) && AtStage(c, cfg, s, Waiting)
    ensures var c' := Read(c, ControlBody(C.OpenBody(1, LocalOf(cfg, Other(s)))), cfg.codec, random);
      && Base(c', cfg, s) && AtStage(c', cfg, s, Linked)
      && c'.outbox == c.outbox + [Sent(AcceptOf(Deal(cfg)), c.maxFrameSize)] + Stamped(Greeting(s), c'.maxFrameSize)
  {
    hide C.OpenBody, C.AcceptBody, ControlCodec.Decode, LinkBecameReady, RunActions;
    var l := LocalOf(cfg, Other(s));
    C.OpenDecodes(1, l);
    var (s', actions) := C.HandleBody(c.control.value, C.OpenBody(1, l));
    assert C.Acceptable(C.OpenParams(l));
    var n := Deal(cfg);
    assert actions == [C.SendBytes(C.AcceptBody(1, n.maxFrameSize, n.heartbeatIntervalMs)), C.LinkIsReady(n)];
    var c1 := c.(control := Some(s'));
    TwoActions(c1, actions[0], actions[1]);
    LinkReadyEffect(RunAction(c1, actions[0]), cfg, s);
  }

  /** The ACCEPT that answers this end's OPEN: its link is up on the same terms. */
  lemma ReadAccept(c: Core, cfg: Config, s: Side, random: bv32)
    requires cfg.framed && GoodLocals(cfg) && Opens(cfg, s) && Base(c, cfg, s) && AtStage(c, cfg, s, Opening)
    ensures var c' := Read(c, AcceptOf(Deal(cfg)), cfg.codec, random);
      && Base(c', cfg, s) && AtStage(c', cfg, s, Linked)
      && c'.outbox == c.outbox + Stamped(Greeting(s), c'.maxFrameSize)
  {
    hide C.OpenBody, C.AcceptBody, ControlCodec.Decode, LinkBecameReady, RunActions;
    var n := Deal(cfg);
    C.AcceptDecodes(1, n.maxFrameSize, n.heartbeatIntervalMs);
    var (s', actions) := C.HandleBody(c.control.value, C.AcceptBody(1, n.maxFrameSize, n.heartbeatIntervalMs));
    assert actions == [C.LinkIsReady(n)];
    var c1 := c.(control := Some(s'));
    OneAction(c1, actions[0]);
    LinkReadyEffect(c1, cfg, s);
  }

  /** The seed a client draws; zero counts as one. */
  function Seed(random: bv32): (seed: bv32)
    ensures seed != 0
  {
    if random == 0 then 1 else random
  }

  lemma ReadHello(c: Core, m: Outbound, cfg: Config, random: bv32)
    requires Base(c, cfg, Client) && AtStage(c, cfg, Client, Linked) && IsKind(m, AHello) && Faithful(cfg.codec)
    ensures var c' := Read(c, m, cfg.codec, random); var reply := Rpc(Identify("", Seed(random), cfg.eventMasks));
      && Base(c', cfg, Client) && AtStage(c', cfg, Client, Linked)
      && IsKind(reply, AnIdentify(Seed(random), cfg.eventMasks))
      && c'.outbox == c.outbox + Stamped([reply], c.maxFrameSize)
  {
    hide Deal, NewControl, Faithful;
    FaithfulFor(cfg.codec, m.msg);
  }

  lemma ReadIdentify(c: Core, m: Outbound, seed: bv32, cfg: Config, random: bv32)
    requires Base(c, cfg, Server) && AtStage(c, cfg, Server, Linked) && IsKind(m, AnIdentify(seed, cfg.eventMasks))
    requires Faithful(cfg.codec) && seed != 0
    ensures var c' := Read(c, m, cfg.codec, random); var sid := H.GenerateSid(seed, cfg.entropy);
      && FromSeed(cfg, sid)
      && Base(c', cfg, Server) && AtStage(c', cfg, Server, Session(sid))
      && c'.outbox == c.outbox + Stamped([Rpc(Identified(sid))], c.maxFrameSize)
  {
    hide Deal, NewControl, H.GenerateSid, Faithful;
    FaithfulFor(cfg.codec, m.msg);
  }

  lemma ReadIdentified(c: Core, sid: string, cfg: Config, random: bv32)
    requires Base(c, cfg, Client) && AtStage(c, cfg, Client, Linked) && FromSeed(cfg, sid) && Faithful(cfg.codec)
    ensures var c' := Read(c, Rpc(Identified(sid)), cfg.codec, random);
      && Base(c', cfg, Client) && AtStage(c', cfg, Client, Session(sid))
      && c'.outbox == c.outbox
  {
    hide Deal, NewControl, H.IsServerSid, Faithful;
    SeedMakesSid(cfg, sid);
    H.ServerSidIsAccepted(sid);
    FaithfulFor(cfg.codec, Identified(sid));
  }

  /** A session id that this server can make. */
  ghost predicate FromSeed(cfg: Config, sid: string) {
    exists seed :: seed != 0 && sid == H.GenerateSid(seed, cfg.entropy)
  }

  lemma SeedMakesSid(cfg: Config, sid: string)
    requires FromSeed(cfg, sid)
    ensures H.IsServerSid(sid)
  {
    hide H.GenerateSid, H.IsServerSid;
    var seed :| seed != 0 && sid == H.GenerateSid(seed, cfg.entropy);
    H.GeneratedSid(seed, cfg.entropy);
  }

  // ---------- The whole ----------

  function StageOf(cfg: Config, ph: Phase, s: Side, up: bool): Stage {
    match ph
    case Idle => if !cfg.framed && s == Client && up then Linked else Waiting
    case OpenSent => if Opens(cfg, s) then Opening else Waiting
    case Accepted => if Opens(cfg, s) then Opening else Linked
    case HelloSent => if s == Client && !up && !cfg.framed then Waiting else Linked
    case IdentifySent(_) => Linked
    case IdentifiedSent(sid) => if s == Server then Session(sid) else Linked
    case Done(sid) => Session(sid)
  }

  /** What travels towards an end. */
  function PatternOf(cfg: Config, ph: Phase, s: Side): Pattern {
    match ph
    case Idle => Nothing
    case OpenSent => if Opens(cfg, s) then Nothing else OneOpen(LocalOf(cfg, Other(s)))
    case Accepted =>
      if !Opens(cfg, s) then Nothing
      else if s == Client then AcceptThenHello(Deal(cfg))
      else AcceptThenBeats(Deal(cfg))
    case HelloSent => if s == Client then Await(AHello, None) else Free(None)
    case IdentifySent(seed) => if s == Server then Await(AnIdentify(seed, cfg.eventMasks), None) else Free(None)
    case IdentifiedSent(sid) => if s == Client then Await(AnIdentified(sid), Some(sid)) else Free(None)
    case Done(sid) => Free(Some(sid))
  }

  /** Which ends must have been started, and which cannot have been. */
  predicate UpOf(cfg: Config, ph: Phase, s: Side, up: bool) {
    match ph
    case Idle => if cfg.framed then (Opens(cfg, s) ==> !up) else (s == Server ==> !up)
    case OpenSent => cfg.framed && (Opens(cfg, s) ==> up)
    case Accepted => cfg.framed && up
    case HelloSent => if cfg.framed then up else (s == Server ==> up)
    case _ => up
  }

  ghost predicate PhaseOk(cfg: Config, ph: Phase) {
    && (ph.IdentifySent? ==> ph.seed != 0)
    && (ph.IdentifiedSent? || ph.Done? ==> FromSeed(cfg, ph.sid))
  }

  /** An outbound stream fails only on a framed link, and only once what it owed the handshake is written. */
  predicate MuteOf(cfg: Config, ph: Phase, s: Side, mute: bool) {
    mute ==> cfg.framed && (ph.Done? || (ph.IdentifiedSent? && s == Server))
  }

  /** A message cut for this limit passes the check of the end it goes to, whenever it is read. */
  predicate Sized(m: Outbound, cap: nat, cfg: Config, to: Side) {
    || cap == Deal(cfg).maxFrameSize
    || (IsNegotiation(m) && |m.body| == 22 && C.MIN_FRAME_SIZE <= cap < TWO_16
        && C.Min(NEGOTIATION_FRAME, cap) <= LocalOf(cfg, to).maxFrameSize)
  }

  ghost predicate WireSized(wire: seq<Packet>, cfg: Config, to: Side) {
    forall p :: p in wire ==> Sized(p.msg, p.cap, cfg, to)
  }

  ghost predicate OutboxSized(c: Core, cfg: Config, to: Side) {
    forall x :: x in c.outbox ==> Sized(x.msg, x.limit, cfg, to) && Sized(x.msg, c.maxFrameSize, cfg, to)
  }

  ghost predicate SizesOk(w: World, cfg: Config, s: Side) {
    cfg.framed ==> WireSized(Get(w, s).incoming, cfg, s) && OutboxSized(Get(w, s).core, cfg, Other(s))
  }

  ghost predicate EndOk(w: World, cfg: Config, ph: Phase, s: Side) {
    var e := Get(w, s);
    && Base(e.core, cfg, s)
    && AtStage(e.core, cfg, s, StageOf(cfg, ph, s, e.up))
    && Fits(Toward(w, s), PatternOf(cfg, ph, s))
    && UpOf(cfg, ph, s, e.up)
    && MuteOf(cfg, ph, s, e.mute)
    && SizesOk(w, cfg, s)
  }

  ghost predicate AllOk(w: World, cfg: Config, ph: Phase) {
    PhaseOk(cfg, ph) && EndOk(w, cfg, ph, Server) && EndOk(w, cfg, ph, Client)
  }

  // ---------- Channels ----------

  lemma TrafficSend(wire: seq<Packet>, outbox: seq<Sent>, extra: seq<Sent>)
    ensures Traffic(wire, outbox + extra) == Traffic(wire, outbox) + Traffic([], extra)
  {}

  lemma StampedTraffic(sent: seq<Outbound>, limit: nat)
    ensures Traffic([], Stamped(sent, limit)) == sent
  {}

  lemma TrafficRead(wire: seq<Packet>, outbox: seq<Sent>)
    requires wire != []
    ensures Traffic(wire, outbox)[0] == wire[0].msg
    ensures Traffic(wire[1..], outbox) == Traffic(wire, outbox)[1..]
  {}

  lemma TrafficFlush(wire: seq<Packet>, outbox: seq<Sent>, p: Packet)
    requires outbox != [] && p.msg == outbox[0].msg
    ensures Traffic(wire + [p], outbox[1..]) == Traffic(wire, outbox)
  {}

  lemma OutboxGrows(c: Core, c': Core, extra: seq<Sent>, cfg: Config, to: Side)
    requires OutboxSized(c, cfg, to) && c'.outbox == c.outbox + extra
    requires c'.maxFrameSize == c.maxFrameSize || c'.maxFrameSize == Deal(cfg).maxFrameSize
    requires forall x :: x in extra ==> Sized(x.msg, x.limit, cfg, to) && Sized(x.msg, c'.maxFrameSize, cfg, to)
    ensures OutboxSized(c', cfg, to)
  {
    hide IsNegotiation, Deal, C.Min;
    forall x | x in c'.outbox ensures Sized(x.msg, x.limit, cfg, to) && Sized(x.msg, c'.maxFrameSize, cfg, to) {
      assert x in c.outbox || x in extra;
    }
  }

  /** Whatever is cut for the agreed limit is sized. */
  lemma StampedSized(sent: seq<Outbound>, limit: nat, cfg: Config, to: Side)
    requires limit == Deal(cfg).maxFrameSize
    ensures forall x :: x in Stamped(sent, limit) ==> Sized(x.msg, x.limit, cfg, to) && Sized(x.msg, limit, cfg, to)
  {}

  /** The two negotiation messages fit the other end, cut for the sender's limit or for the agreed one. */
  lemma NegotiationSized(m: Outbound, cap: nat, cfg: Config, s: Side)
    requires GoodLocals(cfg) && Admits(cfg)
    requires m == AcceptOf(Deal(cfg)) || m == ControlBody(C.OpenBody(1, LocalOf(cfg, s)))
    requires cap == LocalOf(cfg, s).maxFrameSize
    ensures Sized(m, cap, cfg, Other(s)) && IsNegotiation(m)
  {
    hide C.OpenBody, C.AcceptBody, ControlCodec.Decode;
    var n := Deal(cfg);
    C.NegotiationSizes(1, LocalOf(cfg, s), n.maxFrameSize, n.heartbeatIntervalMs);
    C.OpenDecodes(1, LocalOf(cfg, s));
    C.AcceptDecodes(1, n.maxFrameSize, n.heartbeatIntervalMs);
  }

  /** An end still at its own limit admits everything sized for it; one at the agreed limit admits
      everything sized that is not part of the negotiation. */
  lemma SizedPasses(c: Core, p: Packet, cfg: Config, s: Side)
    requires c.control.Some? == cfg.framed
    requires cfg.framed ==> Sized(p.msg, p.cap, cfg, s)
    requires cfg.framed ==>
      || c.maxFrameSize == LocalOf(cfg, s).maxFrameSize
      || (c.maxFrameSize == Deal(cfg).maxFrameSize && !IsNegotiation(p.msg))
    ensures Passes(c, p, cfg.codec)
  {
    hide IsNegotiation;
    if IsNegotiation(p.msg) { NegotiationIsControl(p.msg); }
  }

  lemma NegotiationIsControl(m: Outbound)
    requires IsNegotiation(m)
    ensures m.ControlBody?
  {}

  /** What an end that says more adds to the messages under way. */
  function Joins(e: End, extra: seq<Sent>): seq<Outbound> {
    if e.mute then [] else Traffic([], extra)
  }

  lemma TowardGrows(w: World, s: Side, e': End, extra: seq<Sent>)
    requires e'.mute == Get(w, s).mute && e'.core.outbox == Get(w, s).core.outbox + extra
    ensures Toward(Set(w, s, e'), Other(s)) == Toward(w, Other(s)) + Joins(Get(w, s), extra)
    ensures Toward(Set(w, s, e'), s) == Traffic(e'.incoming, Unwritten(Get(w, Other(s))))
  {
    TrafficSend(Get(w, Other(s)).incoming, Get(w, s).core.outbox, extra);
  }

  /** Where only one end's core and its channel change. */
  lemma Assemble(w: World, cfg: Config, ph: Phase, s: Side, e': End, extra: seq<Sent>, ph': Phase)
    requires AllOk(w, cfg, ph) && PhaseOk(cfg, ph')
    requires var e := Get(w, s); var o := Get(w, Other(s));
      && e'.core.outbox == e.core.outbox + extra && e'.mute == e.mute
      && MuteOf(cfg, ph', s, e.mute) && MuteOf(cfg, ph', Other(s), o.mute)
      && Base(e'.core, cfg, s) && AtStage(e'.core, cfg, s, StageOf(cfg, ph', s, e'.up)) && UpOf(cfg, ph', s, e'.up)
      && StageOf(cfg, ph', Other(s), o.up) == StageOf(cfg, ph, Other(s), o.up) && UpOf(cfg, ph', Other(s), o.up)
      && Fits(Traffic(e'.incoming, Unwritten(o)), PatternOf(cfg, ph', s))
      && Fits(Toward(w, Other(s)) + Joins(e, extra), PatternOf(cfg, ph', Other(s)))
      && (cfg.framed ==> WireSized(e'.incoming, cfg, s) && OutboxSized(e'.core, cfg, Other(s)))
    ensures AllOk(Set(w, s, e'), cfg, ph')
  {
    hide Base, AtStage, Fits, PatternOf, StageOf, UpOf, MuteOf, WireSized, OutboxSized, Toward, Joins;
    TowardGrows(w, s, e', extra);
  }

  // ---------- The five acts ----------

  lemma UnsentKeeps(c: Core, cfg: Config, s: Side, stage: Stage)
    requires c.outbox != [] && Base(c, cfg, s) && AtStage(c, cfg, s, stage)
    ensures var c' := c.(outbox := c.outbox[1..]);
      Base(c', cfg, s) && AtStage(c', cfg, s, stage) && (OutboxSized(c, cfg, Other(s)) ==> OutboxSized(c', cfg, Other(s)))
  {
    hide Deal, Sized, NewControl;
  }

  lemma CutSized(c: Core, wire: seq<Packet>, cfg: Config, to: Side, atOnce: bool)
    requires c.outbox != [] && OutboxSized(c, cfg, to) && WireSized(wire, cfg, to)
    ensures WireSized(wire + [Cut(c, atOnce)], cfg, to)
  {
    hide Sized;
    assert c.outbox[0] in c.outbox;
  }

  /** What writing a message that can be cut leaves: the same messages under way, one of them now in the channel. */
  lemma FlushEffect(w: World, cfg: Config, s: Side, atOnce: bool)
    requires Enabled(w, Flush(s, atOnce))
    requires var p := Cut(Get(w, s).core, atOnce); CanCut(cfg, p.msg, p.cap)
    ensures var w' := Next(w, cfg, Flush(s, atOnce)); var c := Get(w, s).core; var o := Get(w, Other(s));
      && Get(w', s) == Get(w, s).(core := c.(outbox := c.outbox[1..]))
      && Get(w', Other(s)) == o.(incoming := o.incoming + [Cut(c, atOnce)])
      && Toward(w', s) == Toward(w, s) && Toward(w', Other(s)) == Toward(w, Other(s))
  {
    hide Traffic, CanCut;
    TrafficFlush(Get(w, Other(s)).incoming, Get(w, s).core.outbox, Cut(Get(w, s).core, atOnce));
  }

  lemma FlushWrites(w: World, cfg: Config, ph: Phase, s: Side, atOnce: bool)
    requires AllOk(w, cfg, ph) && Enabled(w, Flush(s, atOnce))
    requires var p := Cut(Get(w, s).core, atOnce); CanCut(cfg, p.msg, p.cap)
    ensures AllOk(Next(w, cfg, Flush(s, atOnce)), cfg, ph)
  {
    hide Base, AtStage, Fits, PatternOf, StageOf, UpOf, MuteOf, Toward, WireSized, OutboxSized, PhaseOk, Cut, Next, CanCut;
    var e := Get(w, s);
    var peer := Get(w, Other(s));
    FlushEffect(w, cfg, s, atOnce);
    UnsentKeeps(e.core, cfg, s, StageOf(cfg, ph, s, e.up));
    if cfg.framed { CutSized(e.core, peer.incoming, cfg, Other(s), atOnce); }
    var w' := Next(w, cfg, Flush(s, atOnce));
    assert EndOk(w', cfg, ph, s);
    assert EndOk(w', cfg, ph, Other(s));
  }

  /** Messages of the link itself can be cut for every limit a link may have. */
  lemma LinkMessagesCut(m: Outbound, cap: nat, cfg: Config)
    requires m.ControlBody? && |m.body| <= 22 && C.MIN_FRAME_SIZE <= cap
    ensures CanCut(cfg, m, cap)
  {}

  /** What is next to be written by an end that has not failed. */
  lemma NextUnwritten(w: World, s: Side)
    requires !Get(w, s).mute && Get(w, s).core.outbox != []
    ensures var n := |Get(w, Other(s)).incoming|; var t := Toward(w, Other(s));
      && n < |t| && t[n] == Get(w, s).core.outbox[0].msg
      && t[..n] == Traffic(Get(w, Other(s)).incoming, [])
  {}

  /** A message that cannot be cut is business, and what the handshake needs is already in the channel. */
  lemma {:induction false} AwaitedIsAhead(s: seq<Outbound>, k: Kind, sid: Option<string>, n: nat)
    requires Awaits(s, k, sid) && n < |s| && !IsKind(s[n], k) && !IsBeat(s[n])
    ensures Awaits(s[..n], k, sid) && sid.Some? && s[n].Rpc? && IsBusiness(s[n].msg, sid.value)
    decreases n
  {
    hide IsBeat, IsKind, IsBusiness;
    assert s[..n] != [] ==> s[..n][0] == s[0];
    if IsKind(s[0], k) {
      assert s[1..][n - 1] in s[1..];
      assert s[..n][1..] == s[1..][..n - 1];
      forall m | m in s[..n][1..] ensures Harmless(m, sid) { assert m in s[1..]; }
    } else {
      AwaitedIsAhead(s[1..], k, sid, n - 1);
      assert s[..n][1..] == s[1..][..n - 1];
    }
  }

  /** A handshake or link message that is next to be written. */
  predicate Vital(m: Outbound) {
    IsHandshake(m) || IsBeat(m)
  }

  lemma FitsWithout(s: seq<Outbound>, p: Pattern, n: nat)
    requires Fits(s, p) && n < |s| && !Vital(s[n]) && (p.Await? || p.Free?)
    ensures Fits(s[..n], p) && s[n].Rpc?
    ensures (if p.Await? then p.after else p.sid).Some?
  {
    hide IsBeat, IsHandshake, IsBusiness, Awaits, IsKind;
    match p
    case Await(k, sid) =>
      if IsKind(s[n], k) { KindIsRpc(s[n], k); }
      AwaitedIsAhead(s, k, sid, n);
    case Free(sid) =>
      assert s[n] in s;
      forall m | m in s[..n] ensures Harmless(m, sid) { assert m in s; }
  }

  /** Before the session is up everything under way is vital. */
  lemma EarlyIsVital(cfg: Config, ph: Phase, s: Side, t: seq<Outbound>, n: nat)
    requires GoodLocals(cfg) && Admits(cfg) && cfg.framed
    requires Fits(t, PatternOf(cfg, ph, s)) && n < |t|
    requires PatternOf(cfg, ph, s).Nothing? || PatternOf(cfg, ph, s).OneOpen? || PatternOf(cfg, ph, s).AcceptThenBeats?
             || PatternOf(cfg, ph, s).AcceptThenHello?
    ensures Vital(t[n])
  {
    hide IsBeat, IsHandshake, Awaits, C.OpenBody, C.AcceptBody, Sized, Deal, IsNegotiation;
    var o := if cfg.serverOpens then Server else Client;
    match PatternOf(cfg, ph, s)
    case Nothing =>
    case OneOpen(l) =>
      NegotiationSized(t[0], LocalOf(cfg, Other(s)).maxFrameSize, cfg, Other(s));
      NegotiationCounts(t[0]);
    case AcceptThenBeats(n') =>
      if n == 0 { AcceptCounts(cfg, s); } else { assert t[1..][n - 1] in t[1..]; HarmlessMeans(t[n], None); }
    case AcceptThenHello(n') =>
      if n == 0 { AcceptCounts(cfg, s); } else { AwaitsVital(t[1..], AHello, n - 1); }
  }

  lemma AcceptCounts(cfg: Config, s: Side)
    requires GoodLocals(cfg) && Admits(cfg)
    ensures IsHandshake(AcceptOf(Deal(cfg)))
  {
    hide IsHandshake, Sized, IsNegotiation, AcceptOf;
    NegotiationSized(AcceptOf(Deal(cfg)), LocalOf(cfg, s).maxFrameSize, cfg, s);
    NegotiationCounts(AcceptOf(Deal(cfg)));
  }

  lemma {:induction false} AwaitsVital(s: seq<Outbound>, k: Kind, n: nat)
    requires Awaits(s, k, None) && n < |s|
    ensures Vital(s[n])
    decreases n
  {
    hide IsBeat, IsHandshake, IsKind;
    if IsKind(s[0], k) {
      KindIsRpc(s[0], k);
      if n > 0 { assert s[1..][n - 1] in s[1..]; HarmlessMeans(s[n], None); }
    } else if n > 0 {
      AwaitsVital(s[1..], k, n - 1);
    }
  }

  /** An outbound stream that fails on business loses nothing that the handshake needs. */
  lemma FlushFails(w: World, cfg: Config, ph: Phase, s: Side, atOnce: bool)
    requires AllOk(w, cfg, ph) && Agreeable(cfg) && Enabled(w, Flush(s, atOnce))
    requires var p := Cut(Get(w, s).core, atOnce); !CanCut(cfg, p.msg, p.cap) && !Vital(p.msg)
    ensures AllOk(Next(w, cfg, Flush(s, atOnce)), cfg, ph)
  {
    hide Base, AtStage, Fits, PatternOf, StageOf, UpOf, MuteOf, Toward, WireSized, OutboxSized, PhaseOk, Vital, CanCut, Faithful;
    var e := Get(w, s);
    var o := Other(s);
    var w' := Next(w, cfg, Flush(s, atOnce));
    var n := |Get(w, o).incoming|;
    NextUnwritten(w, s);
    MuteEffect(w, cfg, s, atOnce);
    assert cfg.framed by { OnlyFramedFails(cfg, Cut(e.core, atOnce)); }
    SilencedKeeps(e.core, cfg, s, StageOf(cfg, ph, s, e.up));
    BusinessIsLate(cfg, ph, o, Toward(w, o), n);
    FitsWithout(Toward(w, o), PatternOf(cfg, ph, o), n);
    assert EndOk(w', cfg, ph, s);
    assert EndOk(w', cfg, ph, o);
  }

  lemma OnlyFramedFails(cfg: Config, p: Packet)
    requires !CanCut(cfg, p.msg, p.cap)
    ensures cfg.framed
  {}

  lemma MuteEffect(w: World, cfg: Config, s: Side, atOnce: bool)
    requires Enabled(w, Flush(s, atOnce))
    requires var p := Cut(Get(w, s).core, atOnce); !CanCut(cfg, p.msg, p.cap)
    ensures var w' := Next(w, cfg, Flush(s, atOnce)); var e := Get(w, s);
      && Get(w', s) == e.(mute := true, core := e.core.(outbox := []))
      && Get(w', Other(s)) == Get(w, Other(s))
      && Toward(w', s) == Toward(w, s) && Toward(w', Other(s)) == Traffic(Get(w, Other(s)).incoming, [])
  {
    hide Traffic, CanCut;
  }

  lemma SilencedKeeps(c: Core, cfg: Config, s: Side, stage: Stage)
    requires Base(c, cfg, s) && AtStage(c, cfg, s, stage)
    ensures var c' := c.(outbox := []); Base(c', cfg, s) && AtStage(c', cfg, s, stage) && OutboxSized(c', cfg, Other(s))
  {
    hide Deal, Sized, NewControl;
  }

  /** Business travels only once its sender's session is up. */
  lemma BusinessIsLate(cfg: Config, ph: Phase, o: Side, t: seq<Outbound>, n: nat)
    requires Agreeable(cfg) && cfg.framed && Fits(t, PatternOf(cfg, ph, o)) && n < |t| && !Vital(t[n])
    ensures PatternOf(cfg, ph, o).Await? || PatternOf(cfg, ph, o).Free?
    ensures MuteOf(cfg, ph, Other(o), true)
  {
    hide Fits, Vital, Faithful, Deal;
    if PatternOf(cfg, ph, o).Await? || PatternOf(cfg, ph, o).Free? {
      FitsWithout(t, PatternOf(cfg, ph, o), n);
    } else {
      EarlyIsVital(cfg, ph, o, t, n);
    }
  }

  /** What is written may be cut, or is no part of handshake and link. */
  predicate SafeWrite(w: World, cfg: Config, a: Act)
    requires Enabled(w, a)
  {
    a.Flush? ==> var p := Cut(Get(w, a.side).core, a.atOnce); CanCut(cfg, p.msg, p.cap) || !Vital(p.msg)
  }

  lemma FlushKeeps(w: World, cfg: Config, ph: Phase, s: Side, atOnce: bool)
    requires AllOk(w, cfg, ph) && Agreeable(cfg) && Enabled(w, Flush(s, atOnce)) && SafeWrite(w, cfg, Flush(s, atOnce))
    ensures AllOk(Next(w, cfg, Flush(s, atOnce)), cfg, ph)
  {
    hide AllOk, Agreeable, Next, CanCut, Vital, Cut;
    var p := Cut(Get(w, s).core, atOnce);
    if CanCut(cfg, p.msg, p.cap) { FlushWrites(w, cfg, ph, s, atOnce); } else { FlushFails(w, cfg, ph, s, atOnce); }
  }

  /** A stage at which an end may send, and what may be sent then. */
  lemma MaySend(cfg: Config, ph: Phase, s: Side, up: bool, m: Outbound)
    requires UpOf(cfg, ph, s, up)
    requires var stage := StageOf(cfg, ph, s, up);
      (cfg.framed && stage.Linked? && Harmless(m, None)) || (stage.Session? && Harmless(m, Some(stage.sid)))
    ensures MayFollow(PatternOf(cfg, ph, Other(s)), m)
  {
    hide IsBeat, IsBusiness, Deal;
  }

  lemma SendKeeps(w: World, cfg: Config, ph: Phase, s: Side, e': End, sent: seq<Outbound>)
    requires AllOk(w, cfg, ph)
    requires var e := Get(w, s); var stage := StageOf(cfg, ph, s, e.up);
      && (stage.Linked? || stage.Session?)
      && e' == e.(core := e'.core) && OnlySends(e.core, e'.core, sent)
      && |sent| == 1 && MayFollow(PatternOf(cfg, ph, Other(s)), sent[0])
    ensures AllOk(Set(w, s, e'), cfg, ph)
  {
    hide Base, Fits, PatternOf, StageOf, UpOf, MuteOf, Traffic, Sized, Stamped, MayFollow, NewControl, Untroubled, Deal, Toward;
    var e := Get(w, s);
    var stage := StageOf(cfg, ph, s, e.up);
    OnlySendsKeeps(e.core, e'.core, sent, cfg, s, stage);
    StampedTraffic(sent, e.core.maxFrameSize);
    assert sent == [sent[0]] && Toward(w, Other(s)) + [] == Toward(w, Other(s));
    FitsAppend(Toward(w, Other(s)), PatternOf(cfg, ph, Other(s)), sent[0]);
    if cfg.framed {
      StampedSized(sent, e.core.maxFrameSize, cfg, Other(s));
      OutboxGrows(e.core, e'.core, Stamped(sent, e.core.maxFrameSize), cfg, Other(s));
    }
    ToLine(w, s);
    Assemble(w, cfg, ph, s, e', Stamped(sent, e.core.maxFrameSize), ph);
  }

  lemma ToLine(w: World, s: Side)
    ensures Toward(w, s) == Traffic(Get(w, s).incoming, Unwritten(Get(w, Other(s))))
  {}

  lemma HeartbeatOnlySends(c: Core)
    requires c.control.Some?
    ensures OnlySends(c, SendHeartbeat(c), [ControlBody(C.Plain(ControlCodec.HEARTBEAT, c.control.value.nextControlId, SUCCESS))])
  {
    hide C.Plain;
  }

  lemma SendOnlySends(c: Core, m: Outbound)
    ensures OnlySends(c, Send(c, m), [m])
  {}

  lemma BeatKeeps(w: World, cfg: Config, ph: Phase, s: Side)
    requires AllOk(w, cfg, ph) && Enabled(w, Beat(s))
    ensures AllOk(Next(w, cfg, Beat(s)), cfg, ph)
  {
    hide Fits, PatternOf, Traffic, Toward, SizesOk, NewControl, Untroubled, Deal, C.Plain, MayFollow, IsBeat, UpOf;
    var e := Get(w, s);
    var stage := StageOf(cfg, ph, s, e.up);
    var id := e.core.control.value.nextControlId;
    var m := ControlBody(C.Plain(ControlCodec.HEARTBEAT, id, SUCCESS));
    PlainIsBeat(ControlCodec.HEARTBEAT, id);
    HeartbeatOnlySends(e.core);
    MaySend(cfg, ph, s, e.up, m);
    SendKeeps(w, cfg, ph, s, e.(core := SendHeartbeat(e.core)), [m]);
  }

  lemma SayKeeps(w: World, cfg: Config, ph: Phase, s: Side, msg: RpcMessage)
    requires AllOk(w, cfg, ph) && Enabled(w, Say(s, msg))
    ensures AllOk(Next(w, cfg, Say(s, msg)), cfg, ph)
  {
    hide Fits, PatternOf, Traffic, Toward, SizesOk, NewControl, Untroubled, Deal, MayFollow, IsBeat, IsBusiness, UpOf;
    var e := Get(w, s);
    var m := Rpc(msg);
    SendOnlySends(e.core, m);
    MaySend(cfg, ph, s, e.up, m);
    SendKeeps(w, cfg, ph, s, e.(core := Send(e.core, m)), [m]);
  }

  lemma StartAcceptor(w: World, cfg: Config, ph: Phase, s: Side)
    requires AllOk(w, cfg, ph) && Enabled(w, Start(s)) && cfg.framed && !Opens(cfg, s)
    ensures AllOk(Next(w, cfg, Start(s)), cfg, ph)
  {
    hide AtStage, Fits, PatternOf, Toward, WireSized, OutboxSized, PhaseOk, Traffic, Untroubled;
    var e := Get(w, s);
    var o := Other(s);
    assert Joins(e, []) == [] && Toward(w, o) + [] == Toward(w, o);
    ToLine(w, s);
    Assemble(w, cfg, ph, s, e.(up := true), [], ph);
  }

  lemma StartOpener(w: World, cfg: Config, ph: Phase, s: Side)
    requires AllOk(w, cfg, ph) && Enabled(w, Start(s)) && Agreeable(cfg) && cfg.framed && Opens(cfg, s)
    ensures ph == Idle && AllOk(Next(w, cfg, Start(s)), cfg, OpenSent)
  {
    hide Base, AtStage, Toward, WireSized, OutboxSized, Traffic, StartCore, C.OpenBody, IsNegotiation, Sized, IsHandshake, Deal;
    var e := Get(w, s);
    OpenSentEffect(e.core, cfg, s);
    var m := ControlBody(C.OpenBody(1, LocalOf(cfg, s)));
    var e' := e.(up := true, core := StartCore(e.core));
    WaitingLimit(e.core, cfg, s);
    OpeningLimit(e'.core, cfg, s);
    NegotiationSized(m, e.core.maxFrameSize, cfg, s);
    OutboxGrows(e.core, e'.core, [Sent(m, e.core.maxFrameSize)], cfg, Other(s));
    OneTraffic(m, e.core.maxFrameSize);
    ToLine(w, s);
    assert Toward(w, Other(s)) + [m] == [m];
    Assemble(w, cfg, ph, s, e', [Sent(m, e.core.maxFrameSize)], OpenSent);
  }

  lemma OneTraffic(m: Outbound, limit: nat)
    ensures Traffic([], [Sent(m, limit)]) == [m]
  {}

  lemma WaitingLimit(c: Core, cfg: Config, s: Side)
    requires AtStage(c, cfg, s, Waiting)
    ensures c.maxFrameSize == LocalOf(cfg, s).maxFrameSize
  {}

  lemma OpeningLimit(c: Core, cfg: Config, s: Side)
    requires AtStage(c, cfg, s, Opening)
    ensures c.maxFrameSize == LocalOf(cfg, s).maxFrameSize
  {}

  lemma LinkedLimit(c: Core, cfg: Config, s: Side, stage: Stage)
    requires AtStage(c, cfg, s, stage) && (stage.Linked? || stage.Session?)
    ensures cfg.framed ==> c.maxFrameSize == Deal(cfg).maxFrameSize
    ensures c.gate == if stage.Session? then AppReady else FramingReady
    ensures stage.Session? ==> c.hs.sid == stage.sid
  {}

  /** Without a link to open, an end is ready as soon as it is started. */
  lemma StartUnframed(w: World, cfg: Config, ph: Phase, s: Side) returns (ph': Phase)
    requires AllOk(w, cfg, ph) && Enabled(w, Start(s)) && !cfg.framed
    ensures AllOk(Next(w, cfg, Start(s)), cfg, ph') && PhaseRank(cfg, ph') == PhaseRank(cfg, ph)
  {
    hide Base, Toward, WireSized, OutboxSized, Traffic, LinkBecameReady, Untroubled, LinkedOn, Deal;
    var e := Get(w, s);
    ph' := if s == Server then HelloSent else ph;
    BaseUnframed(e.core, cfg, s);
    LinkReadyEffect(e.core, cfg, s);
    var e' := e.(up := true, core := StartCore(e.core));
    StampedTraffic(Greeting(s), e'.core.maxFrameSize);
    ToLine(w, s);
    if s == Server {
      assert Toward(w, Client) + [Rpc(Hello(""))] == [] + [Rpc(Hello(""))];
      AwaitsLast([], AHello, None, Rpc(Hello("")));
    } else {
      assert Toward(w, Server) + [] == Toward(w, Server);
    }
    Assemble(w, cfg, ph, s, e', Stamped(Greeting(s), e'.core.maxFrameSize), ph');
  }

  lemma BaseUnframed(c: Core, cfg: Config, s: Side)
    requires Base(c, cfg, s) && !cfg.framed
    ensures c.control == None
  {}

  // ---------- Reading ----------

  lemma DeliverEffect(w: World, cfg: Config, s: Side, random: bv32)
    requires Enabled(w, Deliver(s, random)) && Passes(Get(w, s).core, Get(w, s).incoming[0], cfg.codec)
    ensures var e := Get(w, s); var t := Toward(w, s);
      && t != [] && t[0] == e.incoming[0].msg
      && Traffic(e.incoming[1..], Unwritten(Get(w, Other(s)))) == t[1..]
      && Next(w, cfg, Deliver(s, random)) == Set(w, s, e.(core := Read(e.core, t[0], cfg.codec, random), incoming := e.incoming[1..]))
  {
    hide Passes, Read, Traffic;
    TrafficRead(Get(w, s).incoming, Unwritten(Get(w, Other(s))));
  }

  lemma HeadSized(wire: seq<Packet>, cfg: Config, to: Side)
    requires wire != [] && WireSized(wire, cfg, to)
    ensures Sized(wire[0].msg, wire[0].cap, cfg, to) && WireSized(wire[1..], cfg, to)
  {
    hide Sized;
    assert wire[0] in wire;
  }

  function SidOf(stage: Stage): Option<string> {
    if stage.Session? then Some(stage.sid) else None
  }

  lemma ReadHarmless(c: Core, m: Outbound, cfg: Config, s: Side, stage: Stage, random: bv32) returns (sent: seq<Outbound>)
    requires AtStage(c, cfg, s, stage) && (stage.Linked? || stage.Session?) && Harmless(m, SidOf(stage)) && Faithful(cfg.codec)
    ensures OnlySends(c, Read(c, m, cfg.codec, random), sent) && |sent| <= 1 && AllHarmless(sent, None)
    ensures sent != [] ==> c.control.Some?
  {
    hide IsBeat, IsBusiness, Read, OnlySends, Harmless, Faithful;
    LinkedLimit(c, cfg, s, stage);
    sent := if IsBeat(m) then Reply(c, m) else [];
    assert IsBeat(m) || (stage.Session? && m.Rpc? && IsBusiness(m.msg, c.hs.sid)) by { HarmlessMeans(m, SidOf(stage)); }
    if IsBeat(m) {
      ReplyIsHarmless(c, m);
      ReadBeat(c, m, cfg.codec, random);
    } else {
      ReadBusiness(c, m, cfg.codec, random);
    }
  }

  lemma HarmlessMeans(m: Outbound, sid: Option<string>)
    requires Harmless(m, sid)
    ensures IsBeat(m) || (sid.Some? && m.Rpc? && IsBusiness(m.msg, sid.value))
    ensures !IsNegotiation(m) && !IsHandshake(m)
  {
    if IsBeat(m) { BeatsAreNothingElse(m, AHello); }
  }

  /** A harmless message is read and perhaps answered; nothing else changes. */
  lemma DeliverHarmless(w: World, cfg: Config, ph: Phase, s: Side, random: bv32)
    requires AllOk(w, cfg, ph) && Enabled(w, Deliver(s, random)) && Faithful(cfg.codec)
    requires var e := Get(w, s); var stage := StageOf(cfg, ph, s, e.up); var m := e.incoming[0].msg;
      && (stage.Linked? || stage.Session?) && Harmless(m, SidOf(stage))
      && Fits(Toward(w, s)[1..], PatternOf(cfg, ph, s))
    ensures AllOk(Next(w, cfg, Deliver(s, random)), cfg, ph)
  {
    hide Base, AtStage, Fits, PatternOf, StageOf, UpOf, MuteOf, Toward, WireSized, OutboxSized, PhaseOk, Traffic, Harmless;
    hide Next, Passes, Read, IsNegotiation, Sized, OnlySends, MayFollow, Deal, SidOf, IsHandshake, Faithful;
    var e := Get(w, s);
    var stage := StageOf(cfg, ph, s, e.up);
    LinkedLimit(e.core, cfg, s, stage);
    HarmlessMeans(e.incoming[0].msg, SidOf(stage));
    BaseFramed(e.core, cfg, s);
    if cfg.framed { HeadSized(e.incoming, cfg, s); }
    SizedPasses(e.core, e.incoming[0], cfg, s);
    DeliverEffect(w, cfg, s, random);
    var sent := ReadHarmless(e.core, e.incoming[0].msg, cfg, s, stage, random);
    var e' := e.(core := Read(e.core, e.incoming[0].msg, cfg.codec, random), incoming := e.incoming[1..]);
    OnlySendsKeeps(e.core, e'.core, sent, cfg, s, stage);
    var extra := Stamped(sent, e.core.maxFrameSize);
    StampedTraffic(sent, e.core.maxFrameSize);
    SentOutbox(e.core, e'.core, sent);
    if cfg.framed {
      StampedSized(sent, e.core.maxFrameSize, cfg, Other(s));
      OutboxGrows(e.core, e'.core, extra, cfg, Other(s));
    }
    FitsReply(w, cfg, ph, s, sent);
    assert Toward(w, Other(s)) + [] == Toward(w, Other(s));
    Assemble(w, cfg, ph, s, e', extra, ph);
  }

  lemma SentOutbox(c: Core, c': Core, sent: seq<Outbound>)
    requires OnlySends(c, c', sent)
    ensures c'.outbox == c.outbox + Stamped(sent, c.maxFrameSize) && c'.maxFrameSize == c.maxFrameSize
  {}

  lemma BaseFramed(c: Core, cfg: Config, s: Side)
    requires Base(c, cfg, s)
    ensures c.control.Some? == cfg.framed
  {}

  lemma FitsReply(w: World, cfg: Config, ph: Phase, s: Side, sent: seq<Outbound>)
    requires AllOk(w, cfg, ph) && |sent| <= 1 && AllHarmless(sent, None) && (sent != [] ==> cfg.framed)
    requires var stage := StageOf(cfg, ph, s, Get(w, s).up); stage.Linked? || stage.Session?
    ensures Fits(Toward(w, Other(s)) + sent, PatternOf(cfg, ph, Other(s)))
  {
    hide Base, AtStage, Fits, PatternOf, StageOf, UpOf, Toward, WireSized, OutboxSized, PhaseOk, MayFollow, IsBeat;
    if sent == [] {
      assert Toward(w, Other(s)) + sent == Toward(w, Other(s));
    } else {
      assert sent == [sent[0]] && sent[0] in sent;
      MaySend(cfg, ph, s, Get(w, s).up, sent[0]);
      FitsAppend(Toward(w, Other(s)), PatternOf(cfg, ph, Other(s)), sent[0]);
    }
  }

  /** Reading a handshake message, once its effect on the reader is known. */
  lemma DeliverMoves(w: World, cfg: Config, ph: Phase, s: Side, random: bv32, c': Core, extra: seq<Sent>, ph': Phase)
    requires AllOk(w, cfg, ph) && Enabled(w, Deliver(s, random)) && PhaseOk(cfg, ph')
    requires var e := Get(w, s); var o := Get(w, Other(s));
      && Passes(e.core, e.incoming[0], cfg.codec) && c' == Read(e.core, e.incoming[0].msg, cfg.codec, random) && c'.outbox == e.core.outbox + extra
      && Base(c', cfg, s) && AtStage(c', cfg, s, StageOf(cfg, ph', s, e.up)) && UpOf(cfg, ph', s, e.up)
      && StageOf(cfg, ph', Other(s), o.up) == StageOf(cfg, ph, Other(s), o.up) && UpOf(cfg, ph', Other(s), o.up)
      && Toward(w, s) != [] && Fits(Toward(w, s)[1..], PatternOf(cfg, ph', s))
      && !e.mute && MuteOf(cfg, ph', Other(s), o.mute)
      && Fits(Toward(w, Other(s)) + Traffic([], extra), PatternOf(cfg, ph', Other(s)))
      && (cfg.framed ==> OutboxSized(c', cfg, Other(s)))
    ensures AllOk(Next(w, cfg, Deliver(s, random)), cfg, ph')
  {
    hide Base, AtStage, Fits, PatternOf, StageOf, UpOf, Toward, WireSized, OutboxSized, PhaseOk, Traffic;
    hide Next, Passes, Read, Sized;
    var e := Get(w, s);
    if cfg.framed { HeadSized(e.incoming, cfg, s); }
    DeliverEffect(w, cfg, s, random);
    Assemble(w, cfg, ph, s, e.(core := c', incoming := e.incoming[1..]), extra, ph');
  }

  /** The head of a channel fits whatever limit the end that reads it works with. */
  lemma HeadPasses(w: World, cfg: Config, ph: Phase, s: Side)
    requires EndOk(w, cfg, ph, s) && Get(w, s).incoming != []
    requires var stage := StageOf(cfg, ph, s, Get(w, s).up);
      stage.Linked? || stage.Session? ==> !IsNegotiation(Get(w, s).incoming[0].msg)
    ensures Passes(Get(w, s).core, Get(w, s).incoming[0], cfg.codec)
    ensures Toward(w, s) != [] && Toward(w, s)[0] == Get(w, s).incoming[0].msg
  {
    hide Fits, PatternOf, UpOf, StageOf, AtStage, WireSized, OutboxSized, Traffic, Passes, Sized;
    hide IsNegotiation, Untroubled, NewControl, LinkedOn, Deal;
    var e := Get(w, s);
    var stage := StageOf(cfg, ph, s, e.up);
    TrafficRead(e.incoming, Unwritten(Get(w, Other(s))));
    if stage == Waiting { WaitingLimit(e.core, cfg, s); }
    else if stage == Opening { OpeningLimit(e.core, cfg, s); }
    else { LinkedLimit(e.core, cfg, s, stage); }
    if cfg.framed { HeadSized(e.incoming, cfg, s); }
    SizedPasses(e.core, e.incoming[0], cfg, s);
  }

  /** A greeting follows what an end said before. */
  lemma GreetingSized(c: Core, c': Core, first: seq<Sent>, cfg: Config, s: Side)
    requires cfg.framed && OutboxSized(c, cfg, Other(s)) && c'.maxFrameSize == Deal(cfg).maxFrameSize
    requires first == [] || (|first| == 1 && Sized(first[0].msg, first[0].limit, cfg, Other(s)))
    requires c'.outbox == c.outbox + (first + Stamped(Greeting(s), c'.maxFrameSize))
    ensures OutboxSized(c', cfg, Other(s))
  {
    hide IsNegotiation, Deal, Greeting;
    var extra := first + Stamped(Greeting(s), c'.maxFrameSize);
    StampedSized(Greeting(s), c'.maxFrameSize, cfg, Other(s));
    forall x | x in extra ensures Sized(x.msg, x.limit, cfg, Other(s)) && Sized(x.msg, c'.maxFrameSize, cfg, Other(s)) {
      assert x in first || x in Stamped(Greeting(s), c'.maxFrameSize);
    }
    OutboxGrows(c, c', extra, cfg, Other(s));
  }

  lemma DeliverOpen(w: World, cfg: Config, s: Side, random: bv32)
    requires AllOk(w, cfg, OpenSent) && Enabled(w, Deliver(s, random)) && Agreeable(cfg) && !Opens(cfg, s)
    ensures AllOk(Next(w, cfg, Deliver(s, random)), cfg, Accepted)
  {
    hide Base, AtStage, Toward, WireSized, OutboxSized, Traffic, Next, Passes, Read;
    hide C.OpenBody, C.AcceptBody, IsNegotiation, Sized, IsHandshake, Deal;
    var e := Get(w, s);
    HeadPasses(w, cfg, OpenSent, s);
    ReadOpen(e.core, cfg, s, random);
    WaitingLimit(e.core, cfg, s);
    var c' := Read(e.core, e.incoming[0].msg, cfg.codec, random);
    var first := [Sent(AcceptOf(Deal(cfg)), e.core.maxFrameSize)];
    var greeting := Stamped(Greeting(s), c'.maxFrameSize);
    LinkedLimit(c', cfg, s, Linked);
    NegotiationSized(AcceptOf(Deal(cfg)), e.core.maxFrameSize, cfg, s);
    assert e.core.outbox + first + greeting == e.core.outbox + (first + greeting);
    GreetingSized(e.core, c', first, cfg, s);
    TrafficSend([], first, greeting);
    OneTraffic(AcceptOf(Deal(cfg)), e.core.maxFrameSize);
    StampedTraffic(Greeting(s), c'.maxFrameSize);
    var t := [AcceptOf(Deal(cfg))] + Greeting(s);
    assert Toward(w, Other(s)) + t == t && t[1..] == Greeting(s);
    if s == Server { AwaitsLast([], AHello, None, Rpc(Hello(""))); assert t[1..] == [] + [Rpc(Hello(""))]; }
    DeliverMoves(w, cfg, OpenSent, s, random, c', first + greeting, Accepted);
  }

  lemma DeliverAccept(w: World, cfg: Config, s: Side, random: bv32)
    requires AllOk(w, cfg, Accepted) && Enabled(w, Deliver(s, random)) && Agreeable(cfg) && Opens(cfg, s)
    ensures AllOk(Next(w, cfg, Deliver(s, random)), cfg, HelloSent)
  {
    hide Base, AtStage, Toward, WireSized, OutboxSized, Traffic, Next, Passes, Read, C.AcceptBody, IsNegotiation, Sized, IsHandshake, Deal;
    var e := Get(w, s);
    HeadPasses(w, cfg, Accepted, s);
    ReadAccept(e.core, cfg, s, random);
    var c' := Read(e.core, e.incoming[0].msg, cfg.codec, random);
    var greeting := Stamped(Greeting(s), c'.maxFrameSize);
    LinkedLimit(c', cfg, s, Linked);
    assert [] + greeting == greeting;
    GreetingSized(e.core, c', [], cfg, s);
    StampedTraffic(Greeting(s), c'.maxFrameSize);
    assert Toward(w, Other(s)) + Greeting(s) == Greeting(s);
    if s == Server { AwaitsLast([], AHello, None, Rpc(Hello(""))); assert Greeting(s) == [] + [Rpc(Hello(""))]; }
    DeliverMoves(w, cfg, Accepted, s, random, c', greeting, HelloSent);
  }

  /** Reading the awaited message when the reader stays linked or becomes ready, with at most one answer. */
  lemma DeliverAwaited(w: World, cfg: Config, ph: Phase, s: Side, random: bv32, c': Core, reply: seq<Outbound>, ph': Phase)
    requires AllOk(w, cfg, ph) && Enabled(w, Deliver(s, random)) && PhaseOk(cfg, ph')
    requires ph.HelloSent? || ph.IdentifySent? || ph.IdentifiedSent?
    requires s == (if ph.IdentifySent? then Server else Client)
    requires var pattern := PatternOf(cfg, ph, s); var e := Get(w, s);
      && e.incoming != [] && IsKind(e.incoming[0].msg, pattern.kind)
      && c' == Read(e.core, e.incoming[0].msg, cfg.codec, random) && c'.outbox == e.core.outbox + Stamped(reply, e.core.maxFrameSize)
      && Base(c', cfg, s) && AtStage(c', cfg, s, StageOf(cfg, ph', s, e.up))
      && (ph'.IdentifySent? || ph'.IdentifiedSent? || ph'.Done?) && PhaseRank(cfg, ph') == PhaseRank(cfg, ph) + 1
      && (ph'.Done? ==> ph'.sid == ph.sid)
      && Fits(Toward(w, Other(s)) + reply, PatternOf(cfg, ph', Other(s)))
    ensures AllOk(Next(w, cfg, Deliver(s, random)), cfg, ph')
  {
    hide Base, AtStage, Toward, WireSized, OutboxSized, Traffic, Next, Passes, Read;
    hide IsNegotiation, Sized, IsHandshake, Deal, IsBeat, IsBusiness, H.IsServerSid;
    var e := Get(w, s);
    assert !IsNegotiation(e.incoming[0].msg) by { KindIsRpc(e.incoming[0].msg, PatternOf(cfg, ph, s).kind); }
    HeadPasses(w, cfg, ph, s);
    FitsTail(Toward(w, s), PatternOf(cfg, ph, s).kind, PatternOf(cfg, ph, s).after);
    LinkedLimit(e.core, cfg, s, Linked);
    LinkedLimit(c', cfg, s, StageOf(cfg, ph', s, e.up));
    StampedTraffic(reply, e.core.maxFrameSize);
    if cfg.framed {
      StampedSized(reply, e.core.maxFrameSize, cfg, Other(s));
      OutboxGrows(e.core, c', Stamped(reply, e.core.maxFrameSize), cfg, Other(s));
    }
    DeliverMoves(w, cfg, ph, s, random, c', Stamped(reply, e.core.maxFrameSize), ph');
  }

  lemma KindIsRpc(m: Outbound, k: Kind)
    requires IsKind(m, k)
    ensures !IsNegotiation(m) && IsHandshake(m)
  {}

  lemma DeliverHello(w: World, cfg: Config, random: bv32)
    requires AllOk(w, cfg, HelloSent) && Enabled(w, Deliver(Client, random)) && IsKind(w.client.incoming[0].msg, AHello)
    requires Faithful(cfg.codec)
    ensures AllOk(Next(w, cfg, Deliver(Client, random)), cfg, IdentifySent(Seed(random)))
  {
    hide Base, AtStage, Toward, WireSized, OutboxSized, Next, Read, IsHandshake, Deal, IsBeat, IsBusiness, Faithful;
    var e := w.client;
    var reply := Rpc(Identify("", Seed(random), cfg.eventMasks));
    ReadHello(e.core, e.incoming[0].msg, cfg, random);
    AwaitsLast(Toward(w, Server), AnIdentify(Seed(random), cfg.eventMasks), None, reply);
    var c' := Read(e.core, e.incoming[0].msg, cfg.codec, random);
    DeliverAwaited(w, cfg, HelloSent, Client, random, c', [reply], IdentifySent(Seed(random)));
  }

  lemma DeliverIdentify(w: World, cfg: Config, seed: bv32, random: bv32)
    requires AllOk(w, cfg, IdentifySent(seed)) && Enabled(w, Deliver(Server, random)) && Faithful(cfg.codec)
    requires IsKind(w.server.incoming[0].msg, AnIdentify(seed, cfg.eventMasks))
    ensures AllOk(Next(w, cfg, Deliver(Server, random)), cfg, IdentifiedSent(H.GenerateSid(seed, cfg.entropy)))
  {
    hide Base, AtStage, Toward, WireSized, OutboxSized, Next, Read, IsHandshake, Deal, IsBeat, IsBusiness;
    hide H.GenerateSid, FromSeed, Faithful;
    var e := w.server;
    var sid := H.GenerateSid(seed, cfg.entropy);
    ReadIdentify(e.core, e.incoming[0].msg, seed, cfg, random);
    AwaitsLast(Toward(w, Client), AnIdentified(sid), Some(sid), Rpc(Identified(sid)));
    var c' := Read(e.core, e.incoming[0].msg, cfg.codec, random);
    DeliverAwaited(w, cfg, IdentifySent(seed), Server, random, c', [Rpc(Identified(sid))], IdentifiedSent(sid));
  }

  lemma DeliverIdentified(w: World, cfg: Config, sid: string, random: bv32)
    requires AllOk(w, cfg, IdentifiedSent(sid)) && Enabled(w, Deliver(Client, random)) && Faithful(cfg.codec)
    requires IsKind(w.client.incoming[0].msg, AnIdentified(sid))
    ensures AllOk(Next(w, cfg, Deliver(Client, random)), cfg, Done(sid))
  {
    hide Base, AtStage, Toward, WireSized, OutboxSized, Next, Read, IsHandshake, Deal, IsBeat, IsBusiness, FromSeed, Faithful;
    var e := w.client;
    ReadIdentified(e.core, sid, cfg, random);
    assert e.core.outbox + Stamped([], e.core.maxFrameSize) == e.core.outbox;
    Widen(Toward(w, Server), sid);
    assert Toward(w, Server) + [] == Toward(w, Server);
    DeliverAwaited(w, cfg, IdentifiedSent(sid), Client, random, Read(e.core, e.incoming[0].msg, cfg.codec, random), [], Done(sid));
  }

  lemma Widen(s: seq<Outbound>, sid: string)
    requires AllHarmless(s, None)
    ensures AllHarmless(s, Some(sid))
  {
    hide IsBeat, IsBusiness;
    forall m | m in s ensures Harmless(m, Some(sid)) { assert Harmless(m, None); }
  }

  lemma HarmlessWider(m: Outbound, sid: Option<string>)
    requires Harmless(m, None)
    ensures Harmless(m, sid)
  {
    hide IsBeat, IsBusiness;
  }

  /** What an end can find at the head of its channel. */
  lemma HeadOf(w: World, cfg: Config, ph: Phase, s: Side, random: bv32)
    requires AllOk(w, cfg, ph) && Enabled(w, Deliver(s, random))
    ensures var e := Get(w, s); var m := e.incoming[0].msg; var p := PatternOf(cfg, ph, s); var stage := StageOf(cfg, ph, s, e.up);
      || (ph == OpenSent && !Opens(cfg, s))
      || (ph == Accepted && Opens(cfg, s))
      || (p.Await? && IsKind(m, p.kind))
      || ((stage.Linked? || stage.Session?) && Harmless(m, SidOf(stage)) && Fits(Toward(w, s)[1..], p))
  {
    hide Base, AtStage, WireSized, OutboxSized, Traffic, Next, IsBeat, IsBusiness, Deal, Harmless, IsKind, AcceptOf;
    var e := Get(w, s);
    var p := PatternOf(cfg, ph, s);
    TrafficRead(e.incoming, Unwritten(Get(w, Other(s))));
    var t := Toward(w, s);
    match p
    case Nothing =>
    case OneOpen(_) =>
    case AcceptThenBeats(_) =>
    case AcceptThenHello(_) =>
    case Await(k, sid) =>
      FitsTail(t, k, sid);
      if !IsKind(t[0], k) { HarmlessWider(t[0], SidOf(StageOf(cfg, ph, s, e.up))); }
    case Free(sid) =>
      assert t[0] in t;
      if sid == None { HarmlessWider(t[0], SidOf(StageOf(cfg, ph, s, e.up))); }
  }

  /** The phase that reading a handshake message leads to. */
  function NextPhase(cfg: Config, ph: Phase, random: bv32): Phase {
    match ph
    case OpenSent => Accepted
    case Accepted => HelloSent
    case HelloSent => IdentifySent(Seed(random))
    case IdentifySent(seed) => IdentifiedSent(H.GenerateSid(seed, cfg.entropy))
    case IdentifiedSent(sid) => Done(sid)
    case _ => ph
  }

  /** Reading a message keeps the invariant; reading a handshake message moves on by one phase. */
  lemma DeliverKeeps(w: World, cfg: Config, ph: Phase, s: Side, random: bv32) returns (ph': Phase)
    requires AllOk(w, cfg, ph) && Enabled(w, Deliver(s, random)) && Agreeable(cfg)
    ensures AllOk(Next(w, cfg, Deliver(s, random)), cfg, ph')
    ensures ph' == if IsHandshake(Get(w, s).incoming[0].msg) then NextPhase(cfg, ph, random) else ph
    ensures PhaseRank(cfg, ph') == PhaseRank(cfg, ph) + if IsHandshake(Get(w, s).incoming[0].msg) then 1 else 0
  {
    hide AllOk, Next, Toward, Traffic, IsHandshake, IsKind, Harmless, Fits, Deal, Agreeable, H.GenerateSid;
    assert Faithful(cfg.codec) by { AgreeableCodec(cfg); }
    HeadOf(w, cfg, ph, s, random);
    var e := Get(w, s);
    var p := PatternOf(cfg, ph, s);
    var stage := StageOf(cfg, ph, s, e.up);
    if ph == OpenSent && !Opens(cfg, s) {
      ph' := Accepted;
      NegotiationIsHandshake(w, cfg, ph, s);
      DeliverOpen(w, cfg, s, random);
    } else if ph == Accepted && Opens(cfg, s) {
      ph' := HelloSent;
      NegotiationIsHandshake(w, cfg, ph, s);
      DeliverAccept(w, cfg, s, random);
    } else if p.Await? && IsKind(e.incoming[0].msg, p.kind) {
      KindIsRpc(e.incoming[0].msg, p.kind);
      ph' := NextPhase(cfg, ph, random);
      match ph {
        case HelloSent => DeliverHello(w, cfg, random);
        case IdentifySent(seed) => DeliverIdentify(w, cfg, seed, random);
        case IdentifiedSent(sid) => DeliverIdentified(w, cfg, sid, random);
      }
    } else {
      ph' := ph;
      HarmlessMeans(e.incoming[0].msg, SidOf(stage));
      DeliverHarmless(w, cfg, ph, s, random);
    }
  }

  lemma AgreeableCodec(cfg: Config)
    requires Agreeable(cfg)
    ensures Faithful(cfg.codec)
  {}

  lemma NegotiationIsHandshake(w: World, cfg: Config, ph: Phase, s: Side)
    requires AllOk(w, cfg, ph) && Get(w, s).incoming != [] && Agreeable(cfg)
    requires (ph == OpenSent && !Opens(cfg, s)) || (ph == Accepted && Opens(cfg, s))
    ensures IsHandshake(Get(w, s).incoming[0].msg)
  {
    hide Base, AtStage, WireSized, OutboxSized, Traffic, C.OpenBody, C.AcceptBody, IsNegotiation, Sized, Deal;
    TrafficRead(Get(w, s).incoming, Unwritten(Get(w, Other(s))));
    NegotiationSized(Get(w, s).incoming[0].msg, LocalOf(cfg, Other(s)).maxFrameSize, cfg, Other(s));
  }

  /** How many handshake messages an act delivers. */
  function Advance(w: World, a: Act): nat
    requires Enabled(w, a)
  {
    if a.Deliver? && IsHandshake(Get(w, a.side).incoming[0].msg) then 1 else 0
  }

  /** Every act keeps the invariant; none goes back, and every handshake message read goes forward. */
  lemma NextKeeps(w: World, cfg: Config, ph: Phase, a: Act) returns (ph': Phase)
    requires AllOk(w, cfg, ph) && Agreeable(cfg) && Enabled(w, a) && SafeWrite(w, cfg, a)
    ensures AllOk(Next(w, cfg, a), cfg, ph') && PhaseRank(cfg, ph') == PhaseRank(cfg, ph) + Advance(w, a)
    ensures !a.Start? ==> ph' == if a.Deliver? && Advance(w, a) == 1 then NextPhase(cfg, ph, a.random) else ph
  {
    hide AllOk, Next, IsHandshake, Enabled, Agreeable, SafeWrite;
    ph' := ph;
    match a
    case Start(s) => ph' := StartKeeps(w, cfg, ph, s);
    case Flush(s, atOnce) => FlushKeeps(w, cfg, ph, s, atOnce);
    case Deliver(s, random) => ph' := DeliverKeeps(w, cfg, ph, s, random);
    case Beat(s) => BeatKeeps(w, cfg, ph, s);
    case Say(s, msg) => SayKeeps(w, cfg, ph, s, msg);
  }

  lemma StartKeeps(w: World, cfg: Config, ph: Phase, s: Side) returns (ph': Phase)
    requires AllOk(w, cfg, ph) && Agreeable(cfg) && Enabled(w, Start(s))
    ensures AllOk(Next(w, cfg, Start(s)), cfg, ph') && PhaseRank(cfg, ph') == PhaseRank(cfg, ph)
  {
    hide AllOk, Next, Enabled, Agreeable;
    if !cfg.framed {
      ph' := StartUnframed(w, cfg, ph, s);
    } else if Opens(cfg, s) {
      ph' := OpenSent;
      StartOpener(w, cfg, ph, s);
    } else {
      ph' := ph;
      StartAcceptor(w, cfg, ph, s);
    }
  }

  lemma InitialOk(w: World, cfg: Config)
    requires IsInitial(w, cfg)
    ensures AllOk(w, cfg, Idle)
  {}

  // ---------- What the invariant says ----------

  lemma EndAgrees(w: World, cfg: Config, ph: Phase, s: Side)
    requires EndOk(w, cfg, ph, s)
    ensures var c := Get(w, s).core;
      && Untroubled(c) && Agrees(c, cfg)
      && (c.gate == AppReady <==> StageOf(cfg, ph, s, Get(w, s).up).Session?)
      && (c.gate == AppReady ==> c.hs.sid == StageOf(cfg, ph, s, Get(w, s).up).sid)
  {
    hide Fits, PatternOf, StageOf, UpOf, SizesOk, Toward, Deal, Untroubled;
  }

  lemma SomethingInFlight(w: World, cfg: Config, ph: Phase)
    requires AllOk(w, cfg, ph) && Agreeable(cfg) && w.server.up && w.client.up && !ph.Done?
    ensures InFlight(w)
  {
    hide Base, AtStage, WireSized, OutboxSized, Toward, Traffic, C.OpenBody, C.AcceptBody, IsNegotiation, Sized, IsHandshake, Deal, SizesOk;
    var opener := if cfg.serverOpens then Server else Client;
    if ph == OpenSent {
      NegotiationSized(ControlBody(C.OpenBody(1, LocalOf(cfg, opener))), LocalOf(cfg, opener).maxFrameSize, cfg, opener);
      NegotiationCounts(Toward(w, Other(opener))[0]);
    } else if ph == Accepted {
      NegotiationSized(AcceptOf(Deal(cfg)), LocalOf(cfg, opener).maxFrameSize, cfg, opener);
      NegotiationCounts(Toward(w, opener)[0]);
    } else {
      var s := if ph.IdentifySent? then Server else Client;
      var p := PatternOf(cfg, ph, s);
      var i := AwaitsHolds(Toward(w, s), p.kind, p.after);
      KindIsRpc(Toward(w, s)[i], p.kind);
    }
  }

  lemma NegotiationCounts(m: Outbound)
    requires IsNegotiation(m)
    ensures IsHandshake(m)
  {}

  lemma OkIsSafe(w: World, cfg: Config, ph: Phase)
    requires AllOk(w, cfg, ph) && Agreeable(cfg)
    ensures Safe(w, cfg) && (ph.Done? <==> BothReady(w))
  {
    hide Fits, PatternOf, SizesOk, Toward, Deal, Untroubled, Agrees, Base, AtStage, UpOf, MuteOf, Agreeable, FromSeed;
    hide IsHandshake, IsOpenRequired, InFlight, H.IsServerSid;
    EndAgrees(w, cfg, ph, Server);
    EndAgrees(w, cfg, ph, Client);
    if ph.IdentifiedSent? || ph.Done? { SeedMakesSid(cfg, ph.sid); }
    forall s: Side, i | 0 <= i < |Toward(w, s)| ensures !IsOpenRequired(Toward(w, s)[i]) {
      assert EndOk(w, cfg, ph, s);
      FitsNoRefusal(Toward(w, s), PatternOf(cfg, ph, s), i);
    }
    if w.server.up && w.client.up && !ph.Done? { SomethingInFlight(w, cfg, ph); }
  }

  // ---------- Where the handshake fits ----------

  ghost predicate OwnKind(k: Kind, cfg: Config) {
    match k
    case AHello => true
    case AnIdentify(seed, masks) => seed != 0 && masks == cfg.eventMasks
    case AnIdentified(sid) => FromSeed(cfg, sid)
  }

  /** What is next to be written, if it is vital, is one of the link's own messages or a part of the handshake. */
  lemma {:induction false} AwaitsCuttable(s: seq<Outbound>, k: Kind, sid: Option<string>, n: nat, cfg: Config)
    requires Awaits(s, k, sid) && n < |s| && Vital(s[n]) && GoodLocals(cfg) && HandshakeFits(cfg)
    requires OwnKind(k, cfg)
    ensures CanCut(cfg, s[n], AgreedSize(cfg))
    decreases n
  {
    hide IsBeat, IsHandshake, IsKind, CanCut, HandshakeFits, FromSeed;
    if IsKind(s[0], k) {
      if n == 0 {
        KindFits(s[0], k, cfg);
      } else {
        assert s[1..][n - 1] in s[1..];
        HarmlessCuttable(s[n], sid, cfg);
      }
    } else if n == 0 {
      HarmlessCuttable(s[0], None, cfg);
    } else {
      AwaitsCuttable(s[1..], k, sid, n - 1, cfg);
    }
  }

  lemma KindFits(m: Outbound, k: Kind, cfg: Config)
    requires IsKind(m, k) && HandshakeFits(cfg)
    requires OwnKind(k, cfg)
    ensures CanCut(cfg, m, AgreedSize(cfg))
  {
    hide CanCut, H.GenerateSid;
    match k
    case AHello =>
    case AnIdentify(seed, _) => assert SeedFits(cfg, seed);
    case AnIdentified(sid) =>
      var seed :| seed != 0 && sid == H.GenerateSid(seed, cfg.entropy);
      assert SeedFits(cfg, seed);
  }

  lemma HarmlessCuttable(m: Outbound, sid: Option<string>, cfg: Config)
    requires Harmless(m, sid) && Vital(m) && GoodLocals(cfg)
    ensures CanCut(cfg, m, AgreedSize(cfg))
  {
    hide CanCut;
    HarmlessMeans(m, sid);
    LinkMessagesCut(m, AgreedSize(cfg), cfg);
  }

  lemma FitsCuttable(t: seq<Outbound>, cfg: Config, ph: Phase, s: Side, n: nat)
    requires Fits(t, PatternOf(cfg, ph, s)) && n < |t| && Vital(t[n]) && PhaseOk(cfg, ph)
    requires GoodLocals(cfg) && HandshakeFits(cfg)
    ensures CanCut(cfg, t[n], AgreedSize(cfg))
  {
    hide Awaits, IsBeat, IsHandshake, CanCut, HandshakeFits, FromSeed, C.OpenBody, C.AcceptBody, Deal, GoodLocals, Vital;
    AgreedIsEnough(cfg);
    match PatternOf(cfg, ph, s)
    case Nothing =>
    case OneOpen(_) => NegotiationCuttable(t[0], AgreedSize(cfg), cfg, Other(s));
    case AcceptThenBeats(_) =>
      if n == 0 { NegotiationCuttable(t[0], AgreedSize(cfg), cfg, s); }
      else { assert t[1..][n - 1] in t[1..]; HarmlessCuttable(t[n], None, cfg); }
    case AcceptThenHello(_) =>
      if n == 0 { NegotiationCuttable(t[0], AgreedSize(cfg), cfg, s); }
      else { AwaitsCuttable(t[1..], AHello, None, n - 1, cfg); }
    case Await(k, sid) => AwaitsCuttable(t, k, sid, n, cfg);
    case Free(sid) => assert t[n] in t; HarmlessCuttable(t[n], sid, cfg);
  }

  lemma AgreedIsEnough(cfg: Config)
    requires GoodLocals(cfg)
    ensures C.MIN_FRAME_SIZE <= AgreedSize(cfg)
  {}

  lemma NegotiationCuttable(m: Outbound, cap: nat, cfg: Config, s: Side)
    requires m == AcceptOf(Deal(cfg)) || m == ControlBody(C.OpenBody(1, LocalOf(cfg, s)))
    requires GoodLocals(cfg) && C.MIN_FRAME_SIZE <= cap
    ensures CanCut(cfg, m, cap)
  {
    hide C.OpenBody, C.AcceptBody;
    C.NegotiationSizes(1, LocalOf(cfg, s), Deal(cfg).maxFrameSize, Deal(cfg).heartbeatIntervalMs);
  }

  /** When the handshake fits, every write is safe. */
  lemma CompliantWrites(w: World, cfg: Config, ph: Phase, a: Act)
    requires AllOk(w, cfg, ph) && Compliant(cfg) && Enabled(w, a)
    ensures SafeWrite(w, cfg, a)
  {
    hide Base, AtStage, Fits, PatternOf, StageOf, UpOf, MuteOf, Toward, PhaseOk, Vital, HandshakeFits, Faithful, Sized, CanCut, Deal;
    if a.Flush? {
      var e := Get(w, a.side);
      var o := Other(a.side);
      var p := Cut(e.core, a.atOnce);
      NextUnwritten(w, a.side);
      if !cfg.framed {
        UnframedCuts(cfg, p);
      } else if Vital(p.msg) {
        FitsCuttable(Toward(w, o), cfg, ph, o, |Get(w, o).incoming|);
        assert e.core.outbox[0] in e.core.outbox;
        SizedCuts(p, cfg, o);
      }
    }
  }

  lemma UnframedCuts(cfg: Config, p: Packet)
    requires !cfg.framed
    ensures CanCut(cfg, p.msg, p.cap)
  {}

  lemma SizedCuts(p: Packet, cfg: Config, to: Side)
    requires Sized(p.msg, p.cap, cfg, to) && CanCut(cfg, p.msg, AgreedSize(cfg))
    ensures CanCut(cfg, p.msg, p.cap)
  {
    hide Deal, CanCut;
    if p.cap != AgreedSize(cfg) { NegotiationIsControl(p.msg); LinkMessagesCut(p.msg, p.cap, cfg); }
  }
}
