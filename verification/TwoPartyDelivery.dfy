/** Business between two parties arrives once and in order (src/core/core.ts, src/endpoint/endpoint.ts). */
module TwoPartyDelivery {
  import opened Bytes
  import opened Messages
  import opened Core
  import opened TwoParty
  import opened TwoPartySafety
  import opened TwoPartyRuns
  import opened PayloadCodec
  import C = ControlSession
  import ControlCodec
  import H = Handshake

  // ---------- What was said, what is under way, what was passed on ----------

  predicate IsCall(m: RpcMessage) {
    m.Request? || m.Event?
  }

  /** The business an end has said in a run. */
  function SaidBy(acts: seq<Act>, s: Side): seq<RpcMessage> {
    if acts == [] then []
    else
      var last := acts[|acts| - 1];
      SaidBy(acts[..|acts| - 1], s) + if last.Say? && last.side == s then [last.msg] else []
  }

  predicate IsData(m: Outbound) {
    m.Rpc? && (IsCall(m.msg) || m.msg.Response?)
  }

  function Data(t: seq<Outbound>): seq<RpcMessage> {
    if t == [] then [] else Data(t[..|t| - 1]) + if IsData(t[|t| - 1]) then [t[|t| - 1].msg] else []
  }

  /** A message as its reader decodes it. */
  function Decoded(codec: Codec, m: RpcMessage): RpcMessage {
    if codec.decodeRpc(codec.encodeRpc(m)).Parsed? then codec.decodeRpc(codec.encodeRpc(m)).msg else m
  }

  /** The requests and events of a list, as they are passed on. */
  function Calls(ms: seq<RpcMessage>, codec: Codec): seq<CoreEvent> {
    if ms == [] then []
    else
      var n := |ms| - 1;
      var m := Decoded(codec, ms[n]);
      Calls(ms[..n], codec) + if ms[n].Request? then [RpcRequested(m)] else if ms[n].Event? then [RpcEventSeen(m)] else []
  }

  function Responses(ms: seq<RpcMessage>, codec: Codec): seq<RpcMessage> {
    if ms == [] then []
    else
      var n := |ms| - 1;
      Responses(ms[..n], codec) + if ms[n].Response? then [Decoded(codec, ms[n])] else []
  }

  /** The requests and events a core has passed on. */
  function CallsPassed(events: seq<CoreEvent>): seq<CoreEvent> {
    if events == [] then []
    else
      var last := events[|events| - 1];
      CallsPassed(events[..|events| - 1]) + if last.RpcRequested? || last.RpcEventSeen? then [last] else []
  }

  /** The first n messages said were passed on, and those under way are the next. If the sender can still write, nothing
      said is missing. */
  ghost predicate Ledger(w: World, cfg: Config, said: seq<RpcMessage>, o: Side, n: nat) {
    var c := Get(w, o).core;
    var under := Data(Toward(w, o));
    && n + |under| <= |said| && said[n..n + |under|] == under
    && (!Get(w, Other(o)).mute ==> n + |under| == |said|)
    && CallsPassed(c.events) == Calls(said[..n], cfg.codec)
    && c.responses == Responses(said[..n], cfg.codec)
  }

  // ---------- Lists ----------

  lemma {:induction false} DataAppend(s: seq<Outbound>, t: seq<Outbound>)
    ensures Data(s + t) == Data(s) + Data(t)
    decreases |t|
  {
    if t == [] {
      assert s + t == s;
    } else {
      var n := |t| - 1;
      assert (s + t)[..|s + t| - 1] == s + t[..n];
      DataAppend(s, t[..n]);
    }
  }

  lemma DataOne(m: Outbound)
    ensures Data([m]) == if IsData(m) then [m.msg] else []
  {
    assert [m][..0] == [] && Data([]) == [];
  }

  lemma DataHead(t: seq<Outbound>)
    requires t != []
    ensures Data(t) == (if IsData(t[0]) then [t[0].msg] else []) + Data(t[1..])
  {
    assert t == [t[0]] + t[1..];
    DataAppend([t[0]], t[1..]);
    DataOne(t[0]);
  }

  lemma CallsPassedSnoc(events: seq<CoreEvent>, e: CoreEvent)
    ensures CallsPassed(events + [e]) == CallsPassed(events) + if e.RpcRequested? || e.RpcEventSeen? then [e] else []
  {
    assert (events + [e])[..|events|] == events;
  }

  lemma CallsSnoc(ms: seq<RpcMessage>, m: RpcMessage, codec: Codec)
    ensures Calls(ms + [m], codec) == Calls(ms, codec) +
      if m.Request? then [RpcRequested(Decoded(codec, m))] else if m.Event? then [RpcEventSeen(Decoded(codec, m))] else []
    ensures Responses(ms + [m], codec) == Responses(ms, codec) + if m.Response? then [Decoded(codec, m)] else []
  {
    assert (ms + [m])[..|ms|] == ms;
  }

  // ---------- What a core does with one message ----------

  /** A step of a core that passes nothing on and sends no business. */
  ghost predicate Silent(c: Core, c': Core) {
    && CallsPassed(c'.events) == CallsPassed(c.events) && c'.responses == c.responses
    && exists extra :: c'.outbox == c.outbox + extra && NoData(extra)
  }

  ghost predicate NoData(extra: seq<Sent>) {
    forall i :: 0 <= i < |extra| ==> !IsData(extra[i].msg)
  }

  lemma SilentTwice(a: Core, b: Core, c: Core)
    requires Silent(a, b) && Silent(b, c)
    ensures Silent(a, c)
  {
    hide CallsPassed, IsData;
    var x :| b.outbox == a.outbox + x && NoData(x);
    var y :| c.outbox == b.outbox + y && NoData(y);
    assert c.outbox == a.outbox + (x + y);
    assert NoData(x + y);
  }

  lemma SilentSame(c: Core, c': Core)
    requires c'.events == c.events && c'.responses == c.responses && c'.outbox == c.outbox
    ensures Silent(c, c')
  {
    assert c'.outbox == c.outbox + [] && NoData([]);
  }

  lemma EmitSilent(c: Core, e: CoreEvent)
    requires !e.RpcRequested? && !e.RpcEventSeen?
    ensures Silent(c, Emit(c, e))
  {
    CallsPassedSnoc(c.events, e);
    assert CallsPassed(c.events) + [] == CallsPassed(c.events);
    assert Emit(c, e).outbox == c.outbox + [] && NoData([]);
  }

  lemma SendSilent(c: Core, m: Outbound)
    requires !IsData(m)
    ensures Silent(c, Send(c, m))
  {
    assert NoData([Sent(m, c.maxFrameSize)]);
  }

  lemma LinkSilent(c: Core, maxFrameSize: Option<nat>, heartbeatIntervalMs: nat)
    ensures Silent(c, LinkBecameReady(c, maxFrameSize, heartbeatIntervalMs))
  {
    hide Silent, IsData;
    SilentSame(c, c);
    if c.gate == LinkConnected {
      var c1 := c.(maxFrameSize := C.Or(maxFrameSize, c.maxFrameSize), gate := FramingReady, hs := H.OnLinkReady(c.hs));
      SilentSame(c, c1);
      var c2 := if c.hs.logicalServer then Send(c1, Rpc(Hello(""))) else c1;
      if c.hs.logicalServer {
        HelloIsNoData();
        SendSilent(c1, Rpc(Hello("")));
        SilentTwice(c, c1, c2);
      }
      EmitSilent(c2, LinkReady(heartbeatIntervalMs));
      SilentTwice(c, c2, Emit(c2, LinkReady(heartbeatIntervalMs)));
    }
  }

  lemma HelloIsNoData()
    ensures !IsData(Rpc(Hello("")))
    ensures forall body :: !IsData(ControlBody(body))
  {}

  lemma ActionSilent(c: Core, a: C.Action)
    ensures Silent(c, RunAction(c, a))
  {
    hide Silent, LinkBecameReady, IsData;
    HelloIsNoData();
    match a
    case SendBytes(body) => SendSilent(c, ControlBody(body));
    case LinkIsReady(n) => LinkSilent(c, Some(n.maxFrameSize), n.heartbeatIntervalMs);
    case OpenRejected(statusCode) => EmitSilent(c, LinkOpenRejected(statusCode));
    case PeerHeartbeat(id) => SendSilent(c, ControlBody(C.Plain(ControlCodec.HEARTBEAT_ACK, id, SUCCESS)));
    case PeerHeartbeatAck(_) => EmitSilent(c, HeartbeatAckSeen);
    case PeerClosing(_) => EmitSilent(c, LinkClosing);
    case DecodeFailed(code) => EmitSilent(c, Failed(code));
  }

  lemma {:induction false} ActionsSilent(c: Core, actions: seq<C.Action>)
    ensures Silent(c, RunActions(c, actions))
    decreases |actions|
  {
    hide Silent, RunAction;
    if actions == [] {
      SilentSame(c, c);
    } else {
      ActionSilent(c, actions[0]);
      ActionsSilent(RunAction(c, actions[0]), actions[1..]);
      SilentTwice(c, RunAction(c, actions[0]), RunActions(c, actions));
    }
  }

  lemma HandshakeSilent(c: Core, msg: RpcMessage, random: bv32)
    ensures var (hs, r) := H.Handle(c.hs, msg, random); Silent(c, ApplyHandshake(c, hs, r))
  {
    hide Silent, IsData, H.Handle;
    var (hs, r) := H.Handle(c.hs, msg, random);
    var c1 := c.(hs := hs);
    SilentSame(c, c1);
    var c2 := if r.outbound.Some? then Send(c1, Rpc(r.outbound.value)) else c1;
    if r.outbound.Some? {
      ReplyIsNoData(c.hs, msg, random);
      SendSilent(c1, Rpc(r.outbound.value));
      SilentTwice(c, c1, c2);
    }
    var c3 := if r.becameReady then Emit(c2.(gate := AppReady), HandshakeReady(hs.sid)) else c2;
    if r.becameReady {
      SilentSame(c2, c2.(gate := AppReady));
      SilentTwice(c, c2, c2.(gate := AppReady));
      EmitSilent(c2.(gate := AppReady), HandshakeReady(hs.sid));
      SilentTwice(c, c2.(gate := AppReady), c3);
    }
    if r.error.Some? {
      EmitSilent(c3, HandshakeError(r.error.value));
      SilentTwice(c, c3, Emit(c3, HandshakeError(r.error.value)));
    }
  }

  lemma ReplyIsNoData(hs: H.State, msg: RpcMessage, random: bv32)
    ensures var r := H.Handle(hs, msg, random).1; r.outbound.Some? ==> !IsData(Rpc(r.outbound.value))
  {
    hide H.GenerateSid;
  }

  /** Reading anything but business. */
  lemma ReadSilent(c: Core, m: Outbound, codec: Codec, random: bv32)
    requires !IsData(m) && Faithful(codec)
    ensures Silent(c, Read(c, m, codec, random))
  {
    hide Silent, ApplyHandshake, H.Handle, C.HandleBody, RunActions, Faithful;
    match m
    case ControlBody(body) =>
      SilentSame(c, c);
      if c.control.Some? {
        var (s, actions) := C.HandleBody(c.control.value, body);
        SilentSame(c, c.(control := Some(s)));
        ActionsSilent(c.(control := Some(s)), actions);
        SilentTwice(c, c.(control := Some(s)), RunActions(c.(control := Some(s)), actions));
      }
    case Rpc(msg) =>
      FaithfulFor(codec, msg);
      var read := codec.decodeRpc(codec.encodeRpc(msg)).msg;
      HandshakeSilent(c, read, random);
      SilentSame(c, c);
      EmitSilent(c, Failed(RPC_PAYLOAD_INVALID));
  }

  /** Reading business under the session: it is passed on, and nothing is sent. */
  lemma ReadPasses(c: Core, m: Outbound, codec: Codec, random: bv32)
    requires c.gate == AppReady && m.Rpc? && IsBusiness(m.msg, c.hs.sid) && Faithful(codec)
    ensures var c' := Read(c, m, codec, random); var d := Decoded(codec, m.msg);
      && CallsPassed(c'.events) == CallsPassed(c.events) +
           (if m.msg.Request? then [RpcRequested(d)] else if m.msg.Event? then [RpcEventSeen(d)] else [])
      && c'.responses == c.responses + (if m.msg.Response? then [d] else [])
      && c'.outbox == c.outbox
  {
    hide Faithful;
    FaithfulFor(codec, m.msg);
    var d := Decoded(codec, m.msg);
    CallsPassedSnoc(c.events, RpcRequested(d));
    CallsPassedSnoc(c.events, RpcEventSeen(d));
    assert CallsPassed(c.events) + [] == CallsPassed(c.events) && c.responses + [] == c.responses;
  }

  // ---------- Every act keeps the ledger ----------

  lemma NoDataUnder(extra: seq<Sent>)
    requires NoData(extra)
    ensures Data(Traffic([], extra)) == []
    decreases |extra|
  {
    if extra == [] {
      assert Traffic([], extra) == [];
    } else {
      var n := |extra| - 1;
      NoDataUnder(extra[..n]);
      assert Traffic([], extra)[..n] == Traffic([], extra[..n]);
    }
  }

  /** The sender does something that says nothing. */
  lemma SilentSender(w: World, cfg: Config, said: seq<RpcMessage>, o: Side, n: nat, e': End)
    requires Ledger(w, cfg, said, o, n) && Silent(Get(w, Other(o)).core, e'.core) && e'.mute == Get(w, Other(o)).mute
    ensures Ledger(Set(w, Other(o), e'), cfg, said, o, n)
  {
    hide Toward, Calls, Responses, CallsPassed, IsData, Data, Traffic;
    var e := Get(w, Other(o));
    var extra :| e'.core.outbox == e.core.outbox + extra && NoData(extra);
    TowardGrows(w, Other(o), e', extra);
    NoDataUnder(extra);
    DataAppend(Toward(w, o), Joins(e, extra));
    EmptyData();
    assert Data(Toward(w, o)) + [] == Data(Toward(w, o));
  }

  lemma EmptyData()
    ensures Data([]) == []
  {}

  /** The reader does something that passes nothing on, and nothing is missing from its channel. */
  lemma SilentReader(w: World, cfg: Config, said: seq<RpcMessage>, o: Side, n: nat, e': End)
    requires Ledger(w, cfg, said, o, n) && Silent(Get(w, o).core, e'.core)
    requires Data(Traffic(e'.incoming, Unwritten(Get(w, Other(o))))) == Data(Toward(w, o))
    ensures Ledger(Set(w, o, e'), cfg, said, o, n)
  {
    hide Calls, Responses, CallsPassed, Data, Traffic;
  }

  lemma StartSilent(c: Core)
    ensures Silent(c, StartCore(c))
  {
    hide Silent, LinkBecameReady, C.SendOpen, RunActions;
    SilentSame(c, c);
    LinkSilent(c, None, c.heartbeatIntervalMs);
    if c.control.Some? {
      var (s, actions) := C.SendOpen(c.control.value);
      SilentSame(c, c.(control := Some(s)));
      ActionsSilent(c.(control := Some(s)), actions);
      SilentTwice(c, c.(control := Some(s)), RunActions(c.(control := Some(s)), actions));
    }
  }

  lemma BeatSilent(c: Core)
    ensures Silent(c, SendHeartbeat(c))
  {
    hide Silent, IsData, C.Plain;
    SilentSame(c, c);
    if c.control.Some? {
      var (s, id) := C.AllocId(c.control.value);
      HelloIsNoData();
      SilentSame(c, c.(control := Some(s)));
      SendSilent(c.(control := Some(s)), ControlBody(C.Plain(ControlCodec.HEARTBEAT, id, SUCCESS)));
      SilentTwice(c, c.(control := Some(s)), SendHeartbeat(c));
    }
  }

  lemma SideOrOther(s: Side, o: Side)
    ensures s == o || s == Other(o)
  {}

  /** An act on an end's own core that says and passes on nothing. */
  lemma QuietLedger(w: World, cfg: Config, said: seq<RpcMessage>, o: Side, n: nat, s: Side, e': End)
    requires Ledger(w, cfg, said, o, n) && Silent(Get(w, s).core, e'.core)
    requires e'.mute == Get(w, s).mute && e'.incoming == Get(w, s).incoming
    ensures Ledger(Set(w, s, e'), cfg, said, o, n)
  {
    hide Ledger, Silent;
    SideOrOther(s, o);
    ToLine(w, o);
    if s == o { SilentReader(w, cfg, said, o, n, e'); } else { SilentSender(w, cfg, said, o, n, e'); }
  }

  lemma FlushLedger(w: World, cfg: Config, said: seq<RpcMessage>, o: Side, n: nat, s: Side, atOnce: bool)
    requires Ledger(w, cfg, said, o, n) && Enabled(w, Flush(s, atOnce))
    ensures Ledger(Next(w, cfg, Flush(s, atOnce)), cfg, said, o, n)
  {
    hide Toward, Calls, Responses, CallsPassed, Data, CanCut, Cut, Next, Traffic;
    SideOrOther(s, o);
    var p := Cut(Get(w, s).core, atOnce);
    if CanCut(cfg, p.msg, p.cap) {
      FlushEffect(w, cfg, s, atOnce);
    } else {
      MuteEffect(w, cfg, s, atOnce);
      if s == Other(o) {
        LostTail(w, o);
        var kept := Data(Traffic(Get(w, o).incoming, []));
        var rest :| Data(Toward(w, o)) == kept + rest;
        SaidLess(said, n, kept, rest);
      }
    }
  }

  lemma SaidLess(said: seq<RpcMessage>, n: nat, kept: seq<RpcMessage>, rest: seq<RpcMessage>)
    requires n + |kept + rest| <= |said| && said[n..n + |kept + rest|] == kept + rest
    ensures said[n..n + |kept|] == kept
  {
    assert said[n..n + |kept|] == said[n..n + |kept + rest|][..|kept|];
  }

  lemma SaidNext(said: seq<RpcMessage>, n: nat, m: RpcMessage, rest: seq<RpcMessage>)
    requires n + |rest| + 1 <= |said| && said[n..n + |rest| + 1] == [m] + rest
    ensures said[n] == m && said[..n + 1] == said[..n] + [m] && said[n + 1..n + 1 + |rest|] == rest
  {
    assert said[n] == said[n..n + |rest| + 1][0];
    assert said[n + 1..n + 1 + |rest|] == said[n..n + |rest| + 1][1..];
  }

  /** What an end has not written yet comes last. */
  lemma LostTail(w: World, o: Side)
    ensures exists rest :: Data(Toward(w, o)) == Data(Traffic(Get(w, o).incoming, [])) + rest
  {
    var e := Get(w, o);
    TrafficSend(e.incoming, [], Unwritten(Get(w, Other(o))));
    assert [] + Unwritten(Get(w, Other(o))) == Unwritten(Get(w, Other(o)));
    DataAppend(Traffic(e.incoming, []), Traffic([], Unwritten(Get(w, Other(o)))));
  }

  lemma SayLedger(w: World, cfg: Config, said: seq<RpcMessage>, o: Side, n: nat, s: Side, msg: RpcMessage)
    requires Ledger(w, cfg, said, o, n) && Enabled(w, Say(s, msg))
    ensures Ledger(Next(w, cfg, Say(s, msg)), cfg, if s == Other(o) then said + [msg] else said, o, n)
  {
    hide Toward, Calls, Responses, CallsPassed, Data, Traffic;
    var e := Get(w, s);
    var e' := e.(core := Send(e.core, Rpc(msg)));
    var extra := [Sent(Rpc(msg), e.core.maxFrameSize)];
    SideOrOther(s, o);
    TowardGrows(w, s, e', extra);
    ToLine(w, o);
    if s == Other(o) {
      OneTraffic(Rpc(msg), e.core.maxFrameSize);
      DataAppend(Toward(w, o), Joins(e, extra));
      DataOne(Rpc(msg));
      EmptyData();
      assert Data(Toward(w, o)) + [] == Data(Toward(w, o));
      SaidMore(said, msg, n, Data(Toward(w, o)));
    }
  }

  lemma SaidMore(said: seq<RpcMessage>, msg: RpcMessage, n: nat, under: seq<RpcMessage>)
    requires n + |under| <= |said| && said[n..n + |under|] == under
    ensures (said + [msg])[n..n + |under|] == under && (said + [msg])[..n] == said[..n]
    ensures n + |under| == |said| ==> (said + [msg])[n..n + |under| + 1] == under + [msg]
  {}

  /** Business that waits at its reader finds the session up. */
  lemma DataFindsSession(w: World, cfg: Config, ph: Phase, s: Side, random: bv32)
    requires AllOk(w, cfg, ph) && Enabled(w, Deliver(s, random)) && IsData(Get(w, s).incoming[0].msg)
    ensures var c := Get(w, s).core; c.gate == AppReady && IsBusiness(Get(w, s).incoming[0].msg.msg, c.hs.sid)
  {
    hide Base, AtStage, Fits, SizesOk, Toward, Deal, IsBusiness, UpOf, MuteOf, Traffic;
    var e := Get(w, s);
    var m := e.incoming[0].msg;
    var stage := StageOf(cfg, ph, s, e.up);
    HeadOf(w, cfg, ph, s, random);
    DataIsNoHandshake(m);
    if (stage.Linked? || stage.Session?) && Harmless(m, SidOf(stage)) {
      HarmlessMeans(m, SidOf(stage));
      LinkedLimit(e.core, cfg, s, stage);
    } else {
      var p := PatternOf(cfg, ph, s);
      if p.Await? && IsKind(m, p.kind) { KindIsRpc(m, p.kind); } else { FirstIsNegotiation(w, cfg, ph, s); }
    }
  }

  lemma DataIsNoHandshake(m: Outbound)
    requires IsData(m)
    ensures !IsHandshake(m) && !IsBeat(m) && !IsNegotiation(m)
  {}

  /** The link's negotiation is no business. */
  lemma FirstIsNegotiation(w: World, cfg: Config, ph: Phase, s: Side)
    requires AllOk(w, cfg, ph) && Get(w, s).incoming != []
    requires (ph == OpenSent && !Opens(cfg, s)) || (ph == Accepted && Opens(cfg, s))
    ensures Get(w, s).incoming[0].msg.ControlBody?
  {
    hide Base, AtStage, SizesOk, Traffic, C.OpenBody, C.AcceptBody, Deal;
    TrafficRead(Get(w, s).incoming, Unwritten(Get(w, Other(s))));
  }

  lemma DeliverSame(w: World, cfg: Config, s: Side, random: bv32)
    requires Enabled(w, Deliver(s, random)) && Passes(Get(w, s).core, Get(w, s).incoming[0], cfg.codec)
    ensures var e := Get(w, s);
      Next(w, cfg, Deliver(s, random)) == Set(w, s, e.(core := Read(e.core, e.incoming[0].msg, cfg.codec, random), incoming := e.incoming[1..]))
  {
    hide Passes, Read;
  }

  /** Whatever waits at the head of a channel is admitted by its reader. */
  lemma HeadAdmitted(w: World, cfg: Config, ph: Phase, s: Side, random: bv32)
    requires AllOk(w, cfg, ph) && Enabled(w, Deliver(s, random))
    ensures Passes(Get(w, s).core, Get(w, s).incoming[0], cfg.codec)
  {
    hide Base, AtStage, Fits, SizesOk, Toward, Deal, UpOf, MuteOf, Traffic, Passes, IsNegotiation, IsHandshake, Harmless, IsKind;
    HeadOf(w, cfg, ph, s, random);
    var m := Get(w, s).incoming[0].msg;
    var p := PatternOf(cfg, ph, s);
    var stage := StageOf(cfg, ph, s, Get(w, s).up);
    if p.Await? && IsKind(m, p.kind) { KindIsRpc(m, p.kind); }
    else if Harmless(m, SidOf(stage)) { HarmlessMeans(m, SidOf(stage)); }
    HeadPasses(w, cfg, ph, s);
  }

  lemma DeliverLedger(w: World, cfg: Config, ph: Phase, said: seq<RpcMessage>, o: Side, n: nat, s: Side, random: bv32) returns (n': nat)
    requires Ledger(w, cfg, said, o, n) && AllOk(w, cfg, ph) && Enabled(w, Deliver(s, random)) && Faithful(cfg.codec)
    ensures Ledger(Next(w, cfg, Deliver(s, random)), cfg, said, o, n')
  {
    hide AllOk, Toward, Calls, Responses, CallsPassed, Data, Traffic, Read, Passes, Next, IsData, IsBusiness, Faithful, Silent, Ledger;
    var e := Get(w, s);
    var m := e.incoming[0].msg;
    HeadAdmitted(w, cfg, ph, s, random);
    DeliverSame(w, cfg, s, random);
    SideOrOther(s, o);
    ToLine(w, o);
    var e' := e.(core := Read(e.core, m, cfg.codec, random), incoming := e.incoming[1..]);
    n' := n;
    if IsData(m) {
      DataFindsSession(w, cfg, ph, s, random);
      assert m.Rpc? by { DataIsRpc(m); }
      ReadPasses(e.core, m, cfg.codec, random);
      if s == o {
        n' := n + 1;
        PassedLedger(w, cfg, said, o, n, e');
      } else {
        UnsaidSender(w, cfg, said, o, n, e');
      }
    } else {
      ReadSilent(e.core, m, cfg.codec, random);
      if s == o {
        TrafficRead(e.incoming, Unwritten(Get(w, Other(o))));
        DataHead(Toward(w, o));
        assert [] + Data(Toward(w, o)[1..]) == Data(Toward(w, o)[1..]);
        SilentReader(w, cfg, said, o, n, e');
      } else {
        SilentSender(w, cfg, said, o, n, e');
      }
    }
  }

  lemma DataIsRpc(m: Outbound)
    requires IsData(m)
    ensures m.Rpc?
  {}

  /** The sender reads business itself: what it says does not change. */
  lemma UnsaidSender(w: World, cfg: Config, said: seq<RpcMessage>, o: Side, n: nat, e': End)
    requires Ledger(w, cfg, said, o, n) && e'.core.outbox == Get(w, Other(o)).core.outbox && e'.mute == Get(w, Other(o)).mute
    ensures Ledger(Set(w, Other(o), e'), cfg, said, o, n)
  {
    hide Calls, Responses, CallsPassed, Data, Traffic;
  }

  /** The reader reads the next message said. */
  lemma PassedLedger(w: World, cfg: Config, said: seq<RpcMessage>, o: Side, n: nat, e': End)
    requires Ledger(w, cfg, said, o, n) && Get(w, o).incoming != [] && IsData(Get(w, o).incoming[0].msg)
    requires e'.incoming == Get(w, o).incoming[1..]
    requires var c := Get(w, o).core; var m := Get(w, o).incoming[0].msg.msg; var d := Decoded(cfg.codec, m);
      && CallsPassed(e'.core.events) == CallsPassed(c.events) +
           (if m.Request? then [RpcRequested(d)] else if m.Event? then [RpcEventSeen(d)] else [])
      && e'.core.responses == c.responses + (if m.Response? then [d] else [])
    ensures Ledger(Set(w, o, e'), cfg, said, o, n + 1)
  {
    hide Calls, Responses, CallsPassed, Data, Traffic;
    var t := Toward(w, o);
    var m := Get(w, o).incoming[0].msg.msg;
    TrafficRead(Get(w, o).incoming, Unwritten(Get(w, Other(o))));
    DataHead(t);
    SaidNext(said, n, m, Data(t[1..]));
    CallsSnoc(said[..n], m, cfg.codec);
  }

  function SaidNow(a: Act, s: Side): seq<RpcMessage> {
    if a.Say? && a.side == s then [a.msg] else []
  }

  lemma ActLedger(w: World, cfg: Config, ph: Phase, said: seq<RpcMessage>, o: Side, n: nat, a: Act) returns (n': nat)
    requires Ledger(w, cfg, said, o, n) && AllOk(w, cfg, ph) && Enabled(w, a) && Faithful(cfg.codec)
    ensures Ledger(Next(w, cfg, a), cfg, said + SaidNow(a, Other(o)), o, n')
  {
    hide Ledger, AllOk, Silent, Faithful, StartCore, SendHeartbeat;
    assert said + [] == said;
    n' := n;
    match a
    case Start(s) =>
      StartSilent(Get(w, s).core);
      QuietLedger(w, cfg, said, o, n, s, Get(w, s).(up := true, core := StartCore(Get(w, s).core)));
    case Flush(s, atOnce) => FlushLedger(w, cfg, said, o, n, s, atOnce);
    case Deliver(s, random) => n' := DeliverLedger(w, cfg, ph, said, o, n, s, random);
    case Beat(s) =>
      BeatSilent(Get(w, s).core);
      QuietLedger(w, cfg, said, o, n, s, Get(w, s).(core := SendHeartbeat(Get(w, s).core)));
    case Say(s, msg) => SayLedger(w, cfg, said, o, n, s, msg);
  }

  lemma {:induction false} SaidAppend(acts: seq<Act>, more: seq<Act>, s: Side)
    ensures SaidBy(acts + more, s) == SaidBy(acts, s) + SaidBy(more, s)
    decreases |more|
  {
    if more == [] {
      assert acts + more == acts;
    } else {
      var n := |more| - 1;
      assert (acts + more)[..|acts + more| - 1] == acts + more[..n];
      SaidAppend(acts, more[..n], s);
    }
  }

  lemma SaidOne(a: Act, s: Side)
    ensures SaidBy([a], s) == SaidNow(a, s)
  {
    assert [a][..0] == [] && SaidBy([], s) == [];
  }

  lemma {:induction false} RunLedger(w: World, cfg: Config, ph: Phase, said: seq<RpcMessage>, o: Side, n: nat, acts: seq<Act>) returns (n': nat)
    requires Ledger(w, cfg, said, o, n) && AllOk(w, cfg, ph) && Compliant(cfg) && IsRun(w, cfg, acts)
    ensures Ledger(After(w, cfg, acts), cfg, said + SaidBy(acts, Other(o)), o, n')
    decreases |acts|
  {
    hide Ledger, AllOk, Compliant, Agreeable, Next, Enabled, SafeWrite, Advance, NextPhase, SaidNow;
    if acts == [] {
      n' := n;
      assert said + SaidBy([], Other(o)) == said;
    } else {
      var a := acts[0];
      CompliantIsAgreeable(cfg);
      AgreeableCodec(cfg);
      CompliantWrites(w, cfg, ph, a);
      var n1 := ActLedger(w, cfg, ph, said, o, n, a);
      var ph1 := NextKeeps(w, cfg, ph, a);
      n' := RunLedger(Next(w, cfg, a), cfg, ph1, said + SaidNow(a, Other(o)), o, n1, acts[1..]);
      assert acts == [a] + acts[1..];
      SaidAppend([a], acts[1..], Other(o));
      SaidOne(a, Other(o));
      JoinSaid(said, SaidNow(a, Other(o)), SaidBy(acts[1..], Other(o)));
    }
  }

  lemma JoinSaid(a: seq<RpcMessage>, b: seq<RpcMessage>, c: seq<RpcMessage>)
    ensures a + b + c == a + (b + c)
  {}

  lemma NothingSaid(w: World, cfg: Config, o: Side)
    requires IsInitial(w, cfg)
    ensures Ledger(w, cfg, [], o, 0)
  {}

  /** Business arrives: over any run of two compliant ends, in each direction, the requests and events that the reader has
      passed on, and the responses it has handed over, are the first so many messages said, each once, in the order in
      which they were said and as its codec decodes them; those still on their way are the next ones; and as long as
      the sender's outbound stream has not failed these are all that was said. */
  lemma BusinessArrives(w: World, cfg: Config, acts: seq<Act>, o: Side) returns (n: nat)
    requires IsInitial(w, cfg) && Compliant(cfg) && IsRun(w, cfg, acts)
    ensures Ledger(After(w, cfg, acts), cfg, SaidBy(acts, Other(o)), o, n)
  {
    hide Ledger, AllOk, Compliant, IsInitial;
    InitialOk(w, cfg);
    NothingSaid(w, cfg, o);
    n := RunLedger(w, cfg, Idle, [], o, 0, acts);
    assert [] + SaidBy(acts, Other(o)) == SaidBy(acts, Other(o));
  }
}
