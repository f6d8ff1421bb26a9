/** Everything a core says and sends for one input, across control session, handshake and gate (src/core/core.ts,
    src/core/controlSession.ts, src/core/handshake.ts, src/core/runtimeGate.ts). */
module CoreOutcomes {
  import opened Bytes
  import opened Messages
  import opened Core
  import opened ControlOutcomes
  import C = ControlSession
  import H = Handshake
  import Hex
  import ControlCodec

  // ---------- Terms ----------

  /** An interval in milliseconds, between half a second and a minute. */
  function Interval(ms: nat): nat {
    if ms < 500 then 500 else if ms > 60000 then 60000 else ms
  }

  function Smaller(a: nat, b: nat): nat {
    if a < b then a else b
  }

  function Given(v: Option<nat>, otherwise: nat): nat {
    if v.Some? then v.value else otherwise
  }

  /** The terms on which a core's link comes up when it reads a body, if it does. */
  function TermsOf(c: Core, body: seq<byte>): Option<(nat, nat)> {
    if c.control == None then None
    else
      var s := c.control.value;
      var p := ControlCodec.Decode(body);
      if p == None then None
      else if p.value.opcode == 0x01 && s.physicalServer && s.link != C.Closed && s.link != C.LinkClosingState
              && !Unacceptable(p.value.tlv) then
        Some((Smaller(s.local.maxFrameSize, p.value.tlv.maxFrameSize.value), Interval(p.value.tlv.heartbeatIntervalMs.value)))
      else if p.value.opcode == 0x02 && !s.physicalServer && s.pendingOpenId == Some(p.value.controlId) && p.value.statusCode == 0 then
        Some((Given(p.value.tlv.maxFrameSize, s.local.maxFrameSize), Given(p.value.tlv.heartbeatIntervalMs, s.local.heartbeatIntervalMs)))
      else None
  }

  /** The id a server makes of a seed. */
  function SidOf(c: Core, randomSeed: bv32): string {
    Hex.Fixed(if randomSeed == c.hs.entropy then 1 else (randomSeed ^ c.hs.entropy) as int, 8)
  }

  predicate IsZeroSid(sid: string) {
    sid == "" || sid == "00000000"
  }

  // ---------- What is reported ----------

  function LinkReport(c: Core, terms: Option<(nat, nat)>): seq<CoreEvent> {
    if terms.Some? && c.gate == LinkConnected then [LinkReady(terms.value.1)] else []
  }

  function ControlReport(c: Core, body: seq<byte>): seq<CoreEvent> {
    if c.control == None then []
    else
      var p := ControlCodec.Decode(body);
      if p == None then [Failed(0x22)]
      else if p.value.opcode == 0x05 then [HeartbeatAckSeen]
      else if p.value.opcode == 0x0A then [LinkClosing]
      else if p.value.opcode == 0x02 && !c.control.value.physicalServer && c.control.value.pendingOpenId == Some(p.value.controlId)
              && p.value.statusCode != 0 then [LinkOpenRejected(p.value.statusCode)]
      else LinkReport(c, TermsOf(c, body))
  }

  function RpcReport(c: Core, msg: RpcMessage): seq<CoreEvent> {
    match msg
    case Hello(_) => []
    case Identify(_, randomSeed, _) => if c.hs.logicalServer then [HandshakeReady(SidOf(c, randomSeed))] else []
    case Identified(sid) =>
      if c.hs.logicalServer then [] else if IsZeroSid(sid) then [HandshakeError(0x33)] else [HandshakeReady(sid)]
    case _ =>
      if c.gate != AppReady then []
      else if msg.sid != c.hs.sid then [Failed(0x33)]
      else if msg.Request? then [RpcRequested(msg)]
      else if msg.Event? then [RpcEventSeen(msg)]
      else []
  }

  function Report(c: Core, i: Input): seq<CoreEvent> {
    match i
    case ControlIn(body) => ControlReport(c, body)
    case RpcIn(msg, _) => RpcReport(c, msg)
    case StreamIn(streamId, data) => if c.gate == AppReady then [StreamData(streamId, data)] else []
    case FrameError(code) => [Failed(code)]
    case LinkUp => if c.control == None && c.gate == LinkConnected then [LinkReady(c.heartbeatIntervalMs)] else []
    case _ => []
  }

  // ---------- What is sent ----------

  /** A server greets when its link comes up, under the new limit. */
  function Greeting(c: Core, comesUp: bool, limit: nat): seq<Sent> {
    if comesUp && c.gate == LinkConnected && c.hs.logicalServer then [Sent(Rpc(Hello("")), limit)] else []
  }

  function ControlAnswer(c: Core, body: seq<byte>): seq<Sent> {
    var p := ControlCodec.Decode(body);
    if c.control == None || p == None then []
    else
      var s := c.control.value;
      var id := p.value.controlId;
      var terms := TermsOf(c, body);
      if p.value.opcode == 0x01 then
        if !s.physicalServer || s.link == C.Closed || s.link == C.LinkClosingState then []
        else if terms == None then [Sent(ControlBody(Bare(0x02, id, 0x27)), c.maxFrameSize)]
        else [Sent(ControlBody(C.AcceptBody(id, terms.value.0, terms.value.1)), c.maxFrameSize)] + Greeting(c, true, terms.value.0)
      else if p.value.opcode == 0x02 then
        if terms == None then [] else Greeting(c, true, terms.value.0)
      else if p.value.opcode == 0x04 then [Sent(ControlBody(Bare(0x05, id, 0)), c.maxFrameSize)]
      else if p.value.opcode == 0x0A then [Sent(ControlBody(Bare(0x0B, id, 0)), c.maxFrameSize)]
      else []
  }

  function RpcAnswer(c: Core, msg: RpcMessage, random: bv32): seq<Sent> {
    match msg
    case Hello(_) =>
      if c.hs.logicalServer then []
      else [Sent(Rpc(Identify("", if random == 0 then 1 else random, c.hs.eventMasks)), c.maxFrameSize)]
    case Identify(_, randomSeed, _) =>
      if c.hs.logicalServer then [Sent(Rpc(Identified(SidOf(c, randomSeed))), c.maxFrameSize)] else []
    case Request(_, requestId, _, _) =>
      if c.gate == AppReady then [] else [Sent(Rpc(Response(c.hs.sid, requestId, 0x24, "")), c.maxFrameSize)]
    case _ => []
  }

  function Answer(c: Core, i: Input): seq<Sent> {
    match i
    case ControlIn(body) => ControlAnswer(c, body)
    case RpcIn(msg, random) => RpcAnswer(c, msg, random)
    case LinkUp => Greeting(c, c.control == None, c.maxFrameSize)
    case OpenNow =>
      if c.control == None then []
      else [Sent(ControlBody(C.OpenBody(c.control.value.nextControlId, c.control.value.local)), c.maxFrameSize)]
    case CloseNow =>
      if c.control == None then [] else [Sent(ControlBody(Bare(0x0A, c.control.value.nextControlId, 0)), c.maxFrameSize)]
    case HeartbeatNow =>
      if c.control == None then [] else [Sent(ControlBody(Bare(0x04, c.control.value.nextControlId, 0)), c.maxFrameSize)]
    case SendNow(msg) => [Sent(Rpc(msg), c.maxFrameSize)]
    case _ => []
  }

  // ---------- What becomes of the core ----------

  /** The gate opens one step when the link comes up, and to the end when the handshake succeeds. */
  function GateAfter(c: Core, i: Input): GateState {
    match i
    case ControlIn(body) => if c.gate == LinkConnected && TermsOf(c, body).Some? then FramingReady else c.gate
    case LinkUp => if c.gate == LinkConnected && c.control == None then FramingReady else c.gate
    case RpcIn(msg, _) =>
      if msg.Identify? && c.hs.logicalServer then AppReady
      else if msg.Identified? && !c.hs.logicalServer && !IsZeroSid(msg.sid) then AppReady
      else c.gate
    case _ => c.gate
  }

  function LimitAfter(c: Core, i: Input): nat {
    if i.ControlIn? && c.gate == LinkConnected && TermsOf(c, i.body).Some? then TermsOf(c, i.body).value.0 else c.maxFrameSize
  }

  function SidAfter(c: Core, i: Input): string {
    if i.RpcIn? && i.msg.Identify? && c.hs.logicalServer then SidOf(c, i.msg.randomSeed)
    else if i.RpcIn? && i.msg.Identified? && !c.hs.logicalServer && !IsZeroSid(i.msg.sid) then i.msg.sid
    else c.hs.sid
  }

  function MasksAfter(c: Core, i: Input): Option<string> {
    if i.RpcIn? && i.msg.Identify? && c.hs.logicalServer then i.msg.eventMasks else c.hs.eventMasks
  }

  /** The link's state after a body. */
  function LinkAfter(c: Core, s: C.State, body: seq<byte>): C.State {
    var p := ControlCodec.Decode(body);
    if p == None then s
    else
      var id, terms := p.value.controlId, TermsOf(c, body);
      if p.value.opcode == 0x01 then
        if terms == None then s
        else s.(link := C.Open, negotiated := Some(C.Negotiated(terms.value.0, terms.value.1, 1, true)))
      else if p.value.opcode == 0x02 then
        if s.physicalServer || s.pendingOpenId != Some(id) then s
        else if terms == None then s.(pendingOpenId := None, negotiated := Some(C.Negotiated(0, 0, 0, false)))
        else s.(pendingOpenId := None, link := C.Open,
                negotiated := Some(C.Negotiated(terms.value.0, terms.value.1, Given(p.value.tlv.selectedRpcEncoding, 1), true)))
      else if p.value.opcode == 0x0A || p.value.opcode == 0x0B then s.(link := C.Closed)
      else s
  }

  function ControlAfter(c: Core, i: Input): Option<C.State> {
    if c.control == None then None
    else
      var s := c.control.value;
      var next := (s.nextControlId + 1) % 0x1_0000;
      Some(match i
        case ControlIn(body) => LinkAfter(c, s, body)
        case OpenNow => s.(nextControlId := next, pendingOpenId := Some(s.nextControlId), link := C.Opening)
        case CloseNow => s.(nextControlId := next, link := C.LinkClosingState)
        case HeartbeatNow => s.(nextControlId := next)
        case _ => s)
  }

  /** What one input makes of a core: what it reports, what it sends, and its gate, frame limit, session id, masks and
      link. */
  ghost predicate ComesTo(c: Core, i: Input, c': Core) {
    && c'.events == c.events + Report(c, i)
    && c'.outbox == c.outbox + Answer(c, i)
    && c'.gate == GateAfter(c, i) && c'.maxFrameSize == LimitAfter(c, i) && c'.hs.sid == SidAfter(c, i)
    && c'.hs.eventMasks == MasksAfter(c, i) && c'.control == ControlAfter(c, i)
  }

  lemma IntervalIs(ms: nat)
    ensures C.ClampWhole(ms) == Interval(ms)
  {
    if ms < 500 {
      assert (ms as real) < 500.0;
    } else if ms > 60000 {
      assert (ms as real) >= 60000.0;
    }
  }

  lemma TwoActions(c: Core, a: C.Action, b: C.Action)
    ensures RunActions(c, [a, b]) == RunAction(RunAction(c, a), b)
  {
    hide RunAction;
    assert [a, b][1..] == [b];
    OneAction(RunAction(c, a), b);
  }

  lemma NothingMore(c: Core)
    ensures c.events + [] == c.events && c.outbox + [] == c.outbox && RunActions(c, []) == c
  {}

  lemma OpenComesTo(c: Core, body: seq<byte>)
    requires c.control.Some? && ControlCodec.Decode(body).Some? && ControlCodec.Decode(body).value.opcode == 0x01
    ensures ComesTo(c, ControlIn(body), HandleControlBody(c, body))
  {
    hide ControlCodec.Decode, C.Plain, C.AcceptBody, RunActions, C.ClampWhole;
    var s := c.control.value;
    var p := ControlCodec.Decode(body).value;
    NothingMore(c.(control := Some(s)));
    if p.tlv.heartbeatIntervalMs.Some? { IntervalIs(p.tlv.heartbeatIntervalMs.value); }
    var (s', actions) := C.HandleBody(s, body);
    var c1 := c.(control := Some(s'));
    if !s.physicalServer || s.link == C.Closed || s.link == C.LinkClosingState {
    } else if Unacceptable(p.tlv) {
      PlainBytes(0x02, p.controlId, 0x27);
      OneAction(c1, actions[0]);
    } else {
      TwoActions(c1, actions[0], actions[1]);
    }
  }

  lemma AcceptComesTo(c: Core, body: seq<byte>)
    requires c.control.Some? && ControlCodec.Decode(body).Some? && ControlCodec.Decode(body).value.opcode == 0x02
    ensures ComesTo(c, ControlIn(body), HandleControlBody(c, body))
  {
    hide ControlCodec.Decode, RunActions;
    var s := c.control.value;
    NothingMore(c.(control := Some(s)));
    var (s', actions) := C.HandleBody(s, body);
    if actions != [] { OneAction(c.(control := Some(s')), actions[0]); }
  }

  lemma OtherControlComesTo(c: Core, body: seq<byte>)
    requires c.control.Some?
    requires ControlCodec.Decode(body).None? || (ControlCodec.Decode(body).value.opcode != 0x01 && ControlCodec.Decode(body).value.opcode != 0x02)
    ensures ComesTo(c, ControlIn(body), HandleControlBody(c, body))
  {
    hide ControlCodec.Decode, C.Plain, RunActions;
    var s := c.control.value;
    var (s', actions) := C.HandleBody(s, body);
    var c1 := c.(control := Some(s'));
    NothingMore(c1);
    if ControlCodec.Decode(body).Some? {
      var id := ControlCodec.Decode(body).value.controlId;
      PlainBytes(0x05, id, 0);
      PlainBytes(0x0B, id, 0);
    }
    if |actions| == 1 { OneAction(c1, actions[0]); }
    if |actions| == 2 { TwoActions(c1, actions[0], actions[1]); }
  }

  lemma IdentifyComesTo(c: Core, msg: RpcMessage, random: bv32)
    requires msg.Identify?
    ensures ComesTo(c, RpcIn(msg, random), HandleRpc(c, msg, random))
  {
    hide H.GenerateSid, SidOf;
    NothingMore(c);
    SidIs(c, msg.randomSeed);
  }

  lemma SidIs(c: Core, randomSeed: bv32)
    ensures H.GenerateSid(randomSeed, c.hs.entropy) == SidOf(c, randomSeed)
  {
    hide H.GenerateSid, Hex.Fixed;
    H.SidSpellsSeed(randomSeed, c.hs.entropy);
  }

  lemma HandshakeComesTo(c: Core, msg: RpcMessage, random: bv32)
    requires msg.Hello? || msg.Identified?
    ensures ComesTo(c, RpcIn(msg, random), HandleRpc(c, msg, random))
  {
    NothingMore(c);
  }

  lemma BusinessComesTo(c: Core, msg: RpcMessage, random: bv32)
    requires !msg.Hello? && !msg.Identify? && !msg.Identified?
    ensures ComesTo(c, RpcIn(msg, random), HandleRpc(c, msg, random))
  {
    hide H.Handle;
    NothingMore(c);
  }

  lemma RpcComesTo(c: Core, msg: RpcMessage, random: bv32)
    ensures ComesTo(c, RpcIn(msg, random), HandleRpc(c, msg, random))
  {
    hide ComesTo, HandleRpc;
    match msg
    case Identify(_, _, _) => IdentifyComesTo(c, msg, random);
    case Hello(_) => HandshakeComesTo(c, msg, random);
    case Identified(_) => HandshakeComesTo(c, msg, random);
    case _ => BusinessComesTo(c, msg, random);
  }

  lemma SendingComesTo(c: Core, i: Input)
    requires i.OpenNow? || i.CloseNow? || i.HeartbeatNow?
    ensures ComesTo(c, i, Step(c, i))
  {
    hide C.Plain, C.OpenBody, RunActions;
    NothingMore(c);
    if c.control.Some? {
      var s := c.control.value;
      var id := s.nextControlId;
      PlainBytes(0x0A, id, 0);
      PlainBytes(0x04, id, 0);
      var (s', actions) := if i.OpenNow? then C.SendOpen(s) else C.SendClose(s);
      OneAction(c.(control := Some(s')), actions[0]);
    }
  }

  /** Any input to any core at all. */
  lemma StepComesTo(c: Core, i: Input)
    ensures ComesTo(c, i, Step(c, i))
  {
    hide HandleControlBody, HandleRpc, ComesTo;
    match i
    case ControlIn(body) =>
      if c.control == None { QuietComesTo(c, i); }
      else {
        var p := ControlCodec.Decode(body);
        if p.Some? && p.value.opcode == 0x01 { OpenComesTo(c, body); }
        else if p.Some? && p.value.opcode == 0x02 { AcceptComesTo(c, body); }
        else { OtherControlComesTo(c, body); }
      }
    case RpcIn(msg, random) => RpcComesTo(c, msg, random);
    case OpenNow => SendingComesTo(c, i);
    case CloseNow => SendingComesTo(c, i);
    case HeartbeatNow => SendingComesTo(c, i);
    case _ => QuietComesTo(c, i);
  }

  lemma QuietComesTo(c: Core, i: Input)
    requires i.StreamIn? || i.FrameError? || i.LinkUp? || i.SendNow? || (i.ControlIn? && c.control == None)
    ensures ComesTo(c, i, Step(c, i))
  {
    NothingMore(c);
  }
}
