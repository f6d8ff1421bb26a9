/** One protocol core: gate, link negotiation, handshake and business routing (src/core/core.ts). */
module Core {
  import opened Bytes
  import opened Messages
  import C = ControlSession
  import H = Handshake
  import ControlCodec

  /** A message handed to the outbound stream, with the frame limit in force at that moment. */
  datatype Sent = Sent(msg: Outbound, limit: nat)

  datatype Core = Core(
    control: Option<C.State>,
    hs: H.State,
    gate: GateState,
    maxFrameSize: nat,
    heartbeatIntervalMs: nat,
    events: seq<CoreEvent>,
    responses: seq<RpcMessage>,
    outbox: seq<Sent>)

  function NewCore(framed: bool, physicalServer: bool, logicalServer: bool, maxFrameSize: nat,
                   heartbeatIntervalMs: nat, entropy: bv32, eventMasks: Option<string>): Core {
    var local := C.DefaultLocal(maxFrameSize, Some(heartbeatIntervalMs as real));
    Core(if framed then Some(C.State(physicalServer, C.Idle, 1, None, None, local)) else None,
         H.State(logicalServer, LinkConnected, "", entropy, eventMasks),
         LinkConnected, maxFrameSize, heartbeatIntervalMs, [], [], [])
  }

  function Emit(c: Core, e: CoreEvent): Core {
    c.(events := c.events + [e])
  }

  function Send(c: Core, m: Outbound): Core {
    c.(outbox := c.outbox + [Sent(m, c.maxFrameSize)])
  }

  /** onLinkReadyInternal: only the first time, and only before the session is up. */
  function LinkBecameReady(c: Core, maxFrameSize: Option<nat>, heartbeatIntervalMs: nat): Core {
    if c.gate != LinkConnected then c
    else
      var c1 := c.(maxFrameSize := C.Or(maxFrameSize, c.maxFrameSize), gate := FramingReady, hs := H.OnLinkReady(c.hs));
      var c2 := if c.hs.logicalServer then Send(c1, Rpc(Hello(""))) else c1;
      Emit(c2, LinkReady(heartbeatIntervalMs))
  }

  function RunAction(c: Core, a: C.Action): Core {
    match a
    case SendBytes(body) => Send(c, ControlBody(body))
    case LinkIsReady(n) => LinkBecameReady(c, Some(n.maxFrameSize), n.heartbeatIntervalMs)
    case OpenRejected(statusCode) => Emit(c, LinkOpenRejected(statusCode))
    case PeerHeartbeat(id) => Send(c, ControlBody(C.Plain(ControlCodec.HEARTBEAT_ACK, id, SUCCESS)))
    case PeerHeartbeatAck(_) => Emit(c, HeartbeatAckSeen)
    case PeerClosing(_) => Emit(c, LinkClosing)
    case DecodeFailed(code) => Emit(c, Failed(code))
  }

  function RunActions(c: Core, actions: seq<C.Action>): Core
    decreases |actions|
  {
    if actions == [] then c else RunActions(RunAction(c, actions[0]), actions[1..])
  }

  function HandleControlBody(c: Core, body: seq<byte>): Core {
    if c.control == None then c
    else
      var (s, actions) := C.HandleBody(c.control.value, body);
      RunActions(c.(control := Some(s)), actions)
  }

  function ApplyHandshake(c: Core, hs: H.State, r: H.Result): Core {
    var c1 := c.(hs := hs);
    var c2 := if r.outbound.Some? then Send(c1, Rpc(r.outbound.value)) else c1;
    var c3 := if r.becameReady then Emit(c2.(gate := AppReady), HandshakeReady(hs.sid)) else c2;
    if r.error.Some? then Emit(c3, HandshakeError(r.error.value)) else c3
  }

  function DispatchBusiness(c: Core, msg: RpcMessage): Core {
    if msg.sid != c.hs.sid then Emit(c, Failed(RPC_PAYLOAD_INVALID))
    else
      match msg
      case Request(_, _, _, _) => Emit(c, RpcRequested(msg))
      case Event(_, _, _) => Emit(c, RpcEventSeen(msg))
      case Response(_, _, _, _) => c.(responses := c.responses + [msg])
      case _ => c
  }

  function HandleRpc(c: Core, msg: RpcMessage, random: bv32): Core {
    match ClassifyInbound(c.gate, msg)
    case ToHandshake => var (hs, r) := H.Handle(c.hs, msg, random); ApplyHandshake(c, hs, r)
    case ToBusiness => DispatchBusiness(c, msg)
    case RespondOpenRequired =>
      if msg.Request? then Send(c, Rpc(Response(c.hs.sid, msg.requestId, CONTROL_OPEN_REQUIRED, ""))) else c
    case Drop => c
  }

  function HandleStream(c: Core, streamId: nat, data: seq<byte>): Core {
    if c.gate != AppReady then c else Emit(c, StreamData(streamId, data))
  }

  function MarkLinkReady(c: Core): Core {
    if c.control.Some? then c else LinkBecameReady(c, None, c.heartbeatIntervalMs)
  }

  function SendControlOpen(c: Core): Core {
    if c.control == None then c
    else
      var (s, actions) := C.SendOpen(c.control.value);
      RunActions(c.(control := Some(s)), actions)
  }

  function SendControlClose(c: Core): Core {
    if c.control == None then c
    else
      var (s, actions) := C.SendClose(c.control.value);
      RunActions(c.(control := Some(s)), actions)
  }

  function SendHeartbeat(c: Core): Core {
    if c.control == None then c
    else
      var (s, id) := C.AllocId(c.control.value);
      Send(c.(control := Some(s)), ControlBody(C.Plain(ControlCodec.HEARTBEAT, id, SUCCESS)))
  }

  // ---------- Any inputs at all ----------

  datatype Input =
    | ControlIn(body: seq<byte>)
    | RpcIn(msg: RpcMessage, random: bv32)
    | StreamIn(streamId: nat, data: seq<byte>)
    | FrameError(code: nat)
    | LinkUp
    | OpenNow
    | CloseNow
    | HeartbeatNow
    | SendNow(msg: RpcMessage)

  function Step(c: Core, i: Input): Core {
    match i
    case ControlIn(body) => HandleControlBody(c, body)
    case RpcIn(msg, random) => HandleRpc(c, msg, random)
    case StreamIn(streamId, data) => HandleStream(c, streamId, data)
    case FrameError(code) => Emit(c, Failed(code))
    case LinkUp => MarkLinkReady(c)
    case OpenNow => SendControlOpen(c)
    case CloseNow => SendControlClose(c)
    case HeartbeatNow => SendHeartbeat(c)
    case SendNow(msg) => Send(c, Rpc(msg))
  }

  function Run(c: Core, inputs: seq<Input>): Core {
    if inputs == [] then c else Step(Run(c, inputs[..|inputs| - 1]), inputs[|inputs| - 1])
  }

  /** The session id announced by the latest handshakeReady. */
  function Announced(events: seq<CoreEvent>): Option<string> {
    if events == [] then None
    else
      var last := events[|events| - 1];
      if last.HandshakeReady? then Some(last.sid) else Announced(events[..|events| - 1])
  }

  function LinkReadies(events: seq<CoreEvent>): nat {
    if events == [] then 0
    else LinkReadies(events[..|events| - 1]) + if events[|events| - 1].LinkReady? then 1 else 0
  }

  /** An event that is allowed after the events before it. */
  predicate Fitting(before: seq<CoreEvent>, e: CoreEvent) {
    match e
    case RpcRequested(msg) => Announced(before) == Some(msg.sid)
    case RpcEventSeen(msg) => Announced(before) == Some(msg.sid)
    case StreamData(_, _) => Announced(before).Some?
    case HandshakeReady(sid) => sid != "" && sid != H.ALL_ZERO_SID
    case _ => true
  }

  ghost predicate Orderly(events: seq<CoreEvent>) {
    forall i :: 0 <= i < |events| ==> Fitting(events[..i], events[i])
  }

  ghost predicate Inv(c: Core) {
    && c.gate != Closing && c.hs.gate != Closing
    && (c.gate == AppReady <==> c.hs.gate == AppReady)
    && H.GoodSession(c.hs)
    && Announced(c.events) == (if c.gate == AppReady then Some(c.hs.sid) else None)
    && LinkReadies(c.events) <= 1
    && (c.gate == LinkConnected ==> LinkReadies(c.events) == 0)
    && Orderly(c.events)
  }

  lemma OrderlyStep(events: seq<CoreEvent>, e: CoreEvent)
    requires Orderly(events) && Fitting(events, e)
    ensures Orderly(events + [e])
    ensures Announced(events + [e]) == if e.HandshakeReady? then Some(e.sid) else Announced(events)
    ensures LinkReadies(events + [e]) == LinkReadies(events) + if e.LinkReady? then 1 else 0
  {
    hide Fitting;
    assert (events + [e])[..|events|] == events;
    forall i | 0 <= i < |events + [e]| ensures Fitting((events + [e])[..i], (events + [e])[i]) {
      if i < |events| {
        assert (events + [e])[..i] == events[..i];
      }
    }
  }

  /** Events that say nothing about the session. */
  predicate Quiet(e: CoreEvent) {
    e.LinkOpenRejected? || e.LinkClosing? || e.HandshakeError? || e.HeartbeatAckSeen? || e.Failed?
  }

  lemma EmitQuiet(c: Core, e: CoreEvent)
    requires Inv(c) && Quiet(e)
    ensures Inv(Emit(c, e))
  {
    OrderlyStep(c.events, e);
  }

  lemma LinkBecameReadyKeeps(c: Core, maxFrameSize: Option<nat>, heartbeatIntervalMs: nat)
    requires Inv(c)
    ensures Inv(LinkBecameReady(c, maxFrameSize, heartbeatIntervalMs))
    ensures Rank(c.gate) <= Rank(LinkBecameReady(c, maxFrameSize, heartbeatIntervalMs).gate)
  {
    if c.gate == LinkConnected {
      OrderlyStep(c.events, LinkReady(heartbeatIntervalMs));
    }
  }

  lemma RunActionKeeps(c: Core, a: C.Action)
    requires Inv(c)
    ensures Inv(RunAction(c, a)) && Rank(c.gate) <= Rank(RunAction(c, a).gate)
  {
    hide Orderly, Announced, LinkReadies;
    match a
    case SendBytes(_) =>
    case LinkIsReady(n) => LinkBecameReadyKeeps(c, Some(n.maxFrameSize), n.heartbeatIntervalMs);
    case OpenRejected(statusCode) => EmitQuiet(c, LinkOpenRejected(statusCode));
    case PeerHeartbeat(_) =>
    case PeerHeartbeatAck(_) => EmitQuiet(c, HeartbeatAckSeen);
    case PeerClosing(_) => EmitQuiet(c, LinkClosing);
    case DecodeFailed(code) => EmitQuiet(c, Failed(code));
  }

  lemma {:induction false} RunActionsKeep(c: Core, actions: seq<C.Action>)
    requires Inv(c)
    ensures Inv(RunActions(c, actions)) && Rank(c.gate) <= Rank(RunActions(c, actions).gate)
    decreases |actions|
  {
    hide Inv, RunAction;
    if actions != [] {
      RunActionKeeps(c, actions[0]);
      RunActionsKeep(RunAction(c, actions[0]), actions[1..]);
    }
  }

  lemma ApplyHandshakeKeeps(c: Core, msg: RpcMessage, random: bv32)
    requires Inv(c)
    ensures var (hs, r) := H.Handle(c.hs, msg, random);
      Inv(ApplyHandshake(c, hs, r)) && Rank(c.gate) <= Rank(ApplyHandshake(c, hs, r).gate)
  {
    hide Orderly, Announced, LinkReadies, H.Handle;
    H.HandleKeepsGood(c.hs, msg, random);
    var (hs, r) := H.Handle(c.hs, msg, random);
    var c1 := c.(hs := hs);
    var c2 := if r.outbound.Some? then Send(c1, Rpc(r.outbound.value)) else c1;
    var c3 := if r.becameReady then Emit(c2.(gate := AppReady), HandshakeReady(hs.sid)) else c2;
    if r.becameReady {
      OrderlyStep(c.events, HandshakeReady(hs.sid));
    }
    if r.error.Some? {
      EmitQuiet(c3, HandshakeError(r.error.value));
    }
  }

  lemma DispatchKeeps(c: Core, msg: RpcMessage)
    requires Inv(c) && c.gate == AppReady
    ensures Inv(DispatchBusiness(c, msg)) && DispatchBusiness(c, msg).gate == c.gate
  {
    hide Orderly, Announced, LinkReadies;
    if msg.sid != c.hs.sid {
      EmitQuiet(c, Failed(RPC_PAYLOAD_INVALID));
    } else if msg.Request? {
      OrderlyStep(c.events, RpcRequested(msg));
    } else if msg.Event? {
      OrderlyStep(c.events, RpcEventSeen(msg));
    }
  }

  /** Every step on every input keeps the invariant, and the gate never moves back. */
  lemma StepKeeps(c: Core, i: Input)
    requires Inv(c)
    ensures Inv(Step(c, i)) && Rank(c.gate) <= Rank(Step(c, i).gate)
  {
    hide Orderly, Announced, LinkReadies, RunActions, ApplyHandshake, DispatchBusiness, LinkBecameReady, C.HandleBody, C.SendOpen, C.SendClose, H.Handle;
    match i
    case ControlIn(body) =>
      if c.control.Some? {
        var (s, actions) := C.HandleBody(c.control.value, body);
        RunActionsKeep(c.(control := Some(s)), actions);
      }
    case RpcIn(msg, random) =>
      match ClassifyInbound(c.gate, msg) {
        case ToHandshake => ApplyHandshakeKeeps(c, msg, random);
        case ToBusiness => DispatchKeeps(c, msg);
        case _ =>
      }
    case StreamIn(streamId, data) =>
      if c.gate == AppReady { OrderlyStep(c.events, StreamData(streamId, data)); }
    case FrameError(code) => EmitQuiet(c, Failed(code));
    case LinkUp => if c.control == None { LinkBecameReadyKeeps(c, None, c.heartbeatIntervalMs); }
    case OpenNow =>
      if c.control.Some? {
        var (s, actions) := C.SendOpen(c.control.value);
        RunActionsKeep(c.(control := Some(s)), actions);
      }
    case CloseNow =>
      if c.control.Some? {
        var (s, actions) := C.SendClose(c.control.value);
        RunActionsKeep(c.(control := Some(s)), actions);
      }
    case HeartbeatNow =>
    case SendNow(_) =>
  }

  /** A core as its constructor leaves it. */
  predicate IsNew(c: Core) {
    && c.gate == LinkConnected && c.hs.gate == LinkConnected && c.hs.sid == ""
    && c.events == [] && c.responses == [] && c.outbox == []
  }

  /** Whatever arrives, in whatever order: after any run the gate agrees with the handshake, the session id
      of a ready core is neither empty nor eight zeros, linkReady was said at most once, and every
      request, event or stream chunk passed on followed a handshakeReady that announced its session id. */
  lemma {:induction false} RunKeeps(c: Core, inputs: seq<Input>)
    requires IsNew(c)
    ensures Inv(Run(c, inputs))
  {
    hide Step;
    if inputs != [] {
      RunKeeps(c, inputs[..|inputs| - 1]);
      StepKeeps(Run(c, inputs[..|inputs| - 1]), inputs[|inputs| - 1]);
    }
  }

  lemma {:induction false} GateOnlyMovesForward(c: Core, inputs: seq<Input>, n: nat)
    requires IsNew(c) && n <= |inputs|
    ensures Rank(Run(c, inputs[..n]).gate) <= Rank(Run(c, inputs).gate)
    decreases |inputs|
  {
    hide Step;
    if n == |inputs| {
      assert inputs[..n] == inputs;
    } else {
      GateOnlyMovesForward(c, inputs[..|inputs| - 1], n);
      assert inputs[..|inputs| - 1][..n] == inputs[..n];
      RunKeeps(c, inputs[..|inputs| - 1]);
      StepKeeps(Run(c, inputs[..|inputs| - 1]), inputs[|inputs| - 1]);
    }
  }

  /** The masks of the latest Identify among the inputs. */
  function LatestMasks(inputs: seq<Input>, before: Option<string>): Option<string> {
    if inputs == [] then before
    else
      var last := inputs[|inputs| - 1];
      if last.RpcIn? && last.msg.Identify? then last.msg.eventMasks
      else LatestMasks(inputs[..|inputs| - 1], before)
  }

  lemma LinkKeepsMasks(c: Core, maxFrameSize: Option<nat>, heartbeatIntervalMs: nat)
    ensures var c' := LinkBecameReady(c, maxFrameSize, heartbeatIntervalMs);
      c'.hs.eventMasks == c.hs.eventMasks && c'.hs.logicalServer == c.hs.logicalServer
  {}

  lemma {:induction false} ActionsKeepMasks(c: Core, actions: seq<C.Action>)
    ensures var c' := RunActions(c, actions);
      c'.hs.eventMasks == c.hs.eventMasks && c'.hs.logicalServer == c.hs.logicalServer
    decreases |actions|
  {
    hide LinkBecameReady;
    if actions != [] {
      if actions[0].LinkIsReady? {
        LinkKeepsMasks(c, Some(actions[0].negotiated.maxFrameSize), actions[0].negotiated.heartbeatIntervalMs);
      }
      ActionsKeepMasks(RunAction(c, actions[0]), actions[1..]);
    }
  }

  lemma StepMasks(c: Core, i: Input)
    requires c.hs.logicalServer
    ensures var c' := Step(c, i);
      c'.hs.logicalServer && c'.hs.eventMasks == if i.RpcIn? && i.msg.Identify? then i.msg.eventMasks else c.hs.eventMasks
  {
    hide RunActions, LinkBecameReady, C.HandleBody, C.SendOpen, C.SendClose, H.GenerateSid;
    LinkKeepsMasks(c, None, c.heartbeatIntervalMs);
    if c.control.Some? {
      var control := if i.ControlIn? then C.HandleBody(c.control.value, i.body)
                     else if i.OpenNow? then C.SendOpen(c.control.value)
                     else C.SendClose(c.control.value);
      ActionsKeepMasks(c.(control := Some(control.0)), control.1);
    }
  }

  /** Whatever arrives: the event masks a server works with are those of the latest Identify it read. No
      Reidentify ever changes them, because the gate does not let one through to the handshake. */
  lemma {:induction false} MasksAreOfLatestIdentify(c: Core, inputs: seq<Input>)
    requires c.hs.logicalServer
    ensures Run(c, inputs).hs.eventMasks == LatestMasks(inputs, c.hs.eventMasks) && Run(c, inputs).hs.logicalServer
  {
    hide Step;
    if inputs != [] {
      MasksAreOfLatestIdentify(c, inputs[..|inputs| - 1]);
      StepMasks(Run(c, inputs[..|inputs| - 1]), inputs[|inputs| - 1]);
    }
  }

  /** An Identify that comes before the link is negotiated brings the session up all the same, and the
      link then never becomes ready. */
  lemma EarlyIdentify(c: Core, seed: bv32, random: bv32)
    requires IsNew(c) && c.hs.logicalServer
    ensures var ready := Step(c, RpcIn(Identify("", seed, None), random));
      && ready.gate == AppReady
      && forall size: Option<nat>, ms: nat :: LinkBecameReady(ready, size, ms) == ready
  {}

  // ---------- The core object ----------

  class AxtpCore {
    const control: C.Session?
    const handshake: H.HandshakeMachine
    const heartbeatIntervalMs: nat
    var gate: GateState
    var maxFrameSize: nat
    var events: seq<CoreEvent>
    var responses: seq<RpcMessage>
    var outbox: seq<Sent>

    ghost function Objects(): set<object>
    {
      {this, handshake} + if control == null then {} else {control}
    }

    ghost function View(): Core
      reads this, handshake, control
    {
      Core(if control == null then None else Some(control.View()), handshake.View(), gate, maxFrameSize,
           heartbeatIntervalMs, events, responses, outbox)
    }

    constructor (framed: bool, physicalServer: bool, logicalServer: bool, maxFrameSize: nat,
                 heartbeatIntervalMs: nat, entropy: bv32, eventMasks: Option<string>)
      ensures View() == NewCore(framed, physicalServer, logicalServer, maxFrameSize, heartbeatIntervalMs, entropy, eventMasks)
      ensures fresh(Objects())
    {
      if framed {
        control := new C.Session(physicalServer, C.DefaultLocal(maxFrameSize, Some(heartbeatIntervalMs as real)));
      } else {
        control := null;
      }
      handshake := new H.HandshakeMachine(logicalServer, entropy, eventMasks);
      this.heartbeatIntervalMs := heartbeatIntervalMs;
      this.maxFrameSize := maxFrameSize;
      gate := LinkConnected;
      events := [];
      responses := [];
      outbox := [];
    }

    method Enqueue(e: CoreEvent)
      modifies this`events
      ensures View() == Emit(old(View()), e)
    {
      events := events + [e];
    }

    method SendOut(m: Outbound)
      modifies this`outbox
      ensures View() == Send(old(View()), m)
    {
      outbox := outbox + [Sent(m, maxFrameSize)];
    }

    method OnLinkReadyInternal(size: Option<nat>, intervalMs: nat)
      modifies this, handshake
      ensures View() == LinkBecameReady(old(View()), size, intervalMs)
    {
      if gate != LinkConnected { return; }
      if size.Some? { maxFrameSize := size.value; }
      gate := FramingReady;
      handshake.LinkBecameReady();
      if handshake.logicalServer { SendOut(Rpc(Hello(""))); }
      Enqueue(LinkReady(intervalMs));
    }

    /** One callback of the control session. */
    method Callback(a: C.Action)
      modifies this, handshake
      ensures View() == RunAction(old(View()), a)
    {
      match a
      case SendBytes(body) => SendOut(ControlBody(body));
      case LinkIsReady(n) => OnLinkReadyInternal(Some(n.maxFrameSize), n.heartbeatIntervalMs);
      case OpenRejected(statusCode) => Enqueue(LinkOpenRejected(statusCode));
      case PeerHeartbeat(id) => SendOut(ControlBody(C.Plain(ControlCodec.HEARTBEAT_ACK, id, SUCCESS)));
      case PeerHeartbeatAck(_) => Enqueue(HeartbeatAckSeen);
      case PeerClosing(_) => Enqueue(LinkClosing);
      case DecodeFailed(code) => Enqueue(Failed(code));
    }

    method Callbacks(actions: seq<C.Action>)
      modifies this, handshake
      ensures View() == RunActions(old(View()), actions)
    {
      hide RunAction;
      for i := 0 to |actions|
        invariant RunActions(View(), actions[i..]) == RunActions(old(View()), actions)
      {
        Callback(actions[i]);
        assert actions[i..][1..] == actions[i + 1..];
      }
    }

    method OnControl(body: seq<byte>)
      modifies Objects()
      ensures View() == HandleControlBody(old(View()), body)
    {
      hide C.HandleBody, RunActions;
      if control == null { return; }
      var actions := control.HandleControlBody(body);
      Callbacks(actions);
    }

    method OnRpc(msg: RpcMessage, random: bv32)
      modifies this, handshake
      ensures View() == HandleRpc(old(View()), msg, random)
    {
      hide H.Handle;
      match ClassifyInbound(gate, msg)
      case ToHandshake =>
        var r := handshake.HandleMessage(msg, random);
        if r.outbound.Some? { SendOut(Rpc(r.outbound.value)); }
        if r.becameReady {
          gate := AppReady;
          Enqueue(HandshakeReady(handshake.sidValue));
        }
        if r.error.Some? { Enqueue(HandshakeError(r.error.value)); }
      case ToBusiness =>
        if msg.sid != handshake.sidValue {
          Enqueue(Failed(RPC_PAYLOAD_INVALID));
          return;
        }
        if msg.Request? { Enqueue(RpcRequested(msg)); }
        else if msg.Event? { Enqueue(RpcEventSeen(msg)); }
        else if msg.Response? { responses := responses + [msg]; }
      case RespondOpenRequired =>
        if msg.Request? { SendOut(Rpc(Response(handshake.sidValue, msg.requestId, CONTROL_OPEN_REQUIRED, ""))); }
      case Drop =>
    }

    method OnStream(streamId: nat, data: seq<byte>)
      modifies this
      ensures View() == HandleStream(old(View()), streamId, data)
    {
      if gate != AppReady { return; }
      Enqueue(StreamData(streamId, data));
    }

    method LinkUpNow()
      modifies this, handshake
      ensures View() == MarkLinkReady(old(View()))
    {
      if control != null { return; }
      OnLinkReadyInternal(None, heartbeatIntervalMs);
    }

    method OpenLink()
      modifies Objects()
      ensures View() == SendControlOpen(old(View()))
    {
      hide RunActions, C.SendOpen;
      if control == null { return; }
      var actions := control.StartOpen();
      Callbacks(actions);
    }

    method CloseLink()
      modifies Objects()
      ensures View() == SendControlClose(old(View()))
    {
      hide RunActions, C.SendClose;
      if control == null { return; }
      var actions := control.StartClose();
      Callbacks(actions);
    }

    method Heartbeat()
      modifies Objects()
      ensures View() == SendHeartbeat(old(View()))
    {
      if control == null { return; }
      var id := control.AllocControlId();
      SendOut(ControlBody(C.Plain(ControlCodec.HEARTBEAT, id, SUCCESS)));
    }
  }
}
