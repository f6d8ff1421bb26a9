/** What a core passes on to its owner and what it turns down, over any run (src/core/core.ts). */
module CoreDelivery {
  import opened Bytes
  import opened Messages
  import opened Core
  import C = ControlSession
  import ControlCodec
  import H = Handshake

  /** The events that carry something to the owner of the session. */
  predicate CarriesData(e: CoreEvent) {
    e.RpcRequested? || e.RpcEventSeen? || e.StreamData?
  }

  function Carried(events: seq<CoreEvent>): seq<CoreEvent> {
    if events == [] then []
    else
      var last := events[|events| - 1];
      Carried(events[..|events| - 1]) + if CarriesData(last) then [last] else []
  }

  /** What one input has to lead to, when the session announced so far is this one. */
  function Due(i: Input, session: Option<string>): seq<CoreEvent> {
    if session == None then []
    else
      match i
      case RpcIn(msg, _) =>
        if msg.sid != session.value then []
        else if msg.Request? then [RpcRequested(msg)]
        else if msg.Event? then [RpcEventSeen(msg)]
        else []
      case StreamIn(streamId, data) => [StreamData(streamId, data)]
      case _ => []
  }

  function DueResponse(i: Input, session: Option<string>): seq<RpcMessage> {
    if i.RpcIn? && i.msg.Response? && session == Some(i.msg.sid) then [i.msg] else []
  }

  function SessionAfter(c: Core, inputs: seq<Input>): Option<string> {
    Announced(Run(c, inputs).events)
  }

  function AllDue(c: Core, inputs: seq<Input>): seq<CoreEvent> {
    if inputs == [] then []
    else
      var n := |inputs| - 1;
      AllDue(c, inputs[..n]) + Due(inputs[n], SessionAfter(c, inputs[..n]))
  }

  function AllDueResponses(c: Core, inputs: seq<Input>): seq<RpcMessage> {
    if inputs == [] then []
    else
      var n := |inputs| - 1;
      AllDueResponses(c, inputs[..n]) + DueResponse(inputs[n], SessionAfter(c, inputs[..n]))
  }

  lemma CarriedSnoc(events: seq<CoreEvent>, e: CoreEvent)
    ensures Carried(events + [e]) == Carried(events) + if CarriesData(e) then [e] else []
  {
    assert (events + [e])[..|events|] == events;
  }

  /** The core after something that has nothing for the owner. */
  predicate PassesNothing(c: Core, c': Core) {
    Carried(c'.events) == Carried(c.events) && c'.responses == c.responses
  }

  lemma EmitPassesNothing(c: Core, e: CoreEvent)
    requires !CarriesData(e)
    ensures PassesNothing(c, Emit(c, e))
  {
    CarriedSnoc(c.events, e);
    assert Carried(c.events) + [] == Carried(c.events);
  }

  lemma LinkPassesNothing(c: Core, maxFrameSize: Option<nat>, heartbeatIntervalMs: nat)
    ensures PassesNothing(c, LinkBecameReady(c, maxFrameSize, heartbeatIntervalMs))
  {
    if c.gate == LinkConnected {
      CarriedSnoc(c.events, LinkReady(heartbeatIntervalMs));
      assert Carried(c.events) + [] == Carried(c.events);
    }
  }

  lemma ActionPassesNothing(c: Core, a: C.Action)
    ensures PassesNothing(c, RunAction(c, a))
  {
    hide LinkBecameReady, Carried;
    match a
    case LinkIsReady(n) => LinkPassesNothing(c, Some(n.maxFrameSize), n.heartbeatIntervalMs);
    case OpenRejected(statusCode) => EmitPassesNothing(c, LinkOpenRejected(statusCode));
    case PeerHeartbeatAck(_) => EmitPassesNothing(c, HeartbeatAckSeen);
    case PeerClosing(_) => EmitPassesNothing(c, LinkClosing);
    case DecodeFailed(code) => EmitPassesNothing(c, Failed(code));
    case _ =>
  }

  lemma {:induction false} ActionsPassNothing(c: Core, actions: seq<C.Action>)
    ensures PassesNothing(c, RunActions(c, actions))
    decreases |actions|
  {
    hide RunAction, Carried;
    if actions != [] {
      ActionPassesNothing(c, actions[0]);
      ActionsPassNothing(RunAction(c, actions[0]), actions[1..]);
    }
  }

  lemma HandshakePassesNothing(c: Core, hs: H.State, r: H.Result)
    ensures PassesNothing(c, ApplyHandshake(c, hs, r))
  {
    hide Carried;
    var c1 := c.(hs := hs);
    var c2 := if r.outbound.Some? then Send(c1, Rpc(r.outbound.value)) else c1;
    var c3 := if r.becameReady then Emit(c2.(gate := AppReady), HandshakeReady(hs.sid)) else c2;
    if r.becameReady { EmitPassesNothing(c2.(gate := AppReady), HandshakeReady(hs.sid)); }
    if r.error.Some? { EmitPassesNothing(c3, HandshakeError(r.error.value)); }
  }

  /** One input: what is passed on is what is due, neither more nor less. */
  lemma StepPassesOn(c: Core, i: Input)
    requires Inv(c)
    ensures var c' := Step(c, i); var session := Announced(c.events);
      && Carried(c'.events) == Carried(c.events) + Due(i, session)
      && c'.responses == c.responses + DueResponse(i, session)
  {
    hide Carried, Announced, Orderly, LinkReadies, RunActions, LinkBecameReady, ApplyHandshake, C.HandleBody, C.SendOpen, C.SendClose, H.Handle;
    assert Carried(c.events) + [] == Carried(c.events) && c.responses + [] == c.responses;
    match i
    case ControlIn(body) =>
      if c.control.Some? {
        var (s, actions) := C.HandleBody(c.control.value, body);
        ActionsPassNothing(c.(control := Some(s)), actions);
      }
    case RpcIn(msg, random) => RpcPassesOn(c, msg, random);
    case StreamIn(streamId, data) => CarriedSnoc(c.events, StreamData(streamId, data));
    case FrameError(code) => EmitPassesNothing(c, Failed(code));
    case LinkUp => LinkPassesNothing(c, None, c.heartbeatIntervalMs);
    case OpenNow =>
      if c.control.Some? {
        var (s, actions) := C.SendOpen(c.control.value);
        ActionsPassNothing(c.(control := Some(s)), actions);
      }
    case CloseNow =>
      if c.control.Some? {
        var (s, actions) := C.SendClose(c.control.value);
        ActionsPassNothing(c.(control := Some(s)), actions);
      }
    case HeartbeatNow =>
    case SendNow(_) =>
  }

  lemma RpcPassesOn(c: Core, msg: RpcMessage, random: bv32)
    requires Inv(c)
    ensures var c' := HandleRpc(c, msg, random); var session := Announced(c.events); var i := RpcIn(msg, random);
      && Carried(c'.events) == Carried(c.events) + Due(i, session)
      && c'.responses == c.responses + DueResponse(i, session)
  {
    hide Carried, Announced, Orderly, LinkReadies, ApplyHandshake, H.Handle;
    assert Carried(c.events) + [] == Carried(c.events) && c.responses + [] == c.responses;
    var (hs, r) := H.Handle(c.hs, msg, random);
    HandshakePassesNothing(c, hs, r);
    EmitPassesNothing(c, Failed(RPC_PAYLOAD_INVALID));
    CarriedSnoc(c.events, RpcRequested(msg));
    CarriedSnoc(c.events, RpcEventSeen(msg));
  }

  /** Whatever arrives, from a new core on: the requests, events and stream data passed on are exactly those read under
      the session announced by then, each in its place, and so are the responses. */
  lemma {:induction false} PassedOnExactly(c: Core, inputs: seq<Input>)
    requires IsNew(c)
    ensures Carried(Run(c, inputs).events) == AllDue(c, inputs)
    ensures Run(c, inputs).responses == AllDueResponses(c, inputs)
  {
    hide Step, Carried, Announced, Due;
    if inputs == [] {
      assert Carried([]) == [] by { NothingCarried(); }
    } else {
      var n := |inputs| - 1;
      PassedOnExactly(c, inputs[..n]);
      RunKeeps(c, inputs[..n]);
      StepPassesOn(Run(c, inputs[..n]), inputs[n]);
    }
  }

  lemma NothingCarried()
    ensures Carried([]) == []
  {}

  // ---------- What is answered ----------

  /** The RPC responses a core has sent. */
  function Answers(outbox: seq<Sent>): seq<Sent> {
    if outbox == [] then []
    else
      var last := outbox[|outbox| - 1];
      Answers(outbox[..|outbox| - 1]) + if last.msg.Rpc? && last.msg.msg.Response? then [last] else []
  }

  /** A request that comes before any session is refused under its id with status 0x24; a response of the owner's goes
      out; a core answers nothing else by itself. */
  function DueAnswer(i: Input, session: Option<string>, limit: nat): seq<Sent> {
    match i
    case RpcIn(msg, _) => if msg.Request? && session == None then [Sent(Rpc(Response("", msg.requestId, 0x24, "")), limit)] else []
    case SendNow(msg) => if msg.Response? then [Sent(Rpc(msg), limit)] else []
    case _ => []
  }

  function AllDueAnswers(c: Core, inputs: seq<Input>): seq<Sent> {
    if inputs == [] then []
    else
      var n := |inputs| - 1;
      AllDueAnswers(c, inputs[..n]) + DueAnswer(inputs[n], SessionAfter(c, inputs[..n]), Run(c, inputs[..n]).maxFrameSize)
  }

  lemma AnswersSnoc(outbox: seq<Sent>, x: Sent)
    ensures Answers(outbox + [x]) == Answers(outbox) + if x.msg.Rpc? && x.msg.msg.Response? then [x] else []
  {
    assert (outbox + [x])[..|outbox|] == outbox;
  }

  /** Before the session there is no session id. */
  predicate NoSidYet(c: Core) {
    c.gate != AppReady ==> c.hs.sid == ""
  }

  predicate AnswersNothing(c: Core, c': Core) {
    Answers(c'.outbox) == Answers(c.outbox) && (NoSidYet(c) ==> NoSidYet(c'))
  }

  lemma SendAnswersNothing(c: Core, m: Outbound)
    requires m.Rpc? ==> !m.msg.Response?
    ensures AnswersNothing(c, Send(c, m))
  {
    AnswersSnoc(c.outbox, Sent(m, c.maxFrameSize));
    assert Answers(c.outbox) + [] == Answers(c.outbox);
  }

  lemma LinkAnswersNothing(c: Core, maxFrameSize: Option<nat>, heartbeatIntervalMs: nat)
    ensures AnswersNothing(c, LinkBecameReady(c, maxFrameSize, heartbeatIntervalMs))
  {
    hide Answers;
    var c1 := c.(maxFrameSize := C.Or(maxFrameSize, c.maxFrameSize), gate := FramingReady, hs := H.OnLinkReady(c.hs));
    SendAnswersNothing(c1, Rpc(Hello("")));
  }

  lemma {:induction false} ActionsAnswerNothing(c: Core, actions: seq<C.Action>)
    ensures AnswersNothing(c, RunActions(c, actions))
    decreases |actions|
  {
    hide LinkBecameReady, Answers, C.Plain;
    if actions != [] {
      match actions[0] {
        case SendBytes(body) => SendAnswersNothing(c, ControlBody(body));
        case LinkIsReady(n) => LinkAnswersNothing(c, Some(n.maxFrameSize), n.heartbeatIntervalMs);
        case PeerHeartbeat(id) => SendAnswersNothing(c, ControlBody(C.Plain(ControlCodec.HEARTBEAT_ACK, id, SUCCESS)));
        case _ =>
      }
      ActionsAnswerNothing(RunAction(c, actions[0]), actions[1..]);
    }
  }

  lemma HandshakeAnswersNothing(c: Core, msg: RpcMessage, random: bv32)
    requires NoSidYet(c) && Inv(c)
    ensures var (hs, r) := H.Handle(c.hs, msg, random);
      Answers(ApplyHandshake(c, hs, r).outbox) == Answers(c.outbox) && NoSidYet(ApplyHandshake(c, hs, r))
  {
    hide Answers, Orderly, Announced, LinkReadies, H.GenerateSid;
    var (hs, r) := H.Handle(c.hs, msg, random);
    if r.outbound.Some? { SendAnswersNothing(c.(hs := hs), Rpc(r.outbound.value)); }
  }

  lemma StepAnswers(c: Core, i: Input)
    requires Inv(c) && NoSidYet(c)
    ensures var c' := Step(c, i);
      NoSidYet(c') && Answers(c'.outbox) == Answers(c.outbox) + DueAnswer(i, Announced(c.events), c.maxFrameSize)
  {
    hide Answers, Announced, Orderly, LinkReadies, RunActions, LinkBecameReady, ApplyHandshake, H.Handle;
    hide C.HandleBody, C.SendOpen, C.SendClose, C.Plain;
    assert Answers(c.outbox) + [] == Answers(c.outbox);
    match i
    case ControlIn(body) =>
      if c.control.Some? {
        var (s, actions) := C.HandleBody(c.control.value, body);
        ActionsAnswerNothing(c.(control := Some(s)), actions);
      }
    case RpcIn(msg, random) =>
      HandshakeAnswersNothing(c, msg, random);
      AnswersSnoc(c.outbox, Sent(Rpc(Response("", if msg.Request? then msg.requestId else 0, 0x24, "")), c.maxFrameSize));
    case LinkUp => LinkAnswersNothing(c, None, c.heartbeatIntervalMs);
    case OpenNow =>
      if c.control.Some? {
        var (s, actions) := C.SendOpen(c.control.value);
        ActionsAnswerNothing(c.(control := Some(s)), actions);
      }
    case CloseNow =>
      if c.control.Some? {
        var (s, actions) := C.SendClose(c.control.value);
        ActionsAnswerNothing(c.(control := Some(s)), actions);
      }
    case HeartbeatNow =>
      if c.control.Some? {
        var (s, id) := C.AllocId(c.control.value);
        SendAnswersNothing(c.(control := Some(s)), ControlBody(C.Plain(ControlCodec.HEARTBEAT, id, SUCCESS)));
      }
    case SendNow(msg) => AnswersSnoc(c.outbox, Sent(Rpc(msg), c.maxFrameSize));
    case _ =>
  }

  /** Over any run the responses a core sends are its owner's and the refusals of requests that come too early. */
  lemma {:induction false} AnsweredExactly(c: Core, inputs: seq<Input>)
    requires IsNew(c)
    ensures Answers(Run(c, inputs).outbox) == AllDueAnswers(c, inputs) && NoSidYet(Run(c, inputs))
  {
    hide Step, Answers, Announced, DueAnswer;
    if inputs == [] {
      assert Answers([]) == [] by { NothingAnswered(); }
    } else {
      var n := |inputs| - 1;
      AnsweredExactly(c, inputs[..n]);
      RunKeeps(c, inputs[..n]);
      StepAnswers(Run(c, inputs[..n]), inputs[n]);
    }
  }

  lemma NothingAnswered()
    ensures Answers([]) == []
  {}
}
