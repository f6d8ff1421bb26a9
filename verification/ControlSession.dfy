/** The framed link's negotiation (src/core/controlSession.ts, src/protocol/codec/control.ts). */
module ControlSession {
  import opened Bytes
  import opened ControlCodec
  import opened Messages

  datatype LinkState = Idle | Opening | Open | LinkClosingState | Closed

  datatype Negotiated = Negotiated(maxFrameSize: nat, heartbeatIntervalMs: nat, selectedRpcEncoding: nat, accepted: bool)

  const MIN_FRAME_SIZE := 15
  const MIN_HEARTBEAT_INTERVAL_MS := 500
  const MAX_HEARTBEAT_INTERVAL_MS := 60000
  const DEFAULT_PAYLOAD_TYPES := 0x07
  const JSON_ENCODING := 0x01
  const ACK_NONE := 0x00

  /** Math.trunc */
  function Truncate(x: real): int {
    if x >= 0.0 then x.Floor else -(-x).Floor
  }

  /** clampHeartbeatInterval; None stands for a value that is not finite. */
  function ClampHeartbeat(ms: Option<real>): (r: nat)
    ensures MIN_HEARTBEAT_INTERVAL_MS <= r <= MAX_HEARTBEAT_INTERVAL_MS
    ensures ms == None || ms.value < MIN_HEARTBEAT_INTERVAL_MS as real ==> r == MIN_HEARTBEAT_INTERVAL_MS
    ensures ms.Some? && ms.value >= MAX_HEARTBEAT_INTERVAL_MS as real ==> r == MAX_HEARTBEAT_INTERVAL_MS
    ensures ms.Some? && MIN_HEARTBEAT_INTERVAL_MS as real <= ms.value < MAX_HEARTBEAT_INTERVAL_MS as real ==>
      r as real <= ms.value < r as real + 1.0
  {
    if ms == None || Truncate(ms.value) < MIN_HEARTBEAT_INTERVAL_MS then MIN_HEARTBEAT_INTERVAL_MS
    else if Truncate(ms.value) > MAX_HEARTBEAT_INTERVAL_MS then MAX_HEARTBEAT_INTERVAL_MS
    else Truncate(ms.value)
  }

  /** A whole number of milliseconds. */
  function ClampWhole(ms: nat): (r: nat)
    ensures MIN_HEARTBEAT_INTERVAL_MS <= r <= MAX_HEARTBEAT_INTERVAL_MS
    ensures MIN_HEARTBEAT_INTERVAL_MS <= ms <= MAX_HEARTBEAT_INTERVAL_MS ==> r == ms
  {
    ClampHeartbeat(Some(ms as real))
  }

  /** The local limits a session is created with. */
  datatype Local = Local(maxFrameSize: nat, heartbeatIntervalMs: nat)

  function DefaultLocal(maxFrameSize: nat, heartbeatIntervalMs: Option<real>): Local {
    Local(maxFrameSize, ClampHeartbeat(heartbeatIntervalMs))
  }

  function OpenParams(l: Local): Params {
    Params(Some(l.maxFrameSize), Some(DEFAULT_PAYLOAD_TYPES), Some(JSON_ENCODING), Some(l.heartbeatIntervalMs), Some(ACK_NONE), None)
  }

  function AcceptParams(maxFrameSize: nat, heartbeatIntervalMs: nat): Params {
    Params(Some(maxFrameSize), Some(DEFAULT_PAYLOAD_TYPES), None, Some(heartbeatIntervalMs), Some(ACK_NONE), Some(JSON_ENCODING))
  }

  function OpenBody(controlId: nat, l: Local): seq<byte> {
    Encode(ControlPayload(OPEN, controlId, SUCCESS, OpenParams(l)))
  }

  function AcceptBody(controlId: nat, maxFrameSize: nat, heartbeatIntervalMs: nat): seq<byte> {
    Encode(ControlPayload(ACCEPT, controlId, SUCCESS, AcceptParams(maxFrameSize, heartbeatIntervalMs)))
  }

  function Plain(opcode: nat, controlId: nat, statusCode: nat): seq<byte> {
    Encode(ControlPayload(opcode, controlId, statusCode, NO_PARAMS))
  }

  datatype State = State(
    physicalServer: bool,
    link: LinkState,
    nextControlId: nat,
    pendingOpenId: Option<nat>,
    negotiated: Option<Negotiated>,
    local: Local)

  /** What the session asks its owner to do, in the order of the source's callbacks. */
  datatype Action =
    | SendBytes(body: seq<byte>)
    | LinkIsReady(negotiated: Negotiated)
    | OpenRejected(statusCode: nat)
    | PeerHeartbeat(controlId: nat)
    | PeerHeartbeatAck(controlId: nat)
    | PeerClosing(controlId: nat)
    | DecodeFailed(code: nat)

  function AllocId(s: State): (State, nat) {
    (s.(nextControlId := (s.nextControlId + 1) % TWO_16), s.nextControlId)
  }

  function SendOpen(s: State): (State, seq<Action>) {
    var (s', id) := AllocId(s);
    (s'.(pendingOpenId := Some(id), link := Opening), [SendBytes(OpenBody(id, s.local))])
  }

  function SendClose(s: State): (State, seq<Action>) {
    var (s', id) := AllocId(s);
    (s'.(link := LinkClosingState), [SendBytes(Plain(CLOSE, id, SUCCESS))])
  }

  predicate Acceptable(tlv: Params) {
    && tlv.maxFrameSize.Some? && tlv.heartbeatIntervalMs.Some? && tlv.supportedPayloadTypes.Some?
    && tlv.supportedRpcEncodings.Some? && tlv.ackMode.Some?
    && tlv.maxFrameSize.value >= MIN_FRAME_SIZE
    && tlv.supportedRpcEncodings.value % 2 == 1
  }

  function Min(a: nat, b: nat): (m: nat)
    ensures m <= a && m <= b && (m == a || m == b)
  {
    if a <= b then a else b
  }

  function HandleOpen(s: State, controlId: nat, tlv: Params): (State, seq<Action>) {
    if !s.physicalServer || s.link == Closed || s.link == LinkClosingState then (s, [])
    else if !Acceptable(tlv) then (s, [SendBytes(Plain(ACCEPT, controlId, CONTROL_NEGOTIATION_FAILED))])
    else
      var size := Min(s.local.maxFrameSize, tlv.maxFrameSize.value);
      var interval := ClampWhole(tlv.heartbeatIntervalMs.value);
      var n := Negotiated(size, interval, JSON_ENCODING, true);
      (s.(link := Open, negotiated := Some(n)), [SendBytes(AcceptBody(controlId, size, interval)), LinkIsReady(n)])
  }

  function Or(v: Option<nat>, default: nat): nat {
    if v.Some? then v.value else default
  }

  function HandleAccept(s: State, controlId: nat, statusCode: nat, tlv: Params): (State, seq<Action>) {
    if s.physicalServer || s.pendingOpenId != Some(controlId) then (s, [])
    else if statusCode != SUCCESS then
      (s.(pendingOpenId := None, negotiated := Some(Negotiated(0, 0, 0, false))), [OpenRejected(statusCode)])
    else
      var n := Negotiated(Or(tlv.maxFrameSize, s.local.maxFrameSize), Or(tlv.heartbeatIntervalMs, s.local.heartbeatIntervalMs),
                          Or(tlv.selectedRpcEncoding, JSON_ENCODING), true);
      (s.(pendingOpenId := None, link := Open, negotiated := Some(n)), [LinkIsReady(n)])
  }

  function HandlePayload(s: State, p: ControlPayload): (State, seq<Action>) {
    if p.opcode == OPEN then HandleOpen(s, p.controlId, p.tlv)
    else if p.opcode == ACCEPT then HandleAccept(s, p.controlId, p.statusCode, p.tlv)
    else if p.opcode == HEARTBEAT then (s, [PeerHeartbeat(p.controlId)])
    else if p.opcode == HEARTBEAT_ACK then (s, [PeerHeartbeatAck(p.controlId)])
    else if p.opcode == CLOSE then
      (s.(link := Closed), [SendBytes(Plain(CLOSE_ACK, p.controlId, SUCCESS)), PeerClosing(p.controlId)])
    else if p.opcode == CLOSE_ACK then (s.(link := Closed), [])
    else (s, [])
  }

  function HandleBody(s: State, body: seq<byte>): (State, seq<Action>) {
    var p := Decode(body);
    if p == None then (s, [DecodeFailed(CONTROL_PAYLOAD_INVALID)]) else HandlePayload(s, p.value)
  }

  // ---------- The bodies survive the wire ----------

  predicate GoodLocal(l: Local) {
    && MIN_FRAME_SIZE <= l.maxFrameSize < TWO_16
    && MIN_HEARTBEAT_INTERVAL_MS <= l.heartbeatIntervalMs <= MAX_HEARTBEAT_INTERVAL_MS
  }

  lemma OpenDecodes(controlId: nat, l: Local)
    requires controlId < TWO_16 && GoodLocal(l)
    ensures Decode(OpenBody(controlId, l)) == Some(ControlPayload(OPEN, controlId, SUCCESS, OpenParams(l)))
  {
    RoundTrip(ControlPayload(OPEN, controlId, SUCCESS, OpenParams(l)));
  }

  lemma AcceptDecodes(controlId: nat, maxFrameSize: nat, heartbeatIntervalMs: nat)
    requires controlId < TWO_16 && maxFrameSize < TWO_16 && heartbeatIntervalMs < TWO_16
    ensures Decode(AcceptBody(controlId, maxFrameSize, heartbeatIntervalMs)) ==
            Some(ControlPayload(ACCEPT, controlId, SUCCESS, AcceptParams(maxFrameSize, heartbeatIntervalMs)))
  {
    RoundTrip(ControlPayload(ACCEPT, controlId, SUCCESS, AcceptParams(maxFrameSize, heartbeatIntervalMs)));
  }

  lemma PlainDecodes(opcode: nat, controlId: nat, statusCode: nat)
    requires opcode < 256 && controlId < TWO_16 && statusCode < TWO_16
    ensures Decode(Plain(opcode, controlId, statusCode)) == Some(ControlPayload(opcode, controlId, statusCode, NO_PARAMS))
  {
    RoundTrip(ControlPayload(opcode, controlId, statusCode, NO_PARAMS));
  }

  /** OPEN and ACCEPT have bodies of 22 bytes, so they need frames of 36 to travel whole. */
  lemma NegotiationSizes(controlId: nat, l: Local, maxFrameSize: nat, heartbeatIntervalMs: nat)
    ensures |OpenBody(controlId, l)| == 22 && |AcceptBody(controlId, maxFrameSize, heartbeatIntervalMs)| == 22
  {}

  const PLAIN_SIZE := 5

  lemma PlainSize(opcode: nat, controlId: nat, statusCode: nat)
    ensures |Plain(opcode, controlId, statusCode)| == PLAIN_SIZE
  {}

  // ---------- Agreement ----------

  /** OPEN, then ACCEPT: both ends hold the smaller of the two limits and one heartbeat interval. */
  lemma NegotiationAgrees(client: State, server: State)
    requires !client.physicalServer && client.pendingOpenId == None && client.nextControlId < TWO_16 && GoodLocal(client.local)
    requires server.physicalServer && server.link != Closed && server.link != LinkClosingState && GoodLocal(server.local)
    ensures var (c1, open) := SendOpen(client);
      var (s1, answer) := HandleBody(server, open[0].body);
      && |answer| == 2 && answer[0].SendBytes? && answer[1].LinkIsReady?
      && var (c2, ready) := HandleBody(c1, answer[0].body);
      && var m := Min(client.local.maxFrameSize, server.local.maxFrameSize);
      && var n := Negotiated(m, client.local.heartbeatIntervalMs, JSON_ENCODING, true);
      && s1.negotiated == Some(n) && c2.negotiated == Some(n)
      && s1.link == Open && c2.link == Open
      && answer[1] == LinkIsReady(n) && ready == [LinkIsReady(n)]
  {
    hide OpenBody, AcceptBody;
    OpenDecodes(client.nextControlId, client.local);
    AcceptDecodes(client.nextControlId, Min(client.local.maxFrameSize, server.local.maxFrameSize), client.local.heartbeatIntervalMs);
  }

  // ---------- The session object ----------

  class Session {
    const physicalServer: bool
    const localParams: Local
    var linkState: LinkState
    var nextControlId: nat
    var pendingOpenId: Option<nat>
    var negotiated: Option<Negotiated>

    ghost function View(): State
      reads this
    {
      State(physicalServer, linkState, nextControlId, pendingOpenId, negotiated, localParams)
    }

    constructor (physicalServer: bool, localParams: Local)
      ensures View() == State(physicalServer, Idle, 1, None, None, localParams)
    {
      this.physicalServer := physicalServer;
      this.localParams := localParams;
      linkState := Idle;
      nextControlId := 1;
      pendingOpenId := None;
      negotiated := None;
    }

    method AllocControlId() returns (id: nat)
      modifies this`nextControlId
      ensures (View(), id) == AllocId(old(View()))
    {
      id := nextControlId;
      nextControlId := (nextControlId + 1) % TWO_16;
    }

    method StartOpen() returns (actions: seq<Action>)
      modifies this
      ensures (View(), actions) == SendOpen(old(View()))
    {
      var controlId := AllocControlId();
      pendingOpenId := Some(controlId);
      linkState := Opening;
      actions := [SendBytes(OpenBody(controlId, localParams))];
    }

    method StartClose() returns (actions: seq<Action>)
      modifies this
      ensures (View(), actions) == SendClose(old(View()))
    {
      var controlId := AllocControlId();
      linkState := LinkClosingState;
      actions := [SendBytes(Plain(CLOSE, controlId, SUCCESS))];
    }

    method HandleControlBody(body: seq<byte>) returns (actions: seq<Action>)
      modifies this
      ensures (View(), actions) == HandleBody(old(View()), body)
    {
      var decoded := DecodeControl(body);
      if decoded == None { return [DecodeFailed(CONTROL_PAYLOAD_INVALID)]; }
      var p := decoded.value;
      if p.opcode == OPEN {
        actions := OpenArrived(p.controlId, p.tlv);
      } else if p.opcode == ACCEPT {
        actions := AcceptArrived(p.controlId, p.statusCode, p.tlv);
      } else if p.opcode == HEARTBEAT {
        actions := [PeerHeartbeat(p.controlId)];
      } else if p.opcode == HEARTBEAT_ACK {
        actions := [PeerHeartbeatAck(p.controlId)];
      } else if p.opcode == CLOSE {
        linkState := Closed;
        actions := [SendBytes(Plain(CLOSE_ACK, p.controlId, SUCCESS)), PeerClosing(p.controlId)];
      } else if p.opcode == CLOSE_ACK {
        linkState := Closed;
        actions := [];
      } else {
        actions := [];
      }
    }

    method OpenArrived(controlId: nat, tlv: Params) returns (actions: seq<Action>)
      modifies this
      ensures (View(), actions) == HandleOpen(old(View()), controlId, tlv)
    {
      if !physicalServer { return []; }
      if linkState == Closed || linkState == LinkClosingState { return []; }
      if !Acceptable(tlv) { return [SendBytes(Plain(ACCEPT, controlId, CONTROL_NEGOTIATION_FAILED))]; }
      var maxFrameSize := Min(localParams.maxFrameSize, tlv.maxFrameSize.value);
      var heartbeatIntervalMs := ClampWhole(tlv.heartbeatIntervalMs.value);
      actions := [SendBytes(AcceptBody(controlId, maxFrameSize, heartbeatIntervalMs))];
      linkState := Open;
      negotiated := Some(Negotiated(maxFrameSize, heartbeatIntervalMs, JSON_ENCODING, true));
      actions := actions + [LinkIsReady(negotiated.value)];
      assert actions == [SendBytes(AcceptBody(controlId, maxFrameSize, heartbeatIntervalMs)), LinkIsReady(negotiated.value)];
    }

    method AcceptArrived(controlId: nat, statusCode: nat, tlv: Params) returns (actions: seq<Action>)
      modifies this
      ensures (View(), actions) == HandleAccept(old(View()), controlId, statusCode, tlv)
    {
      if physicalServer { return []; }
      if Some(controlId) != pendingOpenId { return []; }
      pendingOpenId := None;
      if statusCode != SUCCESS {
        negotiated := Some(Negotiated(0, 0, 0, false));
        return [OpenRejected(statusCode)];
      }
      linkState := Open;
      negotiated := Some(Negotiated(Or(tlv.maxFrameSize, localParams.maxFrameSize),
                                    Or(tlv.heartbeatIntervalMs, localParams.heartbeatIntervalMs),
                                    Or(tlv.selectedRpcEncoding, JSON_ENCODING), true));
      actions := [LinkIsReady(negotiated.value)];
    }
  }
}
