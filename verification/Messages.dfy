/** RPC messages, link events and gate states (src/protocol/model.ts, src/core/events.ts, src/core/runtimeGate.ts). */
module Messages {
  import opened Bytes

  /** A structured JSON value; the model never looks inside one. */
  type Json = string

  datatype RpcMessage =
    | Hello(sid: string)
    | Identify(sid: string, randomSeed: bv32, eventMasks: Option<string>)
    | Identified(sid: string)
    | Reidentify(sid: string, eventMasks: Option<string>)
    | Event(sid: string, eventName: string, data: Json)
    | Request(sid: string, requestId: nat, methodName: string, params: Json)
    | Response(sid: string, requestId: nat, status: nat, result: Json)

  const SUCCESS := 0x0000
  const CONTROL_PAYLOAD_INVALID := 0x22
  const CONTROL_OPEN_REQUIRED := 0x24
  const CONTROL_NEGOTIATION_FAILED := 0x27
  const RPC_PAYLOAD_INVALID := 0x33

  datatype GateState = LinkConnected | FramingReady | AppReady | Closing

  function Rank(g: GateState): nat {
    match g
    case LinkConnected => 0
    case FramingReady => 1
    case AppReady => 2
    case Closing => 3
  }

  datatype CoreEvent =
    | RpcRequested(msg: RpcMessage)
    | RpcEventSeen(msg: RpcMessage)
    | StreamData(streamId: nat, data: seq<byte>)
    | LinkReady(heartbeatIntervalMs: nat)
    | LinkOpenRejected(statusCode: nat)
    | LinkClosing
    | HandshakeReady(sid: string)
    | HandshakeError(code: nat)
    | HeartbeatAckSeen
    | Failed(code: nat)

  datatype Outbound = Rpc(msg: RpcMessage) | ControlBody(body: seq<byte>)

  datatype Disposition = ToHandshake | ToBusiness | RespondOpenRequired | Drop

  /** The runtime gate's decision on an inbound message. */
  function ClassifyInbound(gate: GateState, msg: RpcMessage): Disposition {
    if msg.Hello? || msg.Identify? || msg.Identified? then ToHandshake
    else if gate == AppReady then ToBusiness
    else if msg.Request? then RespondOpenRequired
    else Drop
  }
}
