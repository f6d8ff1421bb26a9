/** The encodings of payloads that the rest of the model does not look into (src/protocol/codec/jsonRpc.ts,
    src/protocol/codec/payload.ts, src/protocol/codec/stream.ts). */
module PayloadCodec {
  import opened Bytes
  import opened Messages

  /** What decoding an RPC payload comes to. */
  datatype Decoded = Parsed(msg: RpcMessage) | Broken(code: nat) | Blank

  datatype Codec = Codec(
    encodeRpc: RpcMessage -> seq<byte>,
    decodeRpc: seq<byte> -> Decoded,
    decodeStream: seq<byte> -> Option<(nat, seq<byte>)>)

  /** A message as it comes out at the other end: an empty mask is not sent, a request id out of range reads
      as zero, and data may come back in another form. */
  predicate Carries(m: RpcMessage, n: RpcMessage) {
    match m
    case Hello(sid) => n == Hello(sid)
    case Identify(sid, randomSeed, masks) => n == Identify(sid, randomSeed, if masks == Some("") then None else masks)
    case Identified(sid) => n == Identified(sid)
    case Reidentify(sid, masks) => n == Reidentify(sid, masks)
    case Event(sid, eventName, _) => n.Event? && n.sid == sid && n.eventName == eventName
    case Request(sid, id, methodName, _) =>
      n.Request? && n.sid == sid && n.methodName == methodName && n.requestId == if 0 < id < TWO_32 then id else 0
    case Response(sid, id, status, _) =>
      n.Response? && n.sid == sid && n.status == status && n.requestId == if 0 < id < TWO_32 then id else 0
  }

  /** Decoding what was encoded gives the message back. */
  ghost predicate Faithful(codec: Codec) {
    forall m: RpcMessage :: (m.Response? ==> m.status < TWO_32) ==>
      (codec.decodeRpc(codec.encodeRpc(m)).Parsed? && Carries(m, codec.decodeRpc(codec.encodeRpc(m)).msg))
  }

  /** The bytes that a core hands to its wire. */
  function BodyOf(m: Outbound, codec: Codec): seq<byte> {
    match m
    case ControlBody(body) => body
    case Rpc(msg) => codec.encodeRpc(msg)
  }
}
