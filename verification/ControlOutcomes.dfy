/** What the link's control messages look like on the wire, and what becomes of them: refusals, closing and heartbeats
    (src/core/controlSession.ts, src/protocol/codec/control.ts). */
module ControlOutcomes {
  import opened Bytes
  import opened ControlCodec
  import opened ControlSession
  import Messages
  import Core

  function High(n: nat): byte {
    n / 256 % 256
  }

  function Low(n: nat): byte {
    n % 256
  }

  /** A body with no parameters. */
  function Bare(opcode: byte, controlId: nat, status: nat): seq<byte> {
    [opcode, High(controlId), Low(controlId), High(status), Low(status)]
  }

  // ---------- The bytes ----------

  lemma PlainBytes(opcode: byte, controlId: nat, status: nat)
    ensures Plain(opcode, controlId, status) == Bare(opcode, controlId, status)
  {
    BigEndian1(opcode);
    BigEndian2(controlId);
    BigEndian2(status);
  }

  lemma BigEndian1(value: byte)
    ensures BigEndian(value, 1) == [value]
  {
    assert BigEndian(value, 1) == BigEndian(value / 256, 0) + [value % 256];
  }

  /** OPEN: the limit, all three payload types, JSON only, the heartbeat interval, no acknowledgements. */
  lemma OpenBytes(controlId: nat, l: Local)
    ensures OpenBody(controlId, l) ==
      Bare(0x01, controlId, 0) + [0x04, 2, High(l.maxFrameSize), Low(l.maxFrameSize), 0x07, 1, 0x07, 0x08, 1, 0x01,
                                  0x0A, 2, High(l.heartbeatIntervalMs), Low(l.heartbeatIntervalMs), 0x0B, 1, 0x00]
  {
    hide BigEndian;
    HeadIs(0x01, controlId);
    BigEndian2(l.maxFrameSize);
    BigEndian2(l.heartbeatIntervalMs);
    BigEndian1(0x07);
    BigEndian1(0x01);
    BigEndian1(0x00);
  }

  lemma HeadIs(opcode: byte, controlId: nat)
    ensures HeadBytes(opcode, controlId, 0) == Bare(opcode, controlId, 0)
  {
    BigEndian1(opcode);
    BigEndian2(controlId);
    BigEndian2(0);
  }

  /** ACCEPT: the same for the agreed terms, with the encoding that was chosen. */
  lemma AcceptBytes(controlId: nat, maxFrameSize: nat, heartbeatIntervalMs: nat)
    ensures AcceptBody(controlId, maxFrameSize, heartbeatIntervalMs) ==
      Bare(0x02, controlId, 0) + [0x04, 2, High(maxFrameSize), Low(maxFrameSize), 0x07, 1, 0x07,
                                  0x0A, 2, High(heartbeatIntervalMs), Low(heartbeatIntervalMs), 0x0B, 1, 0x00, 0x1E, 1, 0x01]
  {
    hide BigEndian;
    HeadIs(0x02, controlId);
    BigEndian2(maxFrameSize);
    BigEndian2(heartbeatIntervalMs);
    BigEndian1(0x07);
    BigEndian1(0x00);
    BigEndian1(0x01);
  }

  /** Reading a body with no parameters. */
  lemma BareDecodes(opcode: byte, controlId: nat, status: nat)
    requires controlId < TWO_16 && status < TWO_16
    ensures Decode(Bare(opcode, controlId, status)) == Some(ControlPayload(opcode, controlId, status, NO_PARAMS))
  {
    PlainBytes(opcode, controlId, status);
    PlainDecodes(opcode, controlId, status);
  }

  // ---------- Any bytes at all ----------

  /** Too few bytes for the entry they begin. */
  predicate IsStub(t: seq<byte>) {
    || |t| < 2
    || (t[1] != 0xFF && |t| < 2 + t[1] as nat)
    || (t[1] == 0xFF && (|t| < 4 || |t| < 4 + (t[2] as nat * 256 + t[3] as nat)))
  }

  /** An entry of one, two or four bytes that is cut short. */
  predicate IsCutShort(t: seq<byte>) {
    |t| >= 2 && (t[1] == 1 || t[1] == 2 || t[1] == 4) && |t| < 2 + t[1] as nat
  }

  lemma ShortEntry(s: seq<byte>) returns (i: Item, rest: seq<byte>)
    requires |s| >= 2 && (s[1] == 1 || s[1] == 2 || s[1] == 4) && |s| >= 2 + s[1] as nat
    ensures i.Valid() && s == i.Bytes() + rest && |rest| < |s|
  {
    hide BigEndian, FromBigEndian, Pow256;
    var len := s[1] as nat;
    SpellsBack(s[2..2 + len]);
    i, rest := Short(s[0], FromBigEndian(s[2..2 + len]), s[1]), s[2 + len..];
  }

  lemma OddEntry(s: seq<byte>) returns (i: Item, rest: seq<byte>)
    requires |s| >= 2 && s[1] != 1 && s[1] != 2 && s[1] != 4 && s[1] != 0xFF && |s| >= 2 + s[1] as nat
    ensures i.Valid() && s == i.Bytes() + rest && |rest| < |s|
  {
    var len := s[1] as nat;
    i, rest := Odd(s[0], s[2..2 + len]), s[2 + len..];
  }

  lemma ExtendedEntry(s: seq<byte>, n: nat) returns (i: Item, rest: seq<byte>)
    requires |s| >= 4 && s[1] == 0xFF && n == s[2] as nat * 256 + s[3] as nat && |s| >= 4 + n
    ensures i.Valid() && s == i.Bytes() + rest && |rest| < |s|
  {
    hide BigEndian;
    BigEndian2(n);
    i, rest := Extended(s[0], s[4..4 + n]), s[4 + n..];
    assert i.Bytes() == s[..4 + n];
  }

  lemma FirstEntry(s: seq<byte>) returns (i: Item, rest: seq<byte>)
    requires !IsStub(s)
    ensures i.Valid() && s == i.Bytes() + rest && |rest| < |s|
  {
    hide BigEndian, FromBigEndian;
    if s[1] == 0xFF { i, rest := ExtendedEntry(s, s[2] as nat * 256 + s[3] as nat); }
    else if s[1] == 1 || s[1] == 2 || s[1] == 4 { i, rest := ShortEntry(s); }
    else { i, rest := OddEntry(s); }
  }

  lemma {:induction false} SpellsBack(s: seq<byte>)
    ensures BigEndian(FromBigEndian(s), |s|) == s && FromBigEndian(s) < Pow256(|s|)
  {
    if s != [] {
      SpellsBack(s[..|s| - 1]);
      assert s == s[..|s| - 1] + [s[|s| - 1]];
    }
  }

  /** Any bytes are well-formed entries and then a stub. */
  lemma {:induction false} EntriesThenStub(s: seq<byte>) returns (items: seq<Item>, tail: seq<byte>)
    ensures AllValid(items) && s == Serialise(items) + tail && IsStub(tail)
    decreases |s|
  {
    if IsStub(s) {
      items, tail := [], s;
      assert [] + s == s;
    } else {
      var i, rest := FirstEntry(s);
      var more;
      more, tail := EntriesThenStub(rest);
      items := [i] + more;
      assert items[1..] == more;
      Associative(i.Bytes(), Serialise(more), tail);
    }
  }

  lemma ReadStub(t: seq<byte>, p: Params)
    requires IsStub(t)
    ensures ReadParams(t, p) == if IsCutShort(t) then None else Some(p)
  {}

  lemma {:induction false} ReadThenStub(items: seq<Item>, tail: seq<byte>, p: Params)
    requires AllValid(items) && IsStub(tail)
    ensures ReadParams(Serialise(items) + tail, p) == if IsCutShort(tail) then None else Some(Apply(items, p))
    decreases |items|
  {
    hide ReadTlv, IsStub, Set;
    if items == [] {
      assert [] + tail == tail;
      ReadStub(tail, p);
    } else {
      var i, rest := items[0], Serialise(items[1..]) + tail;
      Associative(i.Bytes(), Serialise(items[1..]), tail);
      if i.Short? {
        ReadShort(i, rest);
        ReadThenStub(items[1..], tail, Set(p, i.tag, i.value));
      } else {
        if i.Odd? { ReadOdd(i, rest); } else { ReadExtended(i, rest); }
        ReadThenStub(items[1..], tail, p);
      }
    }
  }

  /** So any body of at least five bytes is read as its head and the entries in it that have one, two or four bytes, and
      fails exactly when it ends in one of those cut short; a shorter body fails. */
  lemma AnyBodyDecodes(body: seq<byte>) returns (items: seq<Item>, tail: seq<byte>)
    ensures |body| < 5 ==> Decode(body) == None
    ensures |body| >= 5 ==>
      && AllValid(items) && IsStub(tail) && body[5..] == Serialise(items) + tail
      && Decode(body) == if IsCutShort(tail) then None
                         else Some(ControlPayload(body[0], body[1] as nat * 256 + body[2] as nat,
                                                  body[3] as nat * 256 + body[4] as nat, Apply(items, NO_PARAMS)))
  {
    hide ReadParams;
    items, tail := [], [];
    if |body| >= 5 {
      items, tail := EntriesThenStub(body[5..]);
      ReadThenStub(items, tail, NO_PARAMS);
    }
  }

  // ---------- Refusal ----------

  /** An OPEN that cannot be accepted: something is missing, the limit leaves no room for a byte, or no JSON. */
  predicate Unacceptable(p: Params) {
    || p.maxFrameSize == None || p.heartbeatIntervalMs == None || p.supportedPayloadTypes == None
    || p.supportedRpcEncodings == None || p.ackMode == None
    || p.maxFrameSize.value <= 14 || p.supportedRpcEncodings.value % 2 == 0
  }

  /** An end that waits refuses an OPEN with ControlNegotiationFailed under its id, and stays as it was; the opener
      reports the refusal and is not linked. So an OPEN is answered by a refusal if and only if it is unacceptable. */
  lemma RefusalIsTold(server: State, client: State, body: seq<byte>, p: ControlPayload)
    requires Decode(body) == Some(p) && p.opcode == 0x01 && p.controlId < TWO_16
    requires server.physicalServer && server.link != Closed && server.link != LinkClosingState
    requires !client.physicalServer && client.pendingOpenId == Some(p.controlId)
    ensures var refusal := Bare(0x02, p.controlId, 0x27);
      && (Unacceptable(p.tlv) <==> HandleBody(server, body) == (server, [SendBytes(refusal)]))
      && HandleBody(client, refusal) ==
           (client.(pendingOpenId := None, negotiated := Some(Negotiated(0, 0, 0, false))), [OpenRejected(0x27)])
  {
    hide Decode, Plain, AcceptBody;
    PlainBytes(0x02, p.controlId, 0x27);
    BareDecodes(0x02, p.controlId, 0x27);
  }

  // ---------- Closing ----------

  /** CLOSE is answered under its id; both ends are closed then, and the one that was asked says so. */
  lemma ClosingIsAnswered(closer: State, other: State)
    requires closer.nextControlId < TWO_16
    ensures var id := closer.nextControlId; var (c1, said) := SendClose(closer); var ack := Bare(0x0B, id, 0);
      && said == [SendBytes(Bare(0x0A, id, 0))] && c1.link == LinkClosingState
      && HandleBody(other, Bare(0x0A, id, 0)) == (other.(link := Closed), [SendBytes(ack), PeerClosing(id)])
      && HandleBody(c1, ack) == (c1.(link := Closed), [])
  {
    hide Decode, Plain;
    var id := closer.nextControlId;
    PlainBytes(0x0A, id, 0);
    PlainBytes(0x0B, id, 0);
    BareDecodes(0x0A, id, 0);
    BareDecodes(0x0B, id, 0);
  }

  /** A link that is closing or closed takes no OPEN. */
  lemma ClosedTakesNoOpen(s: State, body: seq<byte>, p: ControlPayload)
    requires Decode(body) == Some(p) && p.opcode == 0x01 && (s.link == Closed || s.link == LinkClosingState)
    ensures HandleBody(s, body) == (s, [])
  {
    hide Decode;
  }

  // ---------- Heartbeats and ids ----------

  /** A heartbeat is answered under its id, an acknowledgement is reported, and neither changes the link. */
  lemma HeartbeatIsAnswered(c: Core.Core, controlId: nat)
    requires c.control.Some? && controlId < TWO_16
    ensures Core.HandleControlBody(c, Bare(0x04, controlId, 0)) ==
            c.(outbox := c.outbox + [Core.Sent(Messages.ControlBody(Bare(0x05, controlId, 0)), c.maxFrameSize)])
    ensures Core.HandleControlBody(c, Bare(0x05, controlId, 0)) == c.(events := c.events + [Messages.HeartbeatAckSeen])
  {
    hide Decode, Plain;
    BareDecodes(0x04, controlId, 0);
    BareDecodes(0x05, controlId, 0);
    PlainBytes(0x05, controlId, 0);
    var s := c.control.value;
    OneAction(c, PeerHeartbeat(controlId));
    OneAction(c, PeerHeartbeatAck(controlId));
    assert c.(control := Some(s)) == c;
  }

  lemma OneAction(c: Core.Core, a: Action)
    ensures Core.RunActions(c, [a]) == Core.RunAction(c, a)
  {
    hide Core.RunAction;
    assert [a][1..] == [];
    assert Core.RunActions(Core.RunAction(c, a), []) == Core.RunAction(c, a);
  }

  function AfterIds(s: State, n: nat): State {
    if n == 0 then s else AllocId(AfterIds(s, n - 1)).0
  }

  /** Control ids count up from one and come round again after 65536. */
  lemma {:induction false} IdsCount(s: State, n: nat)
    requires s.nextControlId == 1
    ensures AllocId(AfterIds(s, n)).1 == (n + 1) % 0x1_0000
  {
    if n > 0 {
      IdsCount(s, n - 1);
      Round(n);
    }
  }

  lemma Round(n: nat)
    ensures (n % 0x1_0000 + 1) % 0x1_0000 == (n + 1) % 0x1_0000
  {}
}
