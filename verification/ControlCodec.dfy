/** The CONTROL payload codec (src/protocol/codec/control.ts): opcode, control id, status code, TLV entries. */
module ControlCodec {
  import opened Bytes
  import opened Io

  const OPEN := 0x01
  const ACCEPT := 0x02
  const HEARTBEAT := 0x04
  const HEARTBEAT_ACK := 0x05
  const CLOSE := 0x0A
  const CLOSE_ACK := 0x0B

  const TAG_MAX_FRAME_SIZE: byte := 0x04
  const TAG_SUPPORTED_PAYLOAD_TYPES: byte := 0x07
  const TAG_SUPPORTED_RPC_ENCODINGS: byte := 0x08
  const TAG_HEARTBEAT_INTERVAL: byte := 0x0A
  const TAG_ACK_MODE: byte := 0x0B
  const TAG_SELECTED_RPC_ENCODING: byte := 0x1E

  /** NegotiationParams, all of them optional as in the decoder's result. */
  datatype Params = Params(
    maxFrameSize: Option<nat>,
    supportedPayloadTypes: Option<nat>,
    supportedRpcEncodings: Option<nat>,
    heartbeatIntervalMs: Option<nat>,
    ackMode: Option<nat>,
    selectedRpcEncoding: Option<nat>)

  const NO_PARAMS := Params(None, None, None, None, None, None)

  datatype ControlPayload = ControlPayload(opcode: nat, controlId: nat, statusCode: nat, tlv: Params)

  // ---------- Writing ----------

  function TlvBytes(tag: byte, value: Option<nat>, width: byte): seq<byte> {
    if value == None then [] else [tag, width] + BigEndian(value.value, width)
  }

  function ParamBytes(p: Params): seq<byte> {
    TlvBytes(TAG_MAX_FRAME_SIZE, p.maxFrameSize, 2)
    + TlvBytes(TAG_SUPPORTED_PAYLOAD_TYPES, p.supportedPayloadTypes, 1)
    + TlvBytes(TAG_SUPPORTED_RPC_ENCODINGS, p.supportedRpcEncodings, 1)
    + TlvBytes(TAG_HEARTBEAT_INTERVAL, p.heartbeatIntervalMs, 2)
    + TlvBytes(TAG_ACK_MODE, p.ackMode, 1)
    + TlvBytes(TAG_SELECTED_RPC_ENCODING, p.selectedRpcEncoding, 1)
  }

  function HeadBytes(opcode: nat, controlId: nat, statusCode: nat): (s: seq<byte>)
    ensures |s| == 5
  {
    BigEndian(opcode, 1) + BigEndian(controlId, 2) + BigEndian(statusCode, 2)
  }

  function Encode(p: ControlPayload): seq<byte> {
    HeadBytes(p.opcode, p.controlId, p.statusCode) + ParamBytes(p.tlv)
  }

  // ---------- Reading ----------

  datatype TlvRead = End | Malformed | Entry(tag: byte, value: nat, rest: seq<byte>)

  /** The first entry that can be read; entries of other widths and extended entries are skipped. */
  function ReadTlv(s: seq<byte>): (r: TlvRead)
    ensures r.Entry? ==> |r.rest| < |s|
    decreases |s|
  {
    if |s| < 2 then End
    else
      var len := s[1] as nat;
      if len == 0xFF then
        if |s| < 4 || |s| < 4 + U16At(s, 2) then End else ReadTlv(s[4 + U16At(s, 2)..])
      else if len == 1 || len == 2 || len == 4 then
        if |s| < 2 + len then Malformed else Entry(s[0], FromBigEndian(s[2..2 + len]), s[2 + len..])
      else if |s| < 2 + len then End
      else ReadTlv(s[2 + len..])
  }

  function Set(p: Params, tag: byte, value: nat): Params {
    if tag == TAG_MAX_FRAME_SIZE then p.(maxFrameSize := Some(value))
    else if tag == TAG_SUPPORTED_PAYLOAD_TYPES then p.(supportedPayloadTypes := Some(value))
    else if tag == TAG_SUPPORTED_RPC_ENCODINGS then p.(supportedRpcEncodings := Some(value))
    else if tag == TAG_HEARTBEAT_INTERVAL then p.(heartbeatIntervalMs := Some(value))
    else if tag == TAG_ACK_MODE then p.(ackMode := Some(value))
    else if tag == TAG_SELECTED_RPC_ENCODING then p.(selectedRpcEncoding := Some(value))
    else p
  }

  /** None where the source throws: a 1-, 2- or 4-byte entry cut short. */
  function ReadParams(s: seq<byte>, p: Params): Option<Params>
    decreases |s|
  {
    match ReadTlv(s)
    case End => Some(p)
    case Malformed => None
    case Entry(tag, value, rest) => ReadParams(rest, Set(p, tag, value))
  }

  function Decode(body: seq<byte>): Option<ControlPayload> {
    if |body| < 5 then None
    else
      var tlv := ReadParams(body[5..], NO_PARAMS);
      if tlv == None then None else Some(ControlPayload(body[0], U16At(body, 1), U16At(body, 3), tlv.value))
  }

  // ---------- Entries as a grammar ----------

  /** A well-formed entry: one that is read, one of another width, or one in the extended form. */
  datatype Item =
    | Short(tag: byte, value: nat, width: byte)
    | Odd(tag: byte, bytes: seq<byte>)
    | Extended(tag: byte, bytes: seq<byte>)
  {
    predicate Valid() {
      match this
      case Short(_, value, width) => (width == 1 || width == 2 || width == 4) && value < Pow256(width)
      case Odd(_, bytes) => |bytes| < 0xFF && |bytes| != 1 && |bytes| != 2 && |bytes| != 4
      case Extended(_, bytes) => |bytes| < TWO_16
    }

    function Bytes(): seq<byte>
      requires Valid()
    {
      match this
      case Short(tag, value, width) => [tag, width] + BigEndian(value, width)
      case Odd(tag, bytes) => [tag, |bytes|] + bytes
      case Extended(tag, bytes) => [tag, 0xFF] + BigEndian(|bytes|, 2) + bytes
    }

    /** Entries that say something the decoder listens to. */
    predicate Known() {
      Short? && Set(NO_PARAMS, tag, value) != NO_PARAMS
    }
  }

  ghost predicate AllValid(items: seq<Item>) {
    forall i :: i in items ==> i.Valid()
  }

  function Serialise(items: seq<Item>): seq<byte>
    requires AllValid(items)
  {
    if items == [] then [] else items[0].Bytes() + Serialise(items[1..])
  }

  function Apply(items: seq<Item>, p: Params): Params {
    if items == [] then p
    else Apply(items[1..], if items[0].Short? then Set(p, items[0].tag, items[0].value) else p)
  }

  function KnownOnly(items: seq<Item>): seq<Item> {
    if items == [] then []
    else (if items[0].Known() then [items[0]] else []) + KnownOnly(items[1..])
  }

  lemma ReadShort(i: Item, rest: seq<byte>)
    requires i.Short? && i.Valid()
    ensures ReadTlv(i.Bytes() + rest) == Entry(i.tag, i.value, rest)
  {
    var s := i.Bytes() + rest;
    assert s[2..2 + i.width] == BigEndian(i.value, i.width);
    BigEndianRoundTrip(i.value, i.width);
    assert s[2 + i.width..] == rest;
  }

  lemma ReadOdd(i: Item, rest: seq<byte>)
    requires i.Odd? && i.Valid()
    ensures ReadTlv(i.Bytes() + rest) == ReadTlv(rest)
  {
    var s := i.Bytes() + rest;
    assert s[2 + |i.bytes|..] == rest;
  }

  lemma ReadExtended(i: Item, rest: seq<byte>)
    requires i.Extended? && i.Valid()
    ensures ReadTlv(i.Bytes() + rest) == ReadTlv(rest)
  {
    hide ReadTlv, U16At;
    var s := i.Bytes() + rest;
    ExtendedParts([i.tag, 0xFF], BigEndian(|i.bytes|, 2), i.bytes, rest);
    U16AtBigEndian(s, 2, |i.bytes|);
    ReadTlvExtended(s);
  }

  lemma ExtendedParts(a: seq<byte>, b: seq<byte>, c: seq<byte>, d: seq<byte>)
    requires |a| == 2 && |b| == 2
    ensures var s := a + b + c + d;
      s[1] == a[1] && s[2..4] == b && s[4 + |c|..] == d
  {}

  /** How an entry is read, by its length byte. */
  lemma ReadTlvExtended(s: seq<byte>)
    requires |s| >= 2 && s[1] == 0xFF
    ensures ReadTlv(s) == if |s| < 4 || |s| < 4 + U16At(s, 2) then End else ReadTlv(s[4 + U16At(s, 2)..])
  {
    hide U16At;
  }

  lemma ReadTlvShort(s: seq<byte>)
    requires |s| >= 2 && (s[1] == 1 || s[1] == 2 || s[1] == 4)
    ensures var len := s[1] as nat;
      ReadTlv(s) == if |s| < 2 + len then Malformed else Entry(s[0], FromBigEndian(s[2..2 + len]), s[2 + len..])
  {
    hide FromBigEndian;
  }

  lemma ReadTlvOdd(s: seq<byte>)
    requires |s| >= 2 && s[1] != 1 && s[1] != 2 && s[1] != 4 && s[1] != 0xFF
    ensures ReadTlv(s) == if |s| < 2 + s[1] as nat then End else ReadTlv(s[2 + s[1] as nat..])
  {}

  lemma DropDrop(s: seq<byte>, a: nat, b: nat)
    requires a + b <= |s|
    ensures s[a..][b..] == s[a + b..] && s[a..][..b] == s[a..a + b]
    ensures b >= 2 ==> U16At(s[a..], 0) == U16At(s, a)
  {}

  /** Reading a well-formed list of entries applies exactly the entries that are read, in order. */
  lemma {:induction false} ReadSerialised(items: seq<Item>, p: Params)
    requires AllValid(items)
    ensures ReadParams(Serialise(items), p) == Some(Apply(items, p))
    decreases |items|
  {
    if items != [] {
      var i, rest := items[0], Serialise(items[1..]);
      if i.Short? {
        ReadShort(i, rest);
        ReadSerialised(items[1..], Set(p, i.tag, i.value));
      } else {
        if i.Odd? { ReadOdd(i, rest); } else { ReadExtended(i, rest); }
        ReadSerialised(items[1..], p);
      }
    }
  }

  lemma UnknownSets(i: Item, p: Params)
    requires i.Short? && !i.Known()
    ensures Set(p, i.tag, i.value) == p
  {}

  /** Entries with unknown tags, odd widths or the extended form change nothing. */
  lemma {:induction false} ApplyKnown(items: seq<Item>, p: Params)
    ensures Apply(items, p) == Apply(KnownOnly(items), p)
    decreases |items|
  {
    if items != [] {
      var i := items[0];
      if i.Known() {
        ApplyKnown(items[1..], Set(p, i.tag, i.value));
        assert KnownOnly(items) == [i] + KnownOnly(items[1..]);
        assert KnownOnly(items)[1..] == KnownOnly(items[1..]);
      } else {
        if i.Short? { UnknownSets(i, p); }
        ApplyKnown(items[1..], p);
        assert KnownOnly(items) == KnownOnly(items[1..]);
      }
    }
  }

  // ---------- The round trip ----------

  function One(tag: byte, value: Option<nat>, width: byte): seq<Item> {
    if value == None then [] else [Short(tag, value.value, width)]
  }

  function ParamItems(p: Params): seq<Item> {
    One(TAG_MAX_FRAME_SIZE, p.maxFrameSize, 2)
    + One(TAG_SUPPORTED_PAYLOAD_TYPES, p.supportedPayloadTypes, 1)
    + One(TAG_SUPPORTED_RPC_ENCODINGS, p.supportedRpcEncodings, 1)
    + One(TAG_HEARTBEAT_INTERVAL, p.heartbeatIntervalMs, 2)
    + One(TAG_ACK_MODE, p.ackMode, 1)
    + One(TAG_SELECTED_RPC_ENCODING, p.selectedRpcEncoding, 1)
  }

  predicate Below(value: Option<nat>, bound: nat) {
    value == None || value.value < bound
  }

  /** The values the wire widths can carry. */
  predicate InRange(p: Params) {
    && Below(p.maxFrameSize, TWO_16)
    && Below(p.supportedPayloadTypes, 256)
    && Below(p.supportedRpcEncodings, 256)
    && Below(p.heartbeatIntervalMs, TWO_16)
    && Below(p.ackMode, 256)
    && Below(p.selectedRpcEncoding, 256)
  }

  lemma {:induction false} SerialiseAppend(xs: seq<Item>, ys: seq<Item>)
    requires AllValid(xs) && AllValid(ys)
    ensures AllValid(xs + ys) && Serialise(xs + ys) == Serialise(xs) + Serialise(ys)
  {
    if xs == [] {
      assert xs + ys == ys;
    } else {
      SerialiseAppend(xs[1..], ys);
      ConsAppend(xs[0], xs[1..], xs, ys);
      Associative(xs[0].Bytes(), Serialise(xs[1..]), Serialise(ys));
    }
  }

  lemma SerialiseOne(tag: byte, value: Option<nat>, width: byte)
    requires (width == 1 || width == 2) && Below(value, Pow256(width))
    ensures AllValid(One(tag, value, width)) && Serialise(One(tag, value, width)) == TlvBytes(tag, value, width)
  {
    if value != None {
      var items := [Short(tag, value.value, width)];
      assert items[1..] == [];
      assert items[0].Bytes() + [] == items[0].Bytes();
    }
  }

  lemma SerialiseParams(p: Params)
    requires InRange(p)
    ensures AllValid(ParamItems(p)) && Serialise(ParamItems(p)) == ParamBytes(p)
  {
    hide Serialise, TlvBytes, One, Pow256;
    Pow256Values();
    SerialiseOne(TAG_MAX_FRAME_SIZE, p.maxFrameSize, 2);
    SerialiseOne(TAG_SUPPORTED_PAYLOAD_TYPES, p.supportedPayloadTypes, 1);
    SerialiseOne(TAG_SUPPORTED_RPC_ENCODINGS, p.supportedRpcEncodings, 1);
    SerialiseOne(TAG_HEARTBEAT_INTERVAL, p.heartbeatIntervalMs, 2);
    SerialiseOne(TAG_ACK_MODE, p.ackMode, 1);
    SerialiseOne(TAG_SELECTED_RPC_ENCODING, p.selectedRpcEncoding, 1);
    var i1 := One(TAG_MAX_FRAME_SIZE, p.maxFrameSize, 2);
    var i2 := i1 + One(TAG_SUPPORTED_PAYLOAD_TYPES, p.supportedPayloadTypes, 1);
    var i3 := i2 + One(TAG_SUPPORTED_RPC_ENCODINGS, p.supportedRpcEncodings, 1);
    var i4 := i3 + One(TAG_HEARTBEAT_INTERVAL, p.heartbeatIntervalMs, 2);
    var i5 := i4 + One(TAG_ACK_MODE, p.ackMode, 1);
    SerialiseAppend(i1, One(TAG_SUPPORTED_PAYLOAD_TYPES, p.supportedPayloadTypes, 1));
    SerialiseAppend(i2, One(TAG_SUPPORTED_RPC_ENCODINGS, p.supportedRpcEncodings, 1));
    SerialiseAppend(i3, One(TAG_HEARTBEAT_INTERVAL, p.heartbeatIntervalMs, 2));
    SerialiseAppend(i4, One(TAG_ACK_MODE, p.ackMode, 1));
    SerialiseAppend(i5, One(TAG_SELECTED_RPC_ENCODING, p.selectedRpcEncoding, 1));
  }

  function SetOne(p: Params, tag: byte, value: Option<nat>): Params {
    if value == None then p else Set(p, tag, value.value)
  }

  lemma ApplyOne(tag: byte, value: Option<nat>, width: byte, rest: seq<Item>, p: Params)
    ensures Apply(One(tag, value, width) + rest, p) == Apply(rest, SetOne(p, tag, value))
  {
    if value == None {
      assert One(tag, value, width) + rest == rest;
    } else {
      assert (One(tag, value, width) + rest)[1..] == rest;
    }
  }

  lemma ApplyParams(p: Params)
    ensures Apply(ParamItems(p), NO_PARAMS) == p
  {
    hide One, Apply;
    var r5 := One(TAG_SELECTED_RPC_ENCODING, p.selectedRpcEncoding, 1);
    var r4 := One(TAG_ACK_MODE, p.ackMode, 1) + r5;
    var r3 := One(TAG_HEARTBEAT_INTERVAL, p.heartbeatIntervalMs, 2) + r4;
    var r2 := One(TAG_SUPPORTED_RPC_ENCODINGS, p.supportedRpcEncodings, 1) + r3;
    var r1 := One(TAG_SUPPORTED_PAYLOAD_TYPES, p.supportedPayloadTypes, 1) + r2;
    assert ParamItems(p) == One(TAG_MAX_FRAME_SIZE, p.maxFrameSize, 2) + r1;
    var p1 := SetOne(NO_PARAMS, TAG_MAX_FRAME_SIZE, p.maxFrameSize);
    var p2 := SetOne(p1, TAG_SUPPORTED_PAYLOAD_TYPES, p.supportedPayloadTypes);
    var p3 := SetOne(p2, TAG_SUPPORTED_RPC_ENCODINGS, p.supportedRpcEncodings);
    var p4 := SetOne(p3, TAG_HEARTBEAT_INTERVAL, p.heartbeatIntervalMs);
    var p5 := SetOne(p4, TAG_ACK_MODE, p.ackMode);
    ApplyOne(TAG_MAX_FRAME_SIZE, p.maxFrameSize, 2, r1, NO_PARAMS);
    ApplyOne(TAG_SUPPORTED_PAYLOAD_TYPES, p.supportedPayloadTypes, 1, r2, p1);
    ApplyOne(TAG_SUPPORTED_RPC_ENCODINGS, p.supportedRpcEncodings, 1, r3, p2);
    ApplyOne(TAG_HEARTBEAT_INTERVAL, p.heartbeatIntervalMs, 2, r4, p3);
    ApplyOne(TAG_ACK_MODE, p.ackMode, 1, r5, p4);
    assert r5 + [] == r5;
    ApplyOne(TAG_SELECTED_RPC_ENCODING, p.selectedRpcEncoding, 1, [], p5);
    ApplyNothing(SetOne(p5, TAG_SELECTED_RPC_ENCODING, p.selectedRpcEncoding));
  }

  lemma ApplyNothing(p: Params)
    ensures Apply([], p) == p
  {}

  lemma DecodeHead(p: ControlPayload, rest: seq<byte>)
    requires p.opcode < 256 && p.controlId < TWO_16 && p.statusCode < TWO_16
    ensures var body := HeadBytes(p.opcode, p.controlId, p.statusCode) + rest;
      body[0] == p.opcode && U16At(body, 1) == p.controlId && U16At(body, 3) == p.statusCode && body[5..] == rest
  {
    var body := HeadBytes(p.opcode, p.controlId, p.statusCode) + rest;
    assert BigEndian(p.opcode, 1) == BigEndian(p.opcode / 256, 0) + [p.opcode % 256];
    assert body[1..3] == BigEndian(p.controlId, 2);
    assert body[3..5] == BigEndian(p.statusCode, 2);
    U16AtBigEndian(body, 1, p.controlId);
    U16AtBigEndian(body, 3, p.statusCode);
  }

  /** Unknown entries are ignored wherever they stand: any well-formed list of entries whose known ones
      are those of the parameters decodes to the parameters. */
  lemma UnknownEntriesIgnored(p: ControlPayload, items: seq<Item>)
    requires p.opcode < 256 && p.controlId < TWO_16 && p.statusCode < TWO_16
    requires AllValid(items) && KnownOnly(items) == KnownOnly(ParamItems(p.tlv))
    ensures Decode(HeadBytes(p.opcode, p.controlId, p.statusCode) + Serialise(items)) == Some(p)
  {
    hide HeadBytes, ParamItems, Apply, KnownOnly, Serialise;
    DecodeHead(p, Serialise(items));
    ReadSerialised(items, NO_PARAMS);
    ApplyKnown(items, NO_PARAMS);
    ApplyKnown(ParamItems(p.tlv), NO_PARAMS);
    ApplyParams(p.tlv);
  }

  /** Decoding what was encoded gives back the opcode, the ids and the parameters. */
  lemma RoundTrip(p: ControlPayload)
    requires p.opcode < 256 && p.controlId < TWO_16 && p.statusCode < TWO_16 && InRange(p.tlv)
    ensures Decode(Encode(p)) == Some(p)
  {
    SerialiseParams(p.tlv);
    UnknownEntriesIgnored(p, ParamItems(p.tlv));
  }

  // ---------- The loops ----------

  datatype TlvStep = NoEntry | Thrown | Found(tag: byte, value: nat)

  /** readTlv: skip until an entry can be read; the reader is left behind it. */
  method ReadNextTlv(reader: ByteReader) returns (r: TlvStep)
    requires reader.Valid()
    modifies reader
    ensures reader.Valid()
    ensures match ReadTlv(old(reader.Rest()))
      case End => r == NoEntry
      case Malformed => r == Thrown
      case Entry(tag, value, rest) => r == Found(tag, value) && reader.Rest() == rest
  {
    hide ReadTlv, FromBigEndian, U16At;
    while true
      invariant reader.Valid()
      invariant ReadTlv(reader.Rest()) == ReadTlv(old(reader.Rest()))
      decreases |reader.Rest()|
    {
      ghost var s := reader.Rest();
      var n := reader.Remaining();
      if n == 0 { ShortEnds(s); return NoEntry; }
      var tag := reader.ReadU8();
      var len := reader.ReadU8();
      if tag == None || len == None { ShortEnds(s); return NoEntry; }
      DropDrop(s, 1, 1);
      if len.value == 0xFF {
        ReadTlvExtended(s);
        var skipped := SkipExtended(reader, s);
        if !skipped { return NoEntry; }
      } else if len.value == 1 || len.value == 2 || len.value == 4 {
        ReadTlvShort(s);
        if |s| >= 2 + len.value { DropDrop(s, 2, len.value); }
        var v := ReadWidth(reader, len.value);
        if v == None { return Thrown; }
        return Found(tag.value, v.value);
      } else {
        ReadTlvOdd(s);
        var skipped := reader.ReadBytes(len.value);
        if skipped == None { return NoEntry; }
        DropDrop(s, 2, len.value);
      }
    }
  }

  /** The extended form: a 16-bit length, then that many bytes. */
  method SkipExtended(reader: ByteReader, ghost s: seq<byte>) returns (ok: bool)
    requires reader.Valid() && |s| >= 2 && reader.Rest() == s[2..]
    modifies reader
    ensures reader.Valid()
    ensures ok == (|s| >= 4 && |s| >= 4 + U16At(s, 2))
    ensures ok ==> reader.Rest() == s[4 + U16At(s, 2)..]
  {
    hide FromBigEndian, U16At;
    var extLen := reader.ReadU16();
    if extLen == None { return false; }
    DropDrop(s, 2, 2);
    var skipped := reader.ReadBytes(extLen.value);
    if skipped == None { return false; }
    DropDrop(s, 4, extLen.value);
    return true;
  }

  lemma ShortEnds(s: seq<byte>)
    requires |s| < 2
    ensures ReadTlv(s) == End
  {}

  /** readU8Strict, readU16Strict or readU32Strict; None where they throw. */
  method ReadWidth(reader: ByteReader, width: nat) returns (v: Option<nat>)
    requires reader.Valid() && (width == 1 || width == 2 || width == 4)
    modifies reader
    ensures reader.Valid()
    ensures |old(reader.Rest())| < width ==> v == None
    ensures |old(reader.Rest())| >= width ==>
      v == Some(FromBigEndian(old(reader.Rest())[..width])) && reader.Rest() == old(reader.Rest())[width..]
  {
    hide FromBigEndian;
    if width == 1 { v := reader.ReadU8(); }
    else if width == 2 { v := reader.ReadU16(); }
    else { v := reader.ReadU32(); }
  }

  /** The loop of decodeControl over the TLV body. */
  method DecodeTlvs(tlvBody: seq<byte>) returns (r: Option<Params>)
    ensures r == ReadParams(tlvBody, NO_PARAMS)
  {
    hide ReadTlv, Set;
    var reader := new ByteReader(tlvBody);
    var tlv := NO_PARAMS;
    while true
      invariant reader.Valid()
      invariant ReadParams(reader.Rest(), tlv) == ReadParams(tlvBody, NO_PARAMS)
      decreases |reader.Rest()|
    {
      var left := reader.Remaining();
      if left == 0 { ShortEnds(reader.Rest()); return Some(tlv); }
      var entry := ReadNextTlv(reader);
      if entry == Thrown { return None; }
      if entry == NoEntry { return Some(tlv); }
      tlv := Set(tlv, entry.tag, entry.value);
    }
  }

  method DecodeControl(body: seq<byte>) returns (r: Option<ControlPayload>)
    ensures r == Decode(body)
  {
    hide ReadParams, FromBigEndian, U16At;
    var reader := new ByteReader(body);
    var opcode := reader.ReadU8();
    if opcode == None { return None; }
    var controlId := reader.ReadU16();
    if controlId == None { return None; }
    DropDrop(body, 1, 2);
    var statusCode := reader.ReadU16();
    if statusCode == None { return None; }
    DropDrop(body, 3, 2);
    var tlv := DecodeRest(reader);
    if tlv == None { return None; }
    return Some(ControlPayload(opcode.value, controlId.value, statusCode.value, tlv.value));
  }

  method DecodeRest(reader: ByteReader) returns (r: Option<Params>)
    requires reader.Valid()
    modifies reader
    ensures r == ReadParams(old(reader.Rest()), NO_PARAMS)
  {
    ghost var s := reader.Rest();
    var n := reader.Remaining();
    var tlvBody := reader.ReadBytes(n);
    assert s[..n] == s;
    r := DecodeTlvs(tlvBody.value);
  }

  method WriteTlv(writer: ByteWriter, tag: byte, value: Option<nat>, width: byte)
    requires width == 1 || width == 2 || width == 4
    modifies writer
    ensures writer.values == old(writer.values) + TlvBytes(tag, value, width)
  {
    if value == None { return; }
    OneByte(tag);
    OneByte(width);
    writer.WriteU8(tag);
    writer.WriteU8(width);
    if width == 1 { writer.WriteU8(value.value); }
    else if width == 2 { writer.WriteU16(value.value); }
    else { writer.WriteU32(value.value); }
  }

  method EncodeControl(p: ControlPayload) returns (bytes: seq<byte>)
    ensures bytes == Encode(p)
  {
    hide BigEndian, TlvBytes;
    var writer := new ByteWriter();
    writer.WriteU8(p.opcode);
    writer.WriteU16(p.controlId);
    writer.WriteU16(p.statusCode);
    assert writer.values == HeadBytes(p.opcode, p.controlId, p.statusCode);
    WriteTlv(writer, TAG_MAX_FRAME_SIZE, p.tlv.maxFrameSize, 2);
    WriteTlv(writer, TAG_SUPPORTED_PAYLOAD_TYPES, p.tlv.supportedPayloadTypes, 1);
    WriteTlv(writer, TAG_SUPPORTED_RPC_ENCODINGS, p.tlv.supportedRpcEncodings, 1);
    WriteTlv(writer, TAG_HEARTBEAT_INTERVAL, p.tlv.heartbeatIntervalMs, 2);
    WriteTlv(writer, TAG_ACK_MODE, p.tlv.ackMode, 1);
    WriteTlv(writer, TAG_SELECTED_RPC_ENCODING, p.tlv.selectedRpcEncoding, 1);
    assert writer.values == HeadBytes(p.opcode, p.controlId, p.statusCode) + ParamBytes(p.tlv);
    bytes := writer.TakeBytes();
  }
}
