/** The RPC session handshake (src/core/handshake.ts). */
module Handshake {
  import opened Bytes
  import opened Messages
  import Hex

  const ALL_ZERO_SID := "00000000"

  datatype State = State(
    logicalServer: bool,
    gate: GateState,
    sid: string,
    entropy: bv32,
    eventMasks: Option<string>)

  datatype Result = Result(outbound: Option<RpcMessage>, becameReady: bool, error: Option<nat>)

  const NOTHING := Result(None, false, None)

  // ---------- Session ids ----------

  function Mix(randomSeed: bv32, entropy: bv32): (v: nat)
    ensures 0 < v < TWO_32
  {
    NonZero(randomSeed ^ entropy);
    if randomSeed ^ entropy == 0 then 1 else (randomSeed ^ entropy) as int
  }

  lemma NonZero(v: bv32)
    ensures v != 0 ==> v as int != 0
  {}

  /** generateSid: eight hexadecimal digits, never all zero. */
  function GenerateSid(randomSeed: bv32, entropy: bv32): string {
    Hex.PadStart(Hex.ToHex(Mix(randomSeed, entropy)), 8)
  }

  /** A session id as a server makes it: eight digits that spell a non-zero 32-bit number. */
  predicate IsServerSid(sid: string) {
    |sid| == 8 && Hex.Parse(sid).Some? && Hex.Parse(sid).value != 0
  }

  lemma Pow16Of8()
    ensures Hex.Pow16(8) == TWO_32
  {
    assert Hex.Pow16(2) == 256;
    assert Hex.Pow16(4) == 16 * (16 * Hex.Pow16(2));
    assert Hex.Pow16(6) == 16 * (16 * Hex.Pow16(4));
  }

  lemma GeneratedSid(randomSeed: bv32, entropy: bv32)
    ensures IsServerSid(GenerateSid(randomSeed, entropy))
    ensures Hex.Parse(GenerateSid(randomSeed, entropy)) == Some(Mix(randomSeed, entropy))
  {
    var v := Mix(randomSeed, entropy);
    Pow16Of8();
    Hex.PaddedIsFixed(v, 8);
    Hex.ParseFixed(v, 8);
  }

  /** The id spells the exclusive-or of seed and entropy, or one where that is zero, in eight digits. */
  lemma SidSpellsSeed(randomSeed: bv32, entropy: bv32)
    ensures GenerateSid(randomSeed, entropy) ==
            Hex.Fixed(if randomSeed == entropy then 1 else (randomSeed ^ entropy) as int, 8)
  {
    XorZero(randomSeed, entropy);
    Pow16Of8();
    Hex.PaddedIsFixed(Mix(randomSeed, entropy), 8);
  }

  lemma XorZero(a: bv32, b: bv32)
    ensures a ^ b == 0 <==> a == b
  {}

  lemma NumbersDiffer(a: bv32, b: bv32)
    ensures a as int == b as int <==> a == b
  {
    assert (a as int) as bv32 == a && (b as int) as bv32 == b;
  }

  function Xor(a: bv32, b: bv32): bv32 {
    a ^ b
  }

  lemma XorTwice(a: bv32, b: bv32)
    ensures Xor(Xor(a, b), b) == a
  {}

  lemma XorSwap(a: bv32, b: bv32)
    ensures Xor(a, b) == Xor(b, a)
  {}

  lemma XorSame(s: bv32, t: bv32, entropy: bv32)
    ensures Xor(s, entropy) == Xor(t, entropy) <==> s == t
    ensures Xor(s, entropy) == 1 <==> s == Xor(entropy, 1)
  {
    hide Xor;
    XorTwice(s, entropy);
    XorTwice(t, entropy);
    XorTwice(1, entropy);
    XorSwap(1, entropy);
  }

  /** The number that a session id spells. */
  function Spelled(randomSeed: bv32, entropy: bv32): bv32 {
    if randomSeed == entropy then 1 else Xor(randomSeed, entropy)
  }

  lemma SpelledSame(s: bv32, t: bv32, entropy: bv32)
    ensures Spelled(s, entropy) == Spelled(t, entropy) <==>
      s == t || (s == entropy && t == Xor(entropy, 1)) || (t == entropy && s == Xor(entropy, 1))
  {
    hide Xor;
    XorSame(s, t, entropy);
    XorSame(t, s, entropy);
  }

  lemma SpelledIs(s: bv32, entropy: bv32)
    ensures GenerateSid(s, entropy) == Hex.Fixed(Spelled(s, entropy) as int, 8)
    ensures Spelled(s, entropy) as int < TWO_32
  {
    hide GenerateSid;
    SidSpellsSeed(s, entropy);
    One();
  }

  lemma One()
    ensures (1 as bv32) as int == 1
  {}

  /** So for one server two seeds lead to one session id only if they are the same, or one of them is the server's
      entropy and the other differs from it in the last bit alone. */
  lemma SidsDiffer(s: bv32, t: bv32, entropy: bv32)
    ensures GenerateSid(s, entropy) == GenerateSid(t, entropy) <==>
      s == t || (s == entropy && t == entropy ^ 1) || (t == entropy && s == entropy ^ 1)
  {
    hide GenerateSid, Spelled;
    assert Xor(entropy, 1) == entropy ^ 1;
    hide Xor;
    SpelledIs(s, entropy);
    SpelledIs(t, entropy);
    Pow16Of8();
    var m := Spelled(s, entropy) as int;
    var n := Spelled(t, entropy) as int;
    Hex.ParseFixed(m, 8);
    Hex.ParseFixed(n, 8);
    NumbersDiffer(Spelled(s, entropy), Spelled(t, entropy));
    SpelledSame(s, t, entropy);
  }

  lemma ServerSidIsAccepted(sid: string)
    requires IsServerSid(sid)
    ensures sid != "" && sid != ALL_ZERO_SID
  {
    Hex.ZeroDigits(8);
    Pow16Of8();
    Hex.ParseFixed(0, 8);
    assert ALL_ZERO_SID == seq(8, _ => '0');
  }

  // ---------- The three messages ----------

  function OnLinkReady(s: State): State {
    if s.gate == LinkConnected then s.(gate := FramingReady) else s
  }

  function HandleHello(s: State, random: bv32): (State, Result) {
    if s.logicalServer then (s, NOTHING)
    else (OnLinkReady(s), Result(Some(Identify("", if random == 0 then 1 else random, s.eventMasks)), false, None))
  }

  function HandleIdentify(s: State, randomSeed: bv32, eventMasks: Option<string>): (State, Result) {
    if !s.logicalServer then (s, NOTHING)
    else
      var sid := GenerateSid(randomSeed, s.entropy);
      (s.(eventMasks := eventMasks, sid := sid, gate := AppReady), Result(Some(Identified(sid)), true, None))
  }

  function HandleIdentified(s: State, sid: string): (State, Result) {
    if s.logicalServer then (s, NOTHING)
    else if |sid| == 0 || sid == ALL_ZERO_SID then (s, Result(None, false, Some(RPC_PAYLOAD_INVALID)))
    else (s.(sid := sid, gate := AppReady), Result(None, true, None))
  }

  function HandleReidentify(s: State, sid: string, eventMasks: Option<string>): (State, Result) {
    if !s.logicalServer || s.gate != AppReady || sid != s.sid then (s, NOTHING)
    else (s.(eventMasks := eventMasks), Result(Some(Identified(s.sid)), true, None))
  }

  function Handle(s: State, msg: RpcMessage, random: bv32): (State, Result) {
    match msg
    case Hello(_) => HandleHello(s, random)
    case Identify(_, randomSeed, masks) => HandleIdentify(s, randomSeed, masks)
    case Identified(sid) => HandleIdentified(s, sid)
    case Reidentify(sid, masks) => HandleReidentify(s, sid, masks)
    case _ => (s, NOTHING)
  }

  /** A ready session has an id that is neither empty nor eight zeros. */
  predicate GoodSession(s: State) {
    s.gate == AppReady ==> s.sid != "" && s.sid != ALL_ZERO_SID
  }

  lemma HandleKeepsGood(s: State, msg: RpcMessage, random: bv32)
    requires GoodSession(s) && s.gate != Closing
    ensures var (s', r) := Handle(s, msg, random);
      && GoodSession(s') && s'.gate != Closing && s'.logicalServer == s.logicalServer
      && Rank(s.gate) <= Rank(s'.gate)
      && (r.becameReady ==> s'.gate == AppReady)
      && (s'.gate == AppReady ==> s.gate == AppReady || r.becameReady)
      && (!r.becameReady ==> s'.sid == s.sid)
  {
    if msg.Identify? && s.logicalServer {
      GeneratedSid(msg.randomSeed, s.entropy);
      ServerSidIsAccepted(GenerateSid(msg.randomSeed, s.entropy));
    }
  }

  /** What a client takes for a session id: anything but the empty string and exactly eight zeros. */
  lemma ClientAcceptsIff(s: State, sid: string, random: bv32)
    requires !s.logicalServer
    ensures Handle(s, Identified(sid), random).1.becameReady <==> sid != "" && sid != ALL_ZERO_SID
  {}

  /** So a client can be given a session id that is all zeros, only not eight of them. */
  lemma ShortZeroSidAccepted(s: State, random: bv32)
    requires !s.logicalServer
    ensures var s' := Handle(s, Identified("0"), random).0;
      s'.gate == AppReady && Hex.Parse(s'.sid) == Some(0)
  {
    assert "0"[..0] == "" && Hex.Parse("0"[..0]) == Some(0);
  }

  // ---------- The handshake object ----------

  class HandshakeMachine {
    const logicalServer: bool
    const localEntropy: bv32
    var stateValue: GateState
    var sidValue: string
    var eventMasksValue: Option<string>

    ghost function View(): State
      reads this
    {
      State(logicalServer, stateValue, sidValue, localEntropy, eventMasksValue)
    }

    constructor (logicalServer: bool, localSeed: bv32, eventMasks: Option<string>)
      ensures View() == State(logicalServer, LinkConnected, "", localSeed, eventMasks)
    {
      this.logicalServer := logicalServer;
      this.localEntropy := localSeed;
      stateValue := LinkConnected;
      sidValue := "";
      eventMasksValue := eventMasks;
    }

    method LinkBecameReady()
      modifies this
      ensures View() == OnLinkReady(old(View()))
    {
      if stateValue == LinkConnected { stateValue := FramingReady; }
    }

    method HandleMessage(msg: RpcMessage, random: bv32) returns (r: Result)
      modifies this
      ensures (View(), r) == Handle(old(View()), msg, random)
    {
      match msg
      case Hello(_) =>
        if logicalServer { return NOTHING; }
        if stateValue == LinkConnected { stateValue := FramingReady; }
        var randomSeed := if random == 0 then 1 else random;
        return Result(Some(Identify("", randomSeed, eventMasksValue)), false, None);
      case Identify(_, randomSeed, masks) =>
        if !logicalServer { return NOTHING; }
        eventMasksValue := masks;
        sidValue := GenerateSid(randomSeed, localEntropy);
        stateValue := AppReady;
        return Result(Some(Identified(sidValue)), true, None);
      case Identified(sid) =>
        if logicalServer { return NOTHING; }
        if |sid| == 0 || sid == ALL_ZERO_SID { return Result(None, false, Some(RPC_PAYLOAD_INVALID)); }
        sidValue := sid;
        stateValue := AppReady;
        return Result(None, true, None);
      case Reidentify(sid, masks) =>
        if !logicalServer || stateValue != AppReady || sid != sidValue { return NOTHING; }
        eventMasksValue := masks;
        return Result(Some(Identified(sidValue)), true, None);
      case _ =>
        return NOTHING;
    }
  }
}
