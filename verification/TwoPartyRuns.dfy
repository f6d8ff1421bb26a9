/** The theorems about runs of two parties. */
module TwoPartyRuns {
  import opened Bytes
  import opened Messages
  import opened Core
  import opened TwoParty
  import opened TwoPartySafety
  import opened PayloadCodec
  import C = ControlSession
  import H = Handshake
  import Frames

  /** How many handshake messages a run delivers. */
  function Advances(w: World, cfg: Config, acts: seq<Act>): nat
    requires IsRun(w, cfg, acts)
    decreases |acts|
  {
    if acts == [] then 0 else Advance(w, acts[0]) + Advances(Next(w, cfg, acts[0]), cfg, acts[1..])
  }

  lemma {:induction false} RunKeepsOk(w: World, cfg: Config, ph: Phase, acts: seq<Act>) returns (ph': Phase)
    requires AllOk(w, cfg, ph) && Compliant(cfg) && IsRun(w, cfg, acts)
    ensures AllOk(After(w, cfg, acts), cfg, ph') && PhaseRank(cfg, ph') == PhaseRank(cfg, ph) + Advances(w, cfg, acts)
    decreases |acts|
  {
    hide AllOk, Next, Compliant, Agreeable, Enabled, Advance, SafeWrite;
    CompliantIsAgreeable(cfg);
    ph' := ph;
    if acts != [] {
      CompliantWrites(w, cfg, ph, acts[0]);
      ph' := NextKeeps(w, cfg, ph, acts[0]);
      ph' := RunKeepsOk(Next(w, cfg, acts[0]), cfg, ph', acts[1..]);
    }
  }

  lemma CompliantIsAgreeable(cfg: Config)
    requires Compliant(cfg)
    ensures Agreeable(cfg)
  {}

  /** Safety: after any run of two compliant ends, in whatever order they start, write, read, send
      heartbeats and do business, nothing has gone wrong, a ready client shares a proper session id with a
      ready server, both ends work on the agreed terms, and if both are started but not both ready then a
      handshake message is still on its way. */
  lemma EveryRunIsSafe(w: World, cfg: Config, acts: seq<Act>)
    requires IsInitial(w, cfg) && Compliant(cfg) && IsRun(w, cfg, acts)
    ensures Safe(After(w, cfg, acts), cfg)
  {
    hide AllOk, Compliant, Agreeable, Next, Safe;
    CompliantIsAgreeable(cfg);
    InitialOk(w, cfg);
    var ph := RunKeepsOk(w, cfg, Idle, acts);
    OkIsSafe(After(w, cfg, acts), cfg, ph);
  }

  /** However long the run, each handshake message is read once: at most five on a framed link, at most
      three otherwise, and the last of them is what makes both ends ready. */
  lemma HandshakeReadOnce(w: World, cfg: Config, acts: seq<Act>)
    requires IsInitial(w, cfg) && Compliant(cfg) && IsRun(w, cfg, acts)
    ensures var all := if cfg.framed then 5 else 3;
      Advances(w, cfg, acts) <= all && (Advances(w, cfg, acts) == all <==> BothReady(After(w, cfg, acts)))
  {
    hide AllOk, Compliant, Agreeable, Next, Safe;
    CompliantIsAgreeable(cfg);
    InitialOk(w, cfg);
    var ph := RunKeepsOk(w, cfg, Idle, acts);
    OkIsSafe(After(w, cfg, acts), cfg, ph);
  }

  // ---------- Nothing gets stuck ----------

  lemma {:induction false} RunAppend(w: World, cfg: Config, acts: seq<Act>, more: seq<Act>)
    requires IsRun(w, cfg, acts) && IsRun(After(w, cfg, acts), cfg, more)
    ensures IsRun(w, cfg, acts + more) && After(w, cfg, acts + more) == After(After(w, cfg, acts), cfg, more)
    decreases |acts|
  {
    hide Next, Enabled;
    if acts == [] {
      assert acts + more == more;
    } else {
      RunAppend(Next(w, cfg, acts[0]), cfg, acts[1..], more);
      assert (acts + more)[1..] == acts[1..] + more && (acts + more)[0] == acts[0];
    }
  }

  lemma RunOne(w: World, cfg: Config, a: Act)
    requires Enabled(w, a)
    ensures IsRun(w, cfg, [a]) && After(w, cfg, [a]) == Next(w, cfg, a)
  {
    hide Next, Enabled;
    assert [a][1..] == [];
    assert IsRun(Next(w, cfg, a), cfg, []) && After(Next(w, cfg, a), cfg, []) == Next(w, cfg, a);
  }

  /** The end whose next handshake message is on its way. */
  function Reader(cfg: Config, ph: Phase): Side {
    match ph
    case OpenSent => if cfg.serverOpens then Client else Server
    case Accepted => if cfg.serverOpens then Server else Client
    case IdentifySent(_) => Server
    case _ => Client
  }

  lemma ReaderHasTraffic(w: World, cfg: Config, ph: Phase)
    requires AllOk(w, cfg, ph) && w.server.up && w.client.up && !ph.Done?
    ensures ph != Idle && Toward(w, Reader(cfg, ph)) != []
  {
    hide Base, AtStage, SizesOk, Toward, Deal, C.OpenBody, C.AcceptBody, IsKind;
  }

  /** Until both ends are ready, what comes next at the reader is part of the handshake or of the link. */
  lemma NextIsVital(w: World, cfg: Config, ph: Phase)
    requires AllOk(w, cfg, ph) && Agreeable(cfg) && w.server.up && w.client.up && !ph.Done?
    ensures Toward(w, Reader(cfg, ph)) != [] && Vital(Toward(w, Reader(cfg, ph))[0])
  {
    hide Base, AtStage, StageOf, MuteOf, SizesOk, Toward, Deal, IsKind, IsBeat, IsHandshake, Faithful, GoodLocals, Admits;
    var s := Reader(cfg, ph);
    ReaderHasTraffic(w, cfg, ph);
    assert EndOk(w, cfg, ph, s);
    var t := Toward(w, s);
    if ph == OpenSent || ph == Accepted {
      EarlyIsVital(cfg, ph, s, t, 0);
    } else {
      AwaitedIsVital(t, PatternOf(cfg, ph, s).kind, PatternOf(cfg, ph, s).after);
    }
  }

  lemma AwaitedIsVital(t: seq<Outbound>, k: Kind, sid: Option<string>)
    requires Awaits(t, k, sid)
    ensures Vital(t[0])
  {
    hide IsKind, IsBeat, IsHandshake;
    if IsKind(t[0], k) { KindIsRpc(t[0], k); }
  }

  /** One message written towards an end, or read by it. */
  function ReadOrWrite(w: World, s: Side, random: bv32): Act {
    if Get(w, s).incoming == [] then Flush(Other(s), true) else Deliver(s, random)
  }

  lemma ReadOrWriteEffect(w: World, cfg: Config, s: Side, random: bv32)
    requires w.server.up && w.client.up && Toward(w, s) != []
    ensures var a := ReadOrWrite(w, s, random);
      && Enabled(w, a)
      && (a.Flush? ==> Toward(w, s)[0] == Cut(Get(w, Other(s)).core, true).msg)
      && var w' := Next(w, cfg, a);
      && w'.server.up && w'.client.up
      && (a.Deliver? ==> |Toward(w', s)| == |Toward(w, s)| - 1)
      && (a.Flush? && CanCut(cfg, Toward(w, s)[0], Cut(Get(w, Other(s)).core, true).cap) ==>
            |Toward(w', s)| == |Toward(w, s)| && |Get(w', s).incoming| > |Get(w, s).incoming|)
  {
    hide Receive, CanCut;
    if Get(w, s).incoming == [] {
      NextUnwritten(w, Other(s));
      var p := Cut(Get(w, Other(s)).core, true);
      if CanCut(cfg, p.msg, p.cap) { FlushEffect(w, cfg, Other(s), true); }
    }
  }

  /** One step towards readiness, as long as what is to be written can be cut. */
  lemma StepOn(w: World, cfg: Config, ph: Phase, random: bv32) returns (a: Act, ph': Phase)
    requires AllOk(w, cfg, ph) && Agreeable(cfg) && w.server.up && w.client.up && !ph.Done?
    requires var a := ReadOrWrite(w, Reader(cfg, ph), random); Enabled(w, a) ==> SafeWrite(w, cfg, a)
    ensures a == ReadOrWrite(w, Reader(cfg, ph), random) && Enabled(w, a)
    ensures var w' := Next(w, cfg, a); var s := Reader(cfg, ph);
      && AllOk(w', cfg, ph') && w'.server.up && w'.client.up
      && ph' == (if Advance(w, a) == 1 then NextPhase(cfg, ph, random) else ph)
      && PhaseRank(cfg, ph') == PhaseRank(cfg, ph) + Advance(w, a)
      && |Get(w, s).incoming| <= |Toward(w, s)| && |Get(w', s).incoming| <= |Toward(w', s)|
      && (Advance(w, a) == 1 || |Toward(w', s)| < |Toward(w, s)|
          || (|Toward(w', s)| == |Toward(w, s)| && |Get(w', s).incoming| > |Get(w, s).incoming|))
  {
    hide AllOk, Agreeable, Next, Toward, Enabled, IsHandshake, CanCut, Vital, Cut, NextPhase;
    var s := Reader(cfg, ph);
    a := ReadOrWrite(w, s, random);
    NextIsVital(w, cfg, ph);
    ReadOrWriteEffect(w, cfg, s, random);
    ph' := NextKeeps(w, cfg, ph, a);
    Progress(w, Next(w, cfg, a), s);
  }

  lemma {:induction false} CanFinish(w: World, cfg: Config, ph: Phase) returns (acts: seq<Act>)
    requires AllOk(w, cfg, ph) && Compliant(cfg) && w.server.up && w.client.up
    ensures IsRun(w, cfg, acts) && BothReady(After(w, cfg, acts))
    decreases 5 - PhaseRank(cfg, ph), |Toward(w, Reader(cfg, ph))|,
              |Toward(w, Reader(cfg, ph))| - |Get(w, Reader(cfg, ph)).incoming|
  {
    hide AllOk, Compliant, Agreeable, Next, Safe, Toward, Enabled, IsHandshake, SafeWrite, NextPhase, Advance;
    CompliantIsAgreeable(cfg);
    OkIsSafe(w, cfg, ph);
    acts := [];
    if !ph.Done? {
      var next := ReadOrWrite(w, Reader(cfg, ph), 1);
      if Enabled(w, next) { CompliantWrites(w, cfg, ph, next); }
      var a, ph' := StepOn(w, cfg, ph, 1);
      AdvanceBound(w, a);
      var rest := CanFinish(Next(w, cfg, a), cfg, ph');
      RunOne(w, cfg, a);
      RunAppend(w, cfg, [a], rest);
      acts := [a] + rest;
    }
  }

  lemma AdvanceBound(w: World, a: Act)
    requires Enabled(w, a)
    ensures Advance(w, a) <= 1 && (Advance(w, a) == 1 ==> a.Deliver?)
  {}

  lemma Progress(w: World, w': World, s: Side)
    ensures |Get(w, s).incoming| <= |Toward(w, s)| && |Get(w', s).incoming| <= |Toward(w', s)|
  {
    hide Traffic;
  }

  /** From wherever a run has got to, the two ends can still both become ready: no order of events leads to
      a state they cannot leave. */
  lemma NeverStuck(w: World, cfg: Config, acts: seq<Act>)
    requires IsInitial(w, cfg) && Compliant(cfg) && IsRun(w, cfg, acts)
    ensures exists more :: IsRun(w, cfg, acts + more) && BothReady(After(w, cfg, acts + more))
  {
    hide AllOk, Compliant, Next, BothReady, Enabled;
    InitialOk(w, cfg);
    var ph := RunKeepsOk(w, cfg, Idle, acts);
    var z := After(w, cfg, acts);
    var ups, z' := StartBoth(z, cfg);
    var ph' := RunKeepsOk(z, cfg, ph, ups);
    var rest := CanFinish(z', cfg, ph');
    RunAppend(z, cfg, ups, rest);
    var more := ups + rest;
    RunAppend(w, cfg, acts, more);
    assert IsRun(w, cfg, acts + more) && BothReady(After(w, cfg, acts + more));
  }

  lemma StartBoth(w: World, cfg: Config) returns (acts: seq<Act>, w': World)
    ensures IsRun(w, cfg, acts) && w' == After(w, cfg, acts) && w'.server.up && w'.client.up
  {
    hide StartCore;
    acts, w' := [], w;
    if !w'.server.up {
      RunOne(w', cfg, Start(Server));
      acts, w' := [Start(Server)], Next(w', cfg, Start(Server));
    }
    if !w'.client.up {
      RunOne(w', cfg, Start(Client));
      RunAppend(w, cfg, acts, [Start(Client)]);
      acts, w' := acts + [Start(Client)], Next(w', cfg, Start(Client));
    }
  }

  // ---------- What the promise needs ----------

  lemma {:induction false} RunThen(w: World, cfg: Config, acts: seq<Act>, a: Act) returns (longer: seq<Act>, w': World)
    requires IsRun(w, cfg, acts) && Enabled(After(w, cfg, acts), a)
    ensures longer == acts + [a] && IsRun(w, cfg, longer) && w' == Next(After(w, cfg, acts), cfg, a) == After(w, cfg, longer)
  {
    hide Next, Enabled;
    RunOne(After(w, cfg, acts), cfg, a);
    RunAppend(w, cfg, acts, [a]);
    longer := acts + [a];
    w' := Next(After(w, cfg, acts), cfg, a);
  }

  /** A message that needs a larger frame than its reader admits is lost, and the loss reported. */
  lemma TooLargeTroubles(w: World, cfg: Config, s: Side, random: bv32)
    requires Enabled(w, Deliver(s, random)) && !Passes(Get(w, s).core, Get(w, s).incoming[0], cfg.codec)
    ensures !Untroubled(Get(Next(w, cfg, Deliver(s, random)), s).core)
  {
    hide Passes, Read;
    var c' := Get(Next(w, cfg, Deliver(s, random)), s).core;
    var e := c'.events[|c'.events| - 1];
    assert e in c'.events && IsTrouble(e);
  }

  /** Up to the OPEN in the acceptor's channel. */
  lemma OpenArrives(w: World, cfg: Config, o: Side) returns (acts: seq<Act>, z: World)
    requires IsInitial(w, cfg) && cfg.framed && GoodLocals(cfg) && Opens(cfg, o)
    ensures IsRun(w, cfg, acts) && z == After(w, cfg, acts)
    ensures Get(z, o).up && Get(z, Other(o)).up && Get(z, Other(o)).core == Get(w, Other(o)).core && !Get(z, Other(o)).mute
    ensures Get(z, Other(o)).incoming == [Packet(ControlBody(C.OpenBody(1, LocalOf(cfg, o))), LocalOf(cfg, o).maxFrameSize)]
    ensures Get(z, o).incoming == [] && Get(z, o).core.outbox == []
    ensures Base(Get(z, o).core, cfg, o) && AtStage(Get(z, o).core, cfg, o, Opening)
  {
    hide C.OpenBody, Deal, Untroubled, StartCore, Receive, CanCut;
    acts, z := [], w;
    InitialOk(w, cfg);
    assert EndOk(w, cfg, Idle, o);
    OpenSentEffect(Get(w, o).core, cfg, o);
    IdleAcceptor(Get(w, Other(o)).core, cfg, o);
    acts, z := RunThen(w, cfg, acts, Start(Other(o)));
    acts, z := RunThen(w, cfg, acts, Start(o));
    var c := Get(z, o).core;
    var open := ControlBody(C.OpenBody(1, LocalOf(cfg, o)));
    assert c.outbox == [Sent(open, LocalOf(cfg, o).maxFrameSize)];
    NegotiationCuttable(open, LocalOf(cfg, o).maxFrameSize, cfg, o);
    acts, z := RunThen(w, cfg, acts, Flush(o, true));
    UnsentKeeps(c, cfg, o, Opening);
  }

  lemma IdleAcceptor(c: Core, cfg: Config, o: Side)
    requires cfg.framed && Opens(cfg, o) && c.control == NewControl(cfg, Other(o))
    ensures StartCore(c) == c
  {}

  /** Limits outside the condition: a run that starts both ends at once and cuts every message when it is
      sent loses the OPEN or the ACCEPT. */
  lemma BreaksOutside(w: World, cfg: Config) returns (acts: seq<Act>)
    requires IsInitial(w, cfg) && cfg.framed && GoodLocals(cfg) && !Admits(cfg)
    ensures IsRun(w, cfg, acts) && !Safe(After(w, cfg, acts), cfg)
  {
    hide C.OpenBody, C.AcceptBody, Deal, Untroubled, Receive, Read, Next, Traffic, Toward;
    hide IsHandshake, SameSession, Agrees, InFlight, IsOpenRequired;
    var o := if cfg.serverOpens then Server else Client;
    var a := Other(o);
    var z;
    acts, z := OpenArrives(w, cfg, o);
    C.NegotiationSizes(1, LocalOf(cfg, o), Deal(cfg).maxFrameSize, Deal(cfg).heartbeatIntervalMs);
    var open := Get(z, a).incoming[0];
    var s := a;
    if Passes(Get(z, a).core, open, cfg.codec) {
      AcceptArrives(w, cfg, o, acts, z);
      acts, z := RunThen(w, cfg, acts, Deliver(a, 1));
      acts, z := RunThen(w, cfg, acts, Flush(a, true));
      s := o;
      OpeningLimit(Get(z, o).core, cfg, o);
    }
    TooLargeTroubles(z, cfg, s, 1);
    acts, z := RunThen(w, cfg, acts, Deliver(s, 1));
    assert !Untroubled(Get(z, s).core);
  }

  /** If the OPEN is admitted, the ACCEPT comes back cut for the acceptor's own limit. */
  lemma AcceptArrives(w: World, cfg: Config, o: Side, acts: seq<Act>, z: World)
    requires IsInitial(w, cfg) && cfg.framed && GoodLocals(cfg) && Opens(cfg, o)
    requires IsRun(w, cfg, acts) && z == After(w, cfg, acts)
    requires Get(z, o).up && Get(z, Other(o)).up && Get(z, Other(o)).core == Get(w, Other(o)).core && Get(z, o).incoming == []
    requires !Get(z, Other(o)).mute
    requires Get(z, Other(o)).incoming == [Packet(ControlBody(C.OpenBody(1, LocalOf(cfg, o))), LocalOf(cfg, o).maxFrameSize)]
    requires Passes(Get(z, Other(o)).core, Get(z, Other(o)).incoming[0], cfg.codec)
    ensures Enabled(z, Deliver(Other(o), 1)) && var z1 := Next(z, cfg, Deliver(Other(o), 1));
      Enabled(z1, Flush(Other(o), true)) && var z2 := Next(z1, cfg, Flush(Other(o), true));
      && Get(z2, o).incoming == [Packet(AcceptOf(Deal(cfg)), LocalOf(cfg, Other(o)).maxFrameSize)]
      && Get(z2, o).core == Get(z, o).core && Get(z2, o).up
  {
    hide C.OpenBody, C.AcceptBody, Deal, Untroubled, Read, Passes, AtStage, NewControl, Greeting, CanCut;
    InitialOk(w, cfg);
    assert EndOk(w, cfg, Idle, Other(o));
    var c := Get(z, Other(o)).core;
    WaitingLimit(c, cfg, Other(o));
    ReadOpen(c, cfg, Other(o), 1);
    var c' := Read(c, Get(z, Other(o)).incoming[0].msg, cfg.codec, 1);
    assert c'.outbox[0] == Sent(AcceptOf(Deal(cfg)), LocalOf(cfg, Other(o)).maxFrameSize);
    NegotiationCuttable(AcceptOf(Deal(cfg)), LocalOf(cfg, Other(o)).maxFrameSize, cfg, o);
  }

  /** Every packet on its way could be cut. */
  ghost predicate WireCut(w: World, cfg: Config) {
    forall s: Side, p :: p in Get(w, s).incoming ==> CanCut(cfg, p.msg, p.cap)
  }

  lemma NextKeepsCut(w: World, cfg: Config, a: Act)
    requires WireCut(w, cfg) && Enabled(w, a)
    ensures WireCut(Next(w, cfg, a), cfg)
  {
    hide CanCut, Receive, StartCore, SendHeartbeat, Cut, IsBusiness;
    var w' := Next(w, cfg, a);
    forall s: Side, p | p in Get(w', s).incoming ensures CanCut(cfg, p.msg, p.cap) {
      assert p in Get(w, s).incoming || (a.Flush? && p == Cut(Get(w, a.side).core, a.atOnce));
    }
  }

  /** A handshake message that waits at its reader was cut for the agreed size, and which it is the phase says. */
  lemma HandshakeHead(w: World, cfg: Config, ph: Phase, s: Side, random: bv32)
    requires AllOk(w, cfg, ph) && Agreeable(cfg) && cfg.framed && WireCut(w, cfg) && Enabled(w, Deliver(s, random))
    requires IsHandshake(Get(w, s).incoming[0].msg)
    ensures ph == HelloSent ==> CanCut(cfg, Rpc(Hello("")), AgreedSize(cfg))
    ensures ph.IdentifySent? ==> CanCut(cfg, Rpc(Identify("", ph.seed, cfg.eventMasks)), AgreedSize(cfg))
    ensures ph.IdentifiedSent? ==> CanCut(cfg, Rpc(Identified(ph.sid)), AgreedSize(cfg))
  {
    hide Base, AtStage, Fits, StageOf, UpOf, MuteOf, OutboxSized, Toward, CanCut, Deal, IsHandshake, Harmless, Agreeable, IsNegotiation;
    var p := Get(w, s).incoming[0];
    HeadOf(w, cfg, ph, s, random);
    HeadSized(Get(w, s).incoming, cfg, s);
    assert p in Get(w, s).incoming;
    assert CanCut(cfg, p.msg, p.cap);
    assert IsNegotiation(p.msg) || p.cap == AgreedSize(cfg);
    if PatternOf(cfg, ph, s).Await? && IsKind(p.msg, PatternOf(cfg, ph, s).kind) {
      KindIsRpc(p.msg, PatternOf(cfg, ph, s).kind);
    } else if ph.HelloSent? || ph.IdentifySent? || ph.IdentifiedSent? {
      HarmlessMeans(p.msg, SidOf(StageOf(cfg, ph, s, Get(w, s).up)));
    }
  }

  /** What was written so far by a client that drew this seed and a server that answered it. */
  predicate Written(cfg: Config, ph: Phase, seed: bv32) {
    && (ph.IdentifySent? ==> ph.seed == seed)
    && (ph.IdentifiedSent? || ph.Done? ==> ph.sid == H.GenerateSid(seed, cfg.entropy))
    && (PhaseRank(cfg, ph) >= 3 ==> CanCut(cfg, Rpc(Hello("")), AgreedSize(cfg)))
    && (PhaseRank(cfg, ph) >= 4 ==> CanCut(cfg, Rpc(Identify("", seed, cfg.eventMasks)), AgreedSize(cfg)))
    && (PhaseRank(cfg, ph) >= 5 ==> SeedFits(cfg, seed))
  }

  lemma StepWritten(w: World, cfg: Config, ph: Phase, seed: bv32, a: Act)
    requires AllOk(w, cfg, ph) && Agreeable(cfg) && cfg.framed && WireCut(w, cfg) && Enabled(w, a)
    requires Written(cfg, ph, seed) && seed != 0 && (a.Deliver? ==> a.random == seed)
    ensures Written(cfg, if a.Deliver? && Advance(w, a) == 1 then NextPhase(cfg, ph, seed) else ph, seed)
  {
    hide AllOk, Agreeable, WireCut, CanCut, IsHandshake, H.GenerateSid, Deal;
    if a.Deliver? && Advance(w, a) == 1 { HandshakeHead(w, cfg, ph, a.side, seed); }
  }

  /** Writing a handshake message that cannot be cut leaves both ends waiting with nothing on its way. */
  lemma Doomed(w: World, cfg: Config, ph: Phase)
    requires AllOk(w, cfg, ph) && Agreeable(cfg) && w.server.up && w.client.up && !ph.Done?
    requires Get(w, Reader(cfg, ph)).incoming == []
    requires var a := Flush(Other(Reader(cfg, ph)), true); Enabled(w, a) && !SafeWrite(w, cfg, a)
    ensures !Safe(Next(w, cfg, Flush(Other(Reader(cfg, ph)), true)), cfg)
  {
    hide AllOk, Agreeable, Toward, CanCut, IsHandshake, Cut, SameSession, Untroubled, Agrees, IsOpenRequired, Next;
    var s := Reader(cfg, ph);
    var w' := Next(w, cfg, Flush(Other(s), true));
    OkIsSafe(w, cfg, ph);
    ReaderHasTraffic(w, cfg, ph);
    MuteEffect(w, cfg, Other(s), true);
    assert Toward(w', s) == [] by { assert Traffic([], []) == []; }
    NothingBack(w, cfg, ph);
    forall d: Side, i | 0 <= i < |Toward(w', d)| ensures !IsHandshake(Toward(w', d)[i]) {
      assert d == s || d == Other(s);
    }
  }

  /** Nothing of the handshake travels away from the reader of its next message. */
  lemma NothingBack(w: World, cfg: Config, ph: Phase)
    requires AllOk(w, cfg, ph) && !ph.Done? && !ph.Idle?
    ensures var t := Toward(w, Other(Reader(cfg, ph))); forall i :: 0 <= i < |t| ==> !IsHandshake(t[i])
  {
    hide Base, AtStage, StageOf, UpOf, MuteOf, SizesOk, Toward, IsHandshake, Harmless, Deal;
    var s := Other(Reader(cfg, ph));
    assert EndOk(w, cfg, ph, s);
    var t := Toward(w, s);
    forall i | 0 <= i < |t| ensures !IsHandshake(t[i]) {
      assert t[i] in t;
      HarmlessMeans(t[i], None);
    }
  }

  /** From any state the protocol leads to, two started ends can be driven on until both are ready, if every
      handshake message can be cut, or into a state that is not safe. */
  lemma {:induction false} DriveOn(w: World, cfg: Config, ph: Phase, seed: bv32) returns (acts: seq<Act>)
    requires AllOk(w, cfg, ph) && Agreeable(cfg) && cfg.framed && WireCut(w, cfg) && w.server.up && w.client.up
    requires Written(cfg, ph, seed) && seed != 0
    ensures IsRun(w, cfg, acts)
    ensures Safe(After(w, cfg, acts), cfg) ==> CanCut(cfg, Rpc(Hello("")), AgreedSize(cfg)) && SeedFits(cfg, seed)
    decreases 5 - PhaseRank(cfg, ph), |Toward(w, Reader(cfg, ph))|,
              |Toward(w, Reader(cfg, ph))| - |Get(w, Reader(cfg, ph)).incoming|
  {
    hide AllOk, Agreeable, Next, Safe, Toward, Enabled, SafeWrite, NextPhase, Advance, WireCut, Written, SeedFits, CanCut;
    acts := [];
    if ph.Done? {
      DoneFits(cfg, ph, seed);
    } else {
      var s := Reader(cfg, ph);
      var next := ReadOrWrite(w, s, seed);
      ReaderHasTraffic(w, cfg, ph);
      ReadOrWriteEffect(w, cfg, s, seed);
      RunOne(w, cfg, next);
      if SafeWrite(w, cfg, next) {
        var a, ph' := StepOn(w, cfg, ph, seed);
        AdvanceBound(w, a);
        NextKeepsCut(w, cfg, a);
        StepWritten(w, cfg, ph, seed, a);
        var rest := DriveOn(Next(w, cfg, a), cfg, ph', seed);
        RunAppend(w, cfg, [a], rest);
        acts := [a] + rest;
      } else {
        DeliverIsSafe(w, cfg, next);
        Doomed(w, cfg, ph);
        acts := [next];
      }
    }
  }

  lemma DoneFits(cfg: Config, ph: Phase, seed: bv32)
    requires Written(cfg, ph, seed) && ph.Done?
    ensures CanCut(cfg, Rpc(Hello("")), AgreedSize(cfg)) && SeedFits(cfg, seed)
  {}

  lemma DeliverIsSafe(w: World, cfg: Config, a: Act)
    requires Enabled(w, a) && !SafeWrite(w, cfg, a)
    ensures a.Flush?
  {}

  lemma StartEffect(w: World, cfg: Config, s: Side)
    requires !Get(w, s).up
    ensures Enabled(w, Start(s)) && SafeWrite(w, cfg, Start(s))
    ensures var w' := Next(w, cfg, Start(s));
      Get(w', s).up && Get(w', s).incoming == Get(w, s).incoming && Get(w', Other(s)) == Get(w, Other(s))
  {
    hide StartCore;
  }

  /** Limits that admit the negotiation: for every seed there is a run that is safe only if the handshake
      messages of that seed can be cut. */
  lemma RunOfSeed(w: World, cfg: Config, seed: bv32) returns (acts: seq<Act>)
    requires IsInitial(w, cfg) && Agreeable(cfg) && cfg.framed && seed != 0
    ensures IsRun(w, cfg, acts)
    ensures Safe(After(w, cfg, acts), cfg) ==> CanCut(cfg, Rpc(Hello("")), AgreedSize(cfg)) && SeedFits(cfg, seed)
  {
    hide AllOk, Agreeable, Next, Safe, Enabled, CanCut, SeedFits, SafeWrite;
    InitialOk(w, cfg);
    acts := [];
    StartEffect(w, cfg, Server);
    var ph := NextKeeps(w, cfg, Idle, Start(Server));
    var z;
    acts, z := RunThen(w, cfg, acts, Start(Server));
    StartEffect(z, cfg, Client);
    ph := NextKeeps(z, cfg, ph, Start(Client));
    acts, z := RunThen(w, cfg, acts, Start(Client));
    StartWritten(cfg, ph, seed);
    var rest := DriveOn(z, cfg, ph, seed);
    RunAppend(w, cfg, acts, rest);
    acts := acts + rest;
  }

  lemma StartWritten(cfg: Config, ph: Phase, seed: bv32)
    requires PhaseRank(cfg, ph) == 0
    ensures Written(cfg, ph, seed)
  {}

  /** A seed whose handshake cannot be cut. */
  lemma SomeSeed(cfg: Config) returns (seed: bv32)
    requires !HandshakeFits(cfg)
    ensures seed != 0 && !(CanCut(cfg, Rpc(Hello("")), AgreedSize(cfg)) && SeedFits(cfg, seed))
  {
    hide CanCut, SeedFits;
    if CanCut(cfg, Rpc(Hello("")), AgreedSize(cfg)) { seed :| seed != 0 && !SeedFits(cfg, seed); } else { seed := 1; }
  }

  /** So for limits a link may have, the condition is exact: every run of the two ends is safe if and only
      if the limits are equal or both leave room for a whole OPEN, and no handshake message has more than
      255 times the capacity of the agreed frame size. */
  lemma SafeExactlyWhen(w: World, cfg: Config)
    requires IsInitial(w, cfg) && cfg.framed && GoodLocals(cfg) && Faithful(cfg.codec)
    ensures (forall acts | IsRun(w, cfg, acts) :: Safe(After(w, cfg, acts), cfg)) <==> Admits(cfg) && HandshakeFits(cfg)
  {
    hide Safe, GoodLocals, IsInitial, Next, Admits, CanCut, SeedFits, Faithful;
    if !Admits(cfg) {
      var acts := BreaksOutside(w, cfg);
    } else if HandshakeFits(cfg) {
      forall acts | IsRun(w, cfg, acts) ensures Safe(After(w, cfg, acts), cfg) { EveryRunIsSafe(w, cfg, acts); }
    } else {
      var seed := SomeSeed(cfg);
      var acts := RunOfSeed(w, cfg, seed);
    }
  }

  /** However well the limits match, event masks that are too long for the agreed size leave the two ends
      waiting for ever: the Identify that carries them is never written. */
  lemma LongMasksFail(w: World, cfg: Config, seed: bv32, own: nat) returns (acts: seq<Act>)
    requires IsInitial(w, cfg) && cfg.framed && GoodLocals(cfg) && Admits(cfg) && Faithful(cfg.codec) && seed != 0
    requires cfg.eventMasks.Some?
    requires |cfg.codec.encodeRpc(Identify("", seed, cfg.eventMasks))| == own + |cfg.eventMasks.value|
    requires own + |cfg.eventMasks.value| > 255 * (AgreedSize(cfg) - Frames.OVERHEAD)
    ensures IsRun(w, cfg, acts) && !Safe(After(w, cfg, acts), cfg)
  {
    hide IsInitial, Safe, Admits, Faithful, After, Deal;
    AgreedIsEnough(cfg);
    acts := RunOfSeed(w, cfg, seed);
  }

  /** With both limits at the smallest value, 200 digits are enough. */
  lemma TwoHundredDigitsFail(w: World, cfg: Config, seed: bv32) returns (acts: seq<Act>)
    requires IsInitial(w, cfg) && cfg.framed && Faithful(cfg.codec) && seed != 0
    requires GoodLocals(cfg) && cfg.serverLocal.maxFrameSize == cfg.clientLocal.maxFrameSize == C.MIN_FRAME_SIZE
    requires cfg.eventMasks.Some? && |cfg.eventMasks.value| == 200
    requires |cfg.codec.encodeRpc(Identify("", seed, cfg.eventMasks))| >= 56 + 200
    ensures IsRun(w, cfg, acts) && !Safe(After(w, cfg, acts), cfg)
  {
    hide IsInitial, Safe, Faithful, After;
    acts := LongMasksFail(w, cfg, seed, |cfg.codec.encodeRpc(Identify("", seed, cfg.eventMasks))| - 200);
  }
}
