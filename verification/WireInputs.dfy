/** Whatever bytes a framed wire reads, its core sees a run of inputs (src/core/wire/framed.ts, src/core/core.ts). */
module WireInputs {
  import opened Bytes
  import opened Frames
  import opened Decoder
  import opened Reassembler
  import opened FramedWire
  import opened PayloadCodec
  import K = Core
  import M = Messages

  /** Inputs taken one after another. */
  function Steps(c: K.Core, inputs: seq<K.Input>): K.Core
    decreases |inputs|
  {
    if inputs == [] then c else Steps(K.Step(c, inputs[0]), inputs[1..])
  }

  /** What a core sees of something the reassembler says: control bodies, RPC messages and stream data as they decode,
      errors by their code, and nothing of what is blank or of another type. */
  function Seen(o: Output, random: bv32, codec: Codec): seq<K.Input> {
    match o
    case Error(code) => [K.FrameError(code)]
    case Message(_, payloadType, body) =>
      if payloadType == 1 then [K.ControlIn(body)]
      else if payloadType == 2 then
        match codec.decodeRpc(body)
        case Parsed(msg) => [K.RpcIn(msg, random)]
        case Broken(code) => [K.FrameError(code)]
        case Blank => []
      else if payloadType == 3 then
        (if codec.decodeStream(body).Some? then [K.StreamIn(codec.decodeStream(body).value.0, codec.decodeStream(body).value.1)] else [])
      else []
  }

  function AllSeen(outs: seq<Output>, random: bv32, codec: Codec): seq<K.Input>
    decreases |outs|
  {
    if outs == [] then [] else Seen(outs[0], random, codec) + AllSeen(outs[1..], random, codec)
  }

  /** Inputs that come from the wire. */
  ghost predicate AllFromWire(inputs: seq<K.Input>) {
    forall i :: 0 <= i < |inputs| ==> inputs[i].ControlIn? || inputs[i].RpcIn? || inputs[i].StreamIn? || inputs[i].FrameError?
  }

  lemma {:induction false} StepsAppend(c: K.Core, a: seq<K.Input>, b: seq<K.Input>)
    ensures Steps(c, a + b) == Steps(Steps(c, a), b)
    decreases |a|
  {
    hide K.Step;
    if a == [] {
      assert a + b == b;
    } else {
      assert (a + b)[1..] == a[1..] + b && (a + b)[0] == a[0];
      StepsAppend(K.Step(c, a[0]), a[1..], b);
    }
  }

  lemma OneStep(c: K.Core, i: K.Input)
    ensures Steps(c, [i]) == K.Step(c, i) && Steps(c, []) == c
  {
    hide K.Step;
    assert [i][1..] == [];
    assert Steps(K.Step(c, i), []) == K.Step(c, i);
  }

  lemma DispatchIsSeen(p: Port, id: nat, payloadType: byte, body: seq<byte>, codec: Codec)
    ensures Dispatch(p, payloadType, body, codec) ==
            p.(core := Steps(p.core, Seen(Message(id, payloadType, body), p.random, codec)))
  {
    hide K.HandleControlBody, K.HandleRpc, K.HandleStream, Steps;
    var seen := Seen(Message(id, payloadType, body), p.random, codec);
    OneStep(p.core, if seen == [] then K.LinkUp else seen[0]);
    assert seen == [] || seen == [seen[0]];
  }

  lemma HearOneMore(p: Port, outs: seq<Output>, codec: Codec)
    requires outs != []
    ensures Hear(p, outs, codec) == Hear(p.(core := Steps(p.core, Seen(outs[0], p.random, codec))), outs[1..], codec)
  {
    hide Steps, Dispatch;
    match outs[0]
    case Message(id, payloadType, body) =>
      DispatchIsSeen(p, id, payloadType, body, codec);
      HearMessage(p, outs, codec);
    case Error(code) =>
      OneStep(p.core, K.FrameError(code));
      assert Hear(p, outs, codec) == Hear(p.(core := K.Emit(p.core, M.Failed(code))), outs[1..], codec);
  }

  lemma HearMessage(p: Port, outs: seq<Output>, codec: Codec)
    requires outs != [] && outs[0].Message?
    ensures Hear(p, outs, codec) == Hear(Dispatch(p, outs[0].payloadType, outs[0].body, codec), outs[1..], codec)
  {
    hide Dispatch;
  }

  lemma {:induction false} HearIsSteps(p: Port, outs: seq<Output>, codec: Codec)
    ensures Hear(p, outs, codec) == p.(core := Steps(p.core, AllSeen(outs, p.random, codec)))
    decreases |outs|
  {
    hide Seen, Dispatch;
    if outs != [] {
      HearOneMore(p, outs, codec);
      var first := Seen(outs[0], p.random, codec);
      HearIsSteps(p.(core := Steps(p.core, first)), outs[1..], codec);
      StepsAppend(p.core, first, AllSeen(outs[1..], p.random, codec));
    }
  }

  /** The inputs of one event of the decoder. */
  function OfEvent(p: Port, e: Decoder.Event, codec: Codec): seq<K.Input> {
    match e
    case Got(frame) => AllSeen(OnFrame(p.table, frame, p.now, p.limits).1, p.random, codec)
    case Failed(code) => [K.FrameError(code)]
  }

  lemma EventIsSteps(p: Port, e: Decoder.Event, codec: Codec)
    ensures var p' := HearEvent(p, e, codec);
      p'.core == Steps(p.core, OfEvent(p, e, codec)) && p'.limits == p.limits && p'.now == p.now && p'.random == p.random
  {
    hide OnFrame, Hear, AllSeen;
    match e
    case Got(frame) =>
      var (t, outs) := OnFrame(p.table, frame, p.now, p.limits);
      HearIsSteps(p.(table := t), outs, codec);
    case Failed(code) => OneStep(p.core, K.FrameError(code));
  }

  /** Any bytes at all are a run of inputs to the core. */
  lemma {:induction false} BytesAreInputs(p: Port, b: seq<byte>, codec: Codec) returns (inputs: seq<K.Input>)
    ensures Scan(Reader(codec), b, p).1.core == Steps(p.core, inputs)
    ensures AllFromWire(inputs)
    decreases |b|, 0
  {
    hide Judge, HearEvent, OfEvent;
    match Judge(b, p.core.maxFrameSize)
    case Wait => inputs := [];
    case Drop => inputs := BytesAreInputs(p, b[1..], codec);
    case Reject(code) => inputs := EventThenBytes(p, Decoder.Failed(code), b[1..], codec);
    case Accept(frame, size) => inputs := EventThenBytes(p, Got(frame), b[size..], codec);
  }

  lemma {:induction false} EventThenBytes(p: Port, e: Decoder.Event, rest: seq<byte>, codec: Codec) returns (inputs: seq<K.Input>)
    ensures Scan(Reader(codec), rest, HearEvent(p, e, codec)).1.core == Steps(p.core, inputs)
    ensures AllFromWire(inputs)
    decreases |rest|, 1
  {
    hide HearEvent, Scan;
    EventIsSteps(p, e, codec);
    var p' := HearEvent(p, e, codec);
    var more := BytesAreInputs(p', rest, codec);
    SeenKinds(p, e, codec);
    inputs := OfEvent(p, e, codec) + more;
    StepsAppend(p.core, OfEvent(p, e, codec), more);
  }

  lemma SeenKinds(p: Port, e: Decoder.Event, codec: Codec)
    ensures AllFromWire(OfEvent(p, e, codec))
  {
    hide OnFrame, Seen, AllSeen;
    if e.Got? { AllSeenKinds(OnFrame(p.table, e.frame, p.now, p.limits).1, p.random, codec); }
  }

  lemma {:induction false} AllSeenKinds(outs: seq<Output>, random: bv32, codec: Codec)
    ensures AllFromWire(AllSeen(outs, random, codec))
    decreases |outs|
  {
    if outs != [] {
      AllSeenKinds(outs[1..], random, codec);
      assert AllFromWire(Seen(outs[0], random, codec));
    }
  }

  lemma {:induction false} StepsKeep(c: K.Core, inputs: seq<K.Input>)
    requires K.Inv(c)
    ensures K.Inv(Steps(c, inputs)) && M.Rank(c.gate) <= M.Rank(Steps(c, inputs).gate)
    decreases |inputs|
  {
    hide K.Inv, K.Step;
    if inputs != [] {
      K.StepKeeps(c, inputs[0]);
      StepsKeep(K.Step(c, inputs[0]), inputs[1..]);
    }
  }

  /** So no bytes, whoever sends them, can break a core: whatever is read, the core's invariant holds after it and the
      gate has not gone back. */
  lemma AnyBytesKeep(p: Port, b: seq<byte>, codec: Codec)
    requires K.Inv(p.core)
    ensures var p' := Scan(Reader(codec), b, p).1; K.Inv(p'.core) && M.Rank(p.core.gate) <= M.Rank(p'.core.gate)
  {
    hide K.Inv, Scan;
    var inputs := BytesAreInputs(p, b, codec);
    StepsKeep(p.core, inputs);
  }
}
