/** The streaming frame decoder (src/protocol/codec/frame.ts, FrameDecoder). */
module Decoder {
  import opened Bytes
  import opened Frames

  /** What the decoder hands on: a frame, or the code of a frame error. */
  datatype Event = Got(frame: Frame) | Failed(code: nat)

  /** Whatever listens to the decoder. A delivered OPEN or ACCEPT makes the listener change the
      decoder's frame limit before the decoder looks at the next byte, so the limit is read off
      the listener's state after every event. */
  datatype Listener<!D> = Listener(react: (D, Event) -> D, limit: D -> nat)

  // ---------- Specification: the leftmost scanner ----------

  function Scan<D>(next: Listener<D>, b: seq<byte>, d: D): (r: (seq<byte>, D))
    decreases |b|
  {
    match Judge(b, next.limit(d))
    case Wait => (b, d)
    case Drop => Scan(next, b[1..], d)
    case Reject(code) => Scan(next, b[1..], next.react(d, Failed(code)))
    case Accept(frame, size) => Scan(next, b[size..], next.react(d, Got(frame)))
  }

  ghost predicate AtRest<D>(next: Listener<D>, b: seq<byte>, d: D) {
    Judge(b, next.limit(d)) == Wait
  }

  lemma {:induction false} ScanComesToRest<D>(next: Listener<D>, b: seq<byte>, d: D)
    ensures AtRest(next, Scan(next, b, d).0, Scan(next, b, d).1)
    decreases |b|
  {
    match Judge(b, next.limit(d))
    case Wait =>
    case Drop => ScanComesToRest(next, b[1..], d);
    case Reject(code) => ScanComesToRest(next, b[1..], next.react(d, Failed(code)));
    case Accept(frame, size) => ScanComesToRest(next, b[size..], next.react(d, Got(frame)));
  }

  /** Scanning in two instalments is scanning once. */
  lemma {:induction false} ScanAppend<D>(next: Listener<D>, b: seq<byte>, more: seq<byte>, d: D)
    ensures Scan(next, b + more, d) == Scan(next, Scan(next, b, d).0 + more, Scan(next, b, d).1)
    decreases |b|
  {
    hide Judge;
    var v := Judge(b, next.limit(d));
    if v != Wait {
      JudgeStable(b, more, next.limit(d));
      assert |b| > 0;
      assert (b + more)[1..] == b[1..] + more;
    }
    match v
    case Wait =>
    case Drop => ScanAppend(next, b[1..], more, d);
    case Reject(code) => ScanAppend(next, b[1..], more, next.react(d, Failed(code)));
    case Accept(frame, size) =>
      assert (b + more)[size..] == b[size..] + more;
      ScanAppend(next, b[size..], more, next.react(d, Got(frame)));
  }

  // ---------- Chunks ----------

  /** A run of onBytes calls. */
  function Feed<D>(next: Listener<D>, b: seq<byte>, d: D, chunks: seq<seq<byte>>): (seq<byte>, D)
    decreases |chunks|
  {
    if chunks == [] then (b, d)
    else
      var (b', d') := Scan(next, b + chunks[0], d);
      Feed(next, b', d', chunks[1..])
  }

  /** A run of onBytes calls ends exactly where one call with all the bytes would. */
  lemma {:induction false} FeedIsScan<D>(next: Listener<D>, b: seq<byte>, d: D, chunks: seq<seq<byte>>)
    requires AtRest(next, b, d)
    ensures Feed(next, b, d, chunks) == Scan(next, b + Flatten(chunks), d)
    decreases |chunks|
  {
    if chunks == [] {
      assert b + Flatten(chunks) == b;
    } else {
      var (b', d') := Scan(next, b + chunks[0], d);
      ScanComesToRest(next, b + chunks[0], d);
      FeedIsScan(next, b', d', chunks[1..]);
      ScanAppend(next, b + chunks[0], Flatten(chunks[1..]), d);
      Associative(b, chunks[0], Flatten(chunks[1..]));
    }
  }

  /** Chunking independence: the cuts do not matter to the listener, to the errors it hears about,
      to the frame limits it sets on the way or to the leftover bytes. */
  lemma ChunkingIndependence<D>(next: Listener<D>, b: seq<byte>, d: D, one: seq<seq<byte>>, other: seq<seq<byte>>)
    requires AtRest(next, b, d) && Flatten(one) == Flatten(other)
    ensures Feed(next, b, d, one) == Feed(next, b, d, other)
  {
    FeedIsScan(next, b, d, one);
    FeedIsScan(next, b, d, other);
  }

  /** The leftover is always shorter than a header with checksum or than the limit in force. */
  lemma LeftoverIsShort<D>(next: Listener<D>, b: seq<byte>, d: D)
    ensures var (b', d') := Scan(next, b, d); |b'| < OVERHEAD || |b'| < next.limit(d')
  {
    ScanComesToRest(next, b, d);
    var (b', d') := Scan(next, b, d);
    WaitingIsShort(b', next.limit(d'));
  }

  // ---------- What is delivered stands in the input ----------

  /** Something heard, and the frame limit in force when it was. */
  datatype Heard = Heard(event: Event, limit: nat)

  /** The same listener with a record of what it heard. */
  function Recording<D(!new)>(next: Listener<D>): Listener<(D, seq<Heard>)> {
    Listener((r: (D, seq<Heard>), e: Event) => (next.react(r.0, e), r.1 + [Heard(e, next.limit(r.0))]),
             (r: (D, seq<Heard>)) => next.limit(r.0))
  }

  /** What a scan says, in order. */
  function Told<D(!new)>(next: Listener<D>, b: seq<byte>, d: D): seq<Heard> {
    Scan(Recording(next), b, (d, [])).1.1
  }

  /** Some position from the given one on accounts for an event: a valid frame within the limit stands there, the one
      delivered, and is its own encoding; or bytes stand there that are rejected with the code reported. */
  predicate StandsAt(h: Heard, b: seq<byte>) {
    match h.event
    case Got(f) =>
      StartsWithFrame(b, h.limit) && f == FrameAtFront(b) && |Encode(f)| <= |b| && b[..|Encode(f)|] == Encode(f)
    case Failed(code) => Judge(b, h.limit) == Reject(code)
  }

  function Extent(e: Event): nat {
    if e.Got? then |Encode(e.frame)| else 1
  }

  /** The events stand in the bytes one after another, without overlap. */
  ghost predicate StandIn(told: seq<Heard>, b: seq<byte>)
    decreases |told|
  {
    told == [] || exists i: nat :: FirstAt(told, b, i)
  }

  ghost predicate FirstAt(told: seq<Heard>, b: seq<byte>, i: nat)
    requires told != []
    decreases |told|, 0
  {
    && i <= |b| && StandsAt(told[0], b[i..])
    && i + Extent(told[0].event) <= |b| && StandIn(told[1..], b[i + Extent(told[0].event)..])
  }

  lemma Prepend(told: seq<Heard>, b: seq<byte>, n: nat)
    requires n <= |b| && StandIn(told, b[n..])
    ensures StandIn(told, b)
  {
    hide StandsAt, Extent;
    if told != [] {
      var i: nat :| FirstAt(told, b[n..], i);
      assert b[n..][i..] == b[n + i..];
      assert b[n..][i + Extent(told[0].event)..] == b[n + i + Extent(told[0].event)..];
      assert FirstAt(told, b, n + i);
    }
  }

  lemma ThenRest(h: Heard, rest: seq<Heard>, b: seq<byte>)
    requires StandsAt(h, b) && Extent(h.event) <= |b| && StandIn(rest, b[Extent(h.event)..])
    ensures StandIn([h] + rest, b)
  {
    hide StandsAt, Extent;
    assert b[0..] == b && ([h] + rest)[1..] == rest;
    assert FirstAt([h] + rest, b, 0);
  }

  /** Keeping the record changes nothing, and every event recorded stands in the bytes. */
  lemma {:induction false} RecordedStands<D(!new)>(next: Listener<D>, b: seq<byte>, d: D, before: seq<Heard>)
    ensures var (left, r) := Scan(Recording(next), b, (d, before));
      && (left, r.0) == Scan(next, b, d)
      && |before| <= |r.1| && r.1[..|before|] == before && StandIn(r.1[|before|..], b)
    decreases |b|
  {
    hide Judge, StartsWithFrame, FrameAtFront, Encode;
    var v := Judge(b, next.limit(d));
    if v.Drop? {
      RecordedStands(next, b[1..], d, before);
      Prepend(Scan(Recording(next), b, (d, before)).1.1[|before|..], b, 1);
    } else if !v.Wait? {
      var e := if v.Accept? then Got(v.frame) else Failed(v.code);
      var size := if v.Accept? then v.size else 1;
      var h := Heard(e, next.limit(d));
      RecordedStands(next, b[size..], next.react(d, e), before + [h]);
      var all := Scan(Recording(next), b, (d, before)).1.1;
      assert all[|before|..] == [h] + all[|before| + 1..];
      if v.Accept? {
        AcceptedIff(b, next.limit(d));
        AcceptedIsEncoded(b, next.limit(d));
      }
      ThenRest(h, all[|before| + 1..], b);
    }
  }

  /** Whatever bytes arrive, with whatever listener: every frame delivered stands in them as a valid frame within the
      limit in force and as its own encoding, every error reported stands where the bytes deserve it, and no two of
      them overlap. */
  lemma OnlyValidFramesDelivered<D(!new)>(next: Listener<D>, b: seq<byte>, d: D)
    ensures StandIn(Told(next, b, d), b)
    ensures (Scan(Recording(next), b, (d, [])).0, Scan(Recording(next), b, (d, [])).1.0) == Scan(next, b, d)
  {
    hide Scan, StandIn;
    RecordedStands(next, b, d, []);
    assert Told(next, b, d)[0..] == Told(next, b, d);
  }

  // ---------- Garbage before a frame ----------

  predicate MagicAt(b: seq<byte>, i: nat) {
    i + 1 < |b| && b[i] == MAGIC0 && b[i + 1] == MAGIC1
  }

  /** Positions that cannot start a frame are dropped without a word. */
  lemma {:induction false} ScanSkips<D>(next: Listener<D>, b: seq<byte>, n: nat, d: D)
    requires n <= |b|
    requires forall i :: 0 <= i < n ==> !MagicAt(b, i)
    requires n == |b| ==> n == 0 || b[n - 1] != MAGIC0
    ensures Scan(next, b, d) == Scan(next, b[n..], d)
    decreases n
  {
    if n == 0 {
      assert b[n..] == b;
    } else {
      assert !MagicAt(b, 0);
      forall i | 0 <= i < n - 1 ensures !MagicAt(b[1..], i) { assert !MagicAt(b, i + 1); }
      ScanSkips(next, b[1..], n - 1, d);
      assert b[1..][n - 1..] == b[n..];
    }
  }

  lemma EncodeStartsWithMagic(f: Frame)
    ensures Encode(f)[0] == MAGIC0
  {}

  /** A sendable frame at the front is delivered whole. */
  lemma ScanEncoded<D>(next: Listener<D>, f: Frame, rest: seq<byte>, d: D)
    requires Sendable(f, next.limit(d))
    ensures Scan(next, Encode(f) + rest, d) ==
            Scan(next, rest, next.react(d, Got(f.(crc16 := Crc.Crc16(Covered(f))))))
  {
    hide Judge, Encode, Sendable, Crc.Crc16, Covered;
    EncodeRoundTrip(f, rest, next.limit(d));
    assert (Encode(f) + rest)[|Encode(f)|..] == rest;
  }

  /** Garbage without a 0x41 0x58 pair, in front of a sendable frame, costs nothing: the frame
      is the first thing the listener hears about. */
  lemma GarbageIsSkipped<D>(next: Listener<D>, garbage: seq<byte>, f: Frame, rest: seq<byte>, d: D)
    requires forall i :: 0 <= i < |garbage| ==> !MagicAt(garbage, i)
    requires Sendable(f, next.limit(d))
    ensures Scan(next, garbage + Encode(f) + rest, d) ==
            Scan(next, rest, next.react(d, Got(f.(crc16 := Crc.Crc16(Covered(f))))))
  {
    hide Judge, Encode, Sendable, Crc.Crc16, Covered;
    var n := |garbage|;
    var b := garbage + Encode(f) + rest;
    EncodeStartsWithMagic(f);
    forall i | 0 <= i < n ensures !MagicAt(b, i) { assert !MagicAt(garbage, i); }
    ScanSkips(next, b, n, d);
    assert b[n..] == Encode(f) + rest;
    ScanEncoded(next, f, rest, d);
  }

  /** A frame whose payload was hit by a burst of at most sixteen bits is never delivered from where it starts:
      the listener hears of a checksum error and the scan goes on one byte later. */
  lemma DamageIsRejected<D>(next: Listener<D>, f: Frame, payload: seq<byte>, q: nat, rest: seq<byte>, d: D)
    requires Sendable(f, next.limit(d)) && payload != f.payload && Crc.AgreeOutside(f.payload, payload, q, 16)
    ensures var b := WithPayload(f, payload) + rest;
      Scan(next, b, d) == Scan(next, b[1..], next.react(d, Failed(FRAME_CRC_ERROR)))
  {
    BurstDamageReported(f, payload, q, rest, next.limit(d));
  }

  lemma ShortWaits(b: seq<byte>, limit: nat)
    requires |b| < OVERHEAD && (MagicAt(b, 0) || b == [] || b == [MAGIC0])
    ensures Judge(b, limit) == Wait
  {}

  lemma SliceOfSlice(b: seq<byte>, n: nat)
    requires OVERHEAD <= n <= |b|
    ensures U16At(b[..n][n - CRC_SIZE..], 0) == U16At(b, n - CRC_SIZE)
    ensures b[..n][..n - CRC_SIZE] == b[..n - CRC_SIZE]
    ensures b[..n][HEADER_SIZE..n - CRC_SIZE] == b[HEADER_SIZE..n - CRC_SIZE]
  {}

  // ---------- The decoder object ----------

  class FrameDecoder<D> {
    var buffer: seq<byte>
    var maxFrameSize: nat
    var listener: D
    const next: Listener<D>

    ghost predicate Valid()
      reads this
    {
      maxFrameSize == next.limit(listener)
    }

    constructor (next: Listener<D>, listener: D)
      ensures Valid() && buffer == [] && this.listener == listener && this.next == next
      ensures AtRest(next, buffer, listener)
    {
      this.buffer := [];
      this.next := next;
      this.listener := listener;
      this.maxFrameSize := next.limit(listener);
    }

    method SetMaxFrameSize(size: nat)
      modifies this`maxFrameSize
      ensures maxFrameSize == size
    {
      maxFrameSize := size;
    }

    /** One call into the listener, which may call back setMaxFrameSize. */
    method Notify(event: Event)
      requires Valid()
      modifies this`listener, this`maxFrameSize
      ensures Valid() && listener == next.react(old(listener), event)
    {
      listener := next.react(listener, event);
      SetMaxFrameSize(next.limit(listener));
    }

    method Consume(count: nat)
      requires count <= |buffer|
      modifies this`buffer
      ensures buffer == old(buffer)[count..]
    {
      buffer := buffer[count..];
    }

    method ResyncToMagic()
      modifies this`buffer
      ensures Scan(next, buffer, listener) == Scan(next, old(buffer), listener)
      ensures |buffer| <= |old(buffer)|
      ensures MagicAt(buffer, 0) || buffer == [] || buffer == [MAGIC0]
    {
      var i := 0;
      while i + 1 < |buffer|
        invariant 0 <= i <= |buffer|
        invariant forall k :: 0 <= k < i ==> !MagicAt(buffer, k)
        invariant |buffer| > 0 ==> i < |buffer|
      {
        if buffer[i] == MAGIC0 && buffer[i + 1] == MAGIC1 {
          ScanSkips(next, buffer, i, listener);
          if i > 0 { Consume(i); }
          return;
        }
        i := i + 1;
      }
      if |buffer| == 0 { return; }
      var keep := if buffer[|buffer| - 1] == MAGIC0 then 1 else 0;
      ScanSkips(next, buffer, |buffer| - keep, listener);
      Consume(|buffer| - keep);
    }

    /** The loop over the buffer does what the leftmost scanner does. */
    method ParseLoop()
      requires Valid()
      modifies this`buffer, this`listener, this`maxFrameSize
      ensures Valid() && (buffer, listener) == Scan(next, old(buffer), old(listener))
    {
      hide Judge, ReadHeader, U16At, Crc.Crc16;
      while true
        invariant Valid()
        invariant Scan(next, buffer, listener) == Scan(next, old(buffer), old(listener))
        decreases |buffer|
      {
        ResyncToMagic();
        if |buffer| < HEADER_SIZE + CRC_SIZE { ShortWaits(buffer, maxFrameSize); return; }

        var header := ReadHeader(buffer[..HEADER_SIZE]);
        JudgeHeader(buffer, maxFrameSize);
        if header.version != VERSION1 {
          Notify(Failed(FRAME_VERSION_UNSUPPORTED));
          Consume(1);
          continue;
        }
        if !IsPayloadType(header.payloadType) {
          Notify(Failed(FRAME_PAYLOAD_TYPE_INVALID));
          Consume(1);
          continue;
        }
        if header.frameCount == 0 || header.frameIndex >= header.frameCount {
          Notify(Failed(FRAME_FRAGMENT_INVALID));
          Consume(1);
          continue;
        }
        if header.payloadLength + HEADER_SIZE + CRC_SIZE > maxFrameSize {
          Notify(Failed(FRAME_TOO_LARGE));
          Consume(1);
          continue;
        }

        var totalSize := HEADER_SIZE + header.payloadLength + CRC_SIZE;
        if |buffer| < totalSize { return; }

        JudgeComplete(buffer, header, maxFrameSize);
        SliceOfSlice(buffer, totalSize);
        var frameBytes := buffer[..totalSize];
        var expectedCrc := U16At(frameBytes[totalSize - CRC_SIZE..], 0);
        var actualCrc := Crc.Crc16CcittFalse(frameBytes[..totalSize - CRC_SIZE]);
        if expectedCrc != actualCrc as int {
          Notify(Failed(FRAME_CRC_ERROR));
          Consume(1);
          continue;
        }
        var payload := frameBytes[HEADER_SIZE..HEADER_SIZE + header.payloadLength];
        Consume(totalSize);
        Notify(Got(Frame(header, payload, expectedCrc)));
      }
    }

    method OnBytes(bytes: seq<byte>)
      requires Valid()
      modifies this`buffer, this`listener, this`maxFrameSize
      ensures Valid() && (buffer, listener) == Scan(next, old(buffer) + bytes, old(listener))
      ensures AtRest(next, buffer, listener)
    {
      buffer := buffer + bytes;
      ScanComesToRest(next, buffer, listener);
      ParseLoop();
    }
  }
}
