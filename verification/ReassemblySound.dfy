/** What the reassembler may say at all, whatever frames it is given (src/protocol/codec/frame.ts,
    MessageReassembler). */
module ReassemblySound {
  import opened Bytes
  import opened Frames
  import opened Reassembler

  // ---------- One frame, case by case ----------

  /** The assemblies that are not older than the timeout. */
  function Live(t: Table, now: nat, timeoutMs: nat): Table {
    map id | id in t && now <= t[id].createdAt + timeoutMs :: t[id]
  }

  lemma LiveIs(t: Table, now: nat, l: Limits)
    ensures t - ExpiredIds(t, now, l.timeoutMs) == Live(t, now, l.timeoutMs)
    ensures |ExpiredIds(t, now, l.timeoutMs)| == |t| - |Live(t, now, l.timeoutMs)| >= 0
  {
    var gone := ExpiredIds(t, now, l.timeoutMs);
    assert (t - gone).Keys == t.Keys - gone && gone <= t.Keys;
    assert |t.Keys - gone| == |t.Keys| - |gone|;
    assert (t - gone).Keys == Live(t, now, l.timeoutMs).Keys;
  }

  predicate AllThere(fragments: seq<Option<seq<byte>>>) {
    forall i :: 0 <= i < |fragments| ==> fragments[i].Some?
  }

  /** What a fragment does to its assembly. One of another type or count takes the assembly away and says nothing; one
      that was there before says nothing; one that makes it too large takes it away with FrameTooLarge; and the last
      one missing takes it away as a message. */
  ghost predicate Adds(t: Table, a: Assembly, f: Frame, l: Limits, t': Table, said: seq<Output>) {
    var id, i := f.header.messageId, f.header.frameIndex;
    if a.payloadType != f.header.payloadType || a.frameCount != f.header.frameCount || i >= |a.fragments| then
      t' == t - {id} && said == []
    else if a.fragments[i].Some? then t' == t && said == []
    else if a.totalSize + |f.payload| > l.maxMessageSize then t' == t - {id} && said == [Error(0x1A)]
    else
      var a' := Assembly(a.payloadType, a.frameCount, a.totalSize + |f.payload|, a.fragments[i := Some(f.payload)], a.createdAt);
      if AllThere(a'.fragments) then t' == t - {id} && said == [Message(id, a.payloadType, Joined(a'.fragments))]
      else t' == t[id := a'] && said == []
  }

  function Fresh(h: Header, now: nat): Assembly {
    Assembly(h.payloadType, h.frameCount, 0, seq(h.frameCount, _ => None), now)
  }

  /** Among the assemblies that are left it joins the one under its id, or opens one unless there are 256
      (FrameFragmentMissing). */
  ghost predicate Joins(live: Table, f: Frame, now: nat, l: Limits, t': Table, said: seq<Output>) {
    var id := f.header.messageId;
    if id !in live && |live| >= 256 then t' == live && said == [Error(0x18)]
    else Adds(live, if id in live then live[id] else Fresh(f.header, now), f, l, t', said)
  }

  lemma MissingIs(fragments: seq<Option<seq<byte>>>)
    ensures SomeMissing(fragments) <==> !AllThere(fragments)
  {}

  lemma AddFragmentAdds(t: Table, a: Assembly, f: Frame, l: Limits)
    ensures var (t', said) := AddFragment(t, a, f, l); Adds(t, a, f, l, t', said)
  {
    hide Joined, SomeMissing, AllThere;
    var i := f.header.frameIndex;
    if i < |a.fragments| { MissingIs(a.fragments[i := Some(f.payload)]); }
  }

  lemma PlaceJoins(live: Table, f: Frame, now: nat, l: Limits)
    ensures var (t', said) := Place(live, f, now, l); Joins(live, f, now, l, t', said)
  {
    hide AddFragment, Adds;
    var id := f.header.messageId;
    assert NewAssembly(f.header, now) == Fresh(f.header, now);
    AddFragmentAdds(live, if id in live then live[id] else NewAssembly(f.header, now), f, l);
  }

  /** A single frame is a message; a fragment of a longer one first makes the assemblies that are too old go, each with
      FrameReassemblyTimeout. */
  lemma FrameOutcome(t: Table, f: Frame, now: nat, l: Limits)
    ensures f.header.frameCount == 1 ==>
      OnFrame(t, f, now, l) ==
        (t, if f.header.frameIndex == 0 then [Message(f.header.messageId, f.header.payloadType, f.payload)] else [])
    ensures f.header.frameCount != 1 ==>
      var (t', outs) := OnFrame(t, f, now, l); var live := Live(t, now, l.timeoutMs);
      |live| <= |t| && exists said :: outs == seq(|t| - |live|, _ => Error(0x19)) + said && Joins(live, f, now, l, t', said)
  {
    hide Joins, Place, ExpiredIds;
    LiveIs(t, now, l);
    PlaceJoins(t - ExpiredIds(t, now, l.timeoutMs), f, now, l);
    var n := |ExpiredIds(t, now, l.timeoutMs)|;
    var said := Place(t - ExpiredIds(t, now, l.timeoutMs), f, now, l).1;
    assert Timeouts(n) == seq(n, _ => Error(0x19));
    if f.header.frameCount != 1 { assert OnFrame(t, f, now, l).1 == seq(n, _ => Error(0x19)) + said; }
  }

  // ---------- Any frames at all ----------

  /** Since some frame, a fragment came that carries this payload as part i of such a message. */
  ghost predicate Came(fs: seq<Timed>, since: nat, id: nat, payloadType: byte, count: nat, i: nat, payload: seq<byte>) {
    exists j :: since <= j < |fs| && IsPart(fs[j].frame, id, payloadType, count, i, payload)
  }

  predicate IsPart(f: Frame, id: nat, payloadType: byte, count: nat, i: nat, payload: seq<byte>) {
    && f.header.messageId == id && f.header.payloadType == payloadType && f.header.frameCount == count
    && f.header.frameIndex == i && f.payload == payload
  }

  /** An assembly holds only fragments that came since its first, all of one message. */
  ghost predicate Traced(fs: seq<Timed>, id: nat, a: Assembly) {
    |a.fragments| == a.frameCount && exists k: nat :: TracedSince(fs, id, a, k)
  }

  ghost predicate TracedSince(fs: seq<Timed>, id: nat, a: Assembly, k: nat) {
    && k < |fs| && fs[k].now == a.createdAt
    && forall i :: 0 <= i < |a.fragments| && a.fragments[i].Some? ==>
         Came(fs, k, id, a.payloadType, a.frameCount, i, a.fragments[i].value)
  }

  ghost predicate AllTraced(fs: seq<Timed>, t: Table) {
    forall id :: id in t ==> Traced(fs, id, t[id])
  }

  lemma CameLater(fs: seq<Timed>, x: Timed, since: nat, id: nat, payloadType: byte, count: nat, i: nat, payload: seq<byte>)
    requires Came(fs, since, id, payloadType, count, i, payload)
    ensures Came(fs + [x], since, id, payloadType, count, i, payload)
  {
    var j :| since <= j < |fs| && IsPart(fs[j].frame, id, payloadType, count, i, payload);
    assert (fs + [x])[j] == fs[j];
  }

  lemma TracedLater(fs: seq<Timed>, x: Timed, id: nat, a: Assembly, k: nat)
    requires TracedSince(fs, id, a, k)
    ensures TracedSince(fs + [x], id, a, k)
  {
    hide Came;
    forall i | 0 <= i < |a.fragments| && a.fragments[i].Some?
      ensures Came(fs + [x], k, id, a.payloadType, a.frameCount, i, a.fragments[i].value)
    {
      CameLater(fs, x, k, id, a.payloadType, a.frameCount, i, a.fragments[i].value);
    }
  }

  /** An assembly with one more fragment, the one that just came. */
  lemma TracedWith(fs: seq<Timed>, x: Timed, a: Assembly, k: nat)
    requires TracedSince(fs + [x], x.frame.header.messageId, a, k) && k <= |fs|
    requires a.payloadType == x.frame.header.payloadType && a.frameCount == x.frame.header.frameCount
    requires x.frame.header.frameIndex < |a.fragments|
    ensures TracedSince(fs + [x], x.frame.header.messageId,
      Assembly(a.payloadType, a.frameCount, a.totalSize + |x.frame.payload|,
               a.fragments[x.frame.header.frameIndex := Some(x.frame.payload)], a.createdAt), k)
  {
    hide Came;
    var all := fs + [x];
    var h := x.frame.header;
    JustCame(fs, x, k);
  }

  lemma JustCame(fs: seq<Timed>, x: Timed, k: nat)
    requires k <= |fs|
    ensures var h := x.frame.header; Came(fs + [x], k, h.messageId, h.payloadType, h.frameCount, h.frameIndex, x.frame.payload)
  {
    assert (fs + [x])[|fs|] == x;
  }

  lemma FreshIsTraced(fs: seq<Timed>, x: Timed)
    ensures TracedSince(fs + [x], x.frame.header.messageId, Fresh(x.frame.header, x.now), |fs|)
  {}

  /** The assembly that a fragment joins. */
  function Target(live: Table, h: Header, now: nat): Assembly {
    if h.messageId in live then live[h.messageId] else Fresh(h, now)
  }

  lemma TargetTraced(fs: seq<Timed>, x: Timed, t: Table, l: Limits) returns (k: nat)
    requires AllTraced(fs, t)
    ensures var a := Target(Live(t, x.now, l.timeoutMs), x.frame.header, x.now);
      && TracedSince(fs + [x], x.frame.header.messageId, a, k) && |a.fragments| == a.frameCount
      && x.now <= a.createdAt + l.timeoutMs
  {
    hide TracedSince;
    var live := Live(t, x.now, l.timeoutMs);
    var id := x.frame.header.messageId;
    if id in live {
      assert Traced(fs, id, t[id]);
      k :| TracedSince(fs, id, t[id], k);
      TracedLater(fs, x, id, t[id], k);
    } else {
      k := |fs|;
      FreshIsTraced(fs, x);
    }
  }

  /** An assembly with the fragment in its place. */
  function Grown(a: Assembly, f: Frame): Assembly
    requires f.header.frameIndex < |a.fragments|
  {
    Assembly(a.payloadType, a.frameCount, a.totalSize + |f.payload|, a.fragments[f.header.frameIndex := Some(f.payload)], a.createdAt)
  }

  predicate Fits(a: Assembly, h: Header) {
    a.payloadType == h.payloadType && a.frameCount == h.frameCount && h.frameIndex < |a.fragments|
  }

  lemma TableAfter(live: Table, f: Frame, now: nat, l: Limits, t': Table, said: seq<Output>)
    requires Joins(live, f, now, l, t', said)
    ensures var id := f.header.messageId; var a := Target(live, f.header, now);
      t' == live || t' == live - {id} || (Fits(a, f.header) && t' == live[id := Grown(a, f)])
  {
    hide Adds, Fits, Grown, Fresh;
    var a := Target(live, f.header, now);
    if Adds(live, a, f, l, t', said) { AddsAfter(live, a, f, l, t', said); }
  }

  lemma AddsAfter(t: Table, a: Assembly, f: Frame, l: Limits, t': Table, said: seq<Output>)
    requires Adds(t, a, f, l, t', said)
    ensures var id := f.header.messageId; t' == t || t' == t - {id} || (Fits(a, f.header) && t' == t[id := Grown(a, f)])
  {
    hide Joined, AllThere;
  }

  lemma LiveTraced(fs: seq<Timed>, x: Timed, t: Table, l: Limits)
    requires AllTraced(fs, t)
    ensures AllTraced(fs + [x], Live(t, x.now, l.timeoutMs))
  {
    hide TracedSince;
    var live := Live(t, x.now, l.timeoutMs);
    forall other | other in live ensures Traced(fs + [x], other, live[other]) {
      assert Traced(fs, other, t[other]);
      var m: nat :| TracedSince(fs, other, t[other], m);
      TracedLater(fs, x, other, t[other], m);
    }
  }

  lemma GrownTraced(fs: seq<Timed>, x: Timed, t: Table, l: Limits)
    requires AllTraced(fs, t) && Fits(Target(Live(t, x.now, l.timeoutMs), x.frame.header, x.now), x.frame.header)
    ensures Traced(fs + [x], x.frame.header.messageId, Grown(Target(Live(t, x.now, l.timeoutMs), x.frame.header, x.now), x.frame))
  {
    hide TracedSince, AllTraced, Live;
    var a := Target(Live(t, x.now, l.timeoutMs), x.frame.header, x.now);
    var k := TargetTraced(fs, x, t, l);
    SinceBound(fs, x, x.frame.header.messageId, a, k);
    TracedWith(fs, x, a, k);
  }

  lemma AddsTraced(fs: seq<Timed>, x: Timed, t: Table, l: Limits, t': Table, said: seq<Output>)
    requires AllTraced(fs, t)
    requires Joins(Live(t, x.now, l.timeoutMs), x.frame, x.now, l, t', said)
    ensures AllTraced(fs + [x], t')
  {
    hide Traced, Joins, Live, Target, Grown, Fits;
    var live := Live(t, x.now, l.timeoutMs);
    LiveTraced(fs, x, t, l);
    TableAfter(live, x.frame, x.now, l, t', said);
    if Fits(Target(live, x.frame.header, x.now), x.frame.header) { GrownTraced(fs, x, t, l); }
  }

  lemma SinceBound(fs: seq<Timed>, x: Timed, id: nat, a: Assembly, k: nat)
    requires TracedSince(fs + [x], id, a, k)
    ensures k <= |fs|
  {}

  lemma {:induction false} RunIsTraced(fs: seq<Timed>, l: Limits)
    ensures AllTraced(fs, Run(map[], fs, l).0)
    decreases |fs|
  {
    hide OnFrame, Joins, Traced, Live;
    if fs != [] {
      var n := |fs| - 1;
      RunIsTraced(fs[..n], l);
      StepTraced(fs[..n], fs[n], Run(map[], fs[..n], l).0, l);
      assert fs == fs[..n] + [fs[n]];
    }
  }

  lemma StepTraced(fs: seq<Timed>, x: Timed, t: Table, l: Limits)
    requires AllTraced(fs, t)
    ensures AllTraced(fs + [x], OnFrame(t, x.frame, x.now, l).0)
  {
    hide OnFrame, Joins, TracedSince, Live;
    FrameOutcome(t, x.frame, x.now, l);
    if x.frame.header.frameCount == 1 {
      forall id | id in t ensures Traced(fs + [x], id, t[id]) {
        assert Traced(fs, id, t[id]);
        var k: nat :| TracedSince(fs, id, t[id], k);
        TracedLater(fs, x, id, t[id], k);
      }
    } else {
      var (t', outs) := OnFrame(t, x.frame, x.now, l);
      var live := Live(t, x.now, l.timeoutMs);
      var said :| outs == seq(|t| - |live|, _ => Error(0x19)) + said && Joins(live, x.frame, x.now, l, t', said);
      AddsTraced(fs, x, t, l, t', said);
    }
  }

  // ---------- Deliveries ----------

  /** A message is whole: its parts came since frame k, no longer ago than the timeout, each under its own index, all with
      the message's id, type and count; its body is the parts in order. */
  ghost predicate IsWhole(fs: seq<Timed>, k: nat, parts: seq<seq<byte>>, o: Output, now: nat, timeoutMs: nat) {
    && o.Message? && k < |fs| && now <= fs[k].now + timeoutMs
    && parts != [] && o.body == Flatten(parts)
    && forall i :: 0 <= i < |parts| ==> Came(fs, k, o.messageId, o.payloadType, |parts|, i, parts[i])
  }

  function PartsOf(fragments: seq<Option<seq<byte>>>): (parts: seq<seq<byte>>)
    requires AllThere(fragments)
    ensures |parts| == |fragments|
  {
    seq(|fragments|, i requires 0 <= i < |fragments| => fragments[i].value)
  }

  lemma {:induction false} JoinedIs(fragments: seq<Option<seq<byte>>>)
    requires AllThere(fragments)
    ensures Joined(fragments) == Flatten(PartsOf(fragments))
  {
    if fragments != [] {
      JoinedIs(fragments[1..]);
      assert PartsOf(fragments)[1..] == PartsOf(fragments[1..]);
    }
  }

  lemma JoinedIsWhole(fs: seq<Timed>, x: Timed, t: Table, l: Limits, t': Table, said: seq<Output>, o: Output)
    returns (k: nat, parts: seq<seq<byte>>)
    requires AllTraced(fs, t) && Joins(Live(t, x.now, l.timeoutMs), x.frame, x.now, l, t', said) && o in said && o.Message?
    ensures IsWhole(fs + [x], k, parts, o, x.now, l.timeoutMs)
  {
    hide AllTraced, Joined, Came, Flatten;
    var a := Target(Live(t, x.now, l.timeoutMs), x.frame.header, x.now);
    k := TargetTraced(fs, x, t, l);
    TracedWith(fs, x, a, k);
    var fragments := a.fragments[x.frame.header.frameIndex := Some(x.frame.payload)];
    JoinedIs(fragments);
    parts := PartsOf(fragments);
  }

  /** Whatever frames come, in whatever order and from whomever: every message delivered was put together from fragments
      that came within the timeout before it, all with its id, type and count and each under its own index. */
  lemma DeliveredIsWhole(fs: seq<Timed>, x: Timed, l: Limits, o: Output) returns (k: nat, parts: seq<seq<byte>>)
    requires o in OnFrame(Run(map[], fs, l).0, x.frame, x.now, l).1 && o.Message?
    ensures IsWhole(fs + [x], k, parts, o, x.now, l.timeoutMs)
  {
    hide OnFrame, Run, Joins, AllTraced, Live, Flatten, Came;
    var t := Run(map[], fs, l).0;
    RunIsTraced(fs, l);
    FrameOutcome(t, x.frame, x.now, l);
    if x.frame.header.frameCount == 1 {
      k, parts := |fs|, [x.frame.payload];
      JustCame(fs, x, |fs|);
      assert Flatten(parts) == x.frame.payload by { FlattenOne(x.frame.payload); }
    } else {
      var (t', outs) := OnFrame(t, x.frame, x.now, l);
      var live := Live(t, x.now, l.timeoutMs);
      var said :| outs == seq(|t| - |live|, _ => Error(0x19)) + said && Joins(live, x.frame, x.now, l, t', said);
      assert o in said;
      k, parts := JoinedIsWhole(fs, x, t, l, t', said, o);
    }
  }

  lemma FlattenOne(p: seq<byte>)
    ensures Flatten([p]) == p
  {
    assert [p][1..] == [] && Flatten([p]) == p + Flatten([p][1..]);
  }

  /** After a fragment of a longer message nothing is left that is older than the timeout. */
  lemma NothingStaysTooLong(t: Table, f: Frame, now: nat, l: Limits, id: nat)
    requires f.header.frameCount != 1 && id in OnFrame(t, f, now, l).0
    ensures now <= OnFrame(t, f, now, l).0[id].createdAt + l.timeoutMs
  {
    hide OnFrame, Joins;
    FrameOutcome(t, f, now, l);
    var (t', outs) := OnFrame(t, f, now, l);
    var live := Live(t, now, l.timeoutMs);
    var said :| outs == seq(|t| - |live|, _ => Error(0x19)) + said && Joins(live, f, now, l, t', said);
    TableAfter(live, f, now, l, t', said);
  }
}
