/** Reassembly does not depend on the order in which fragments arrive. */
module Interleaving {
  import opened Bytes
  import opened Frames
  import opened Reassembler

  /** A message as its sender cut it. */
  datatype Source = Source(payloadType: byte, parts: seq<seq<byte>>)

  type Sources = map<nat, Source>

  predicate IsFragmentOf(f: Frame, src: Sources) {
    && f.header.messageId in src
    && var s := src[f.header.messageId];
       && f.header.payloadType == s.payloadType
       && f.header.frameCount == |s.parts|
       && f.header.frameIndex < |s.parts|
       && f.payload == s.parts[f.header.frameIndex]
  }

  /** The fragments of one message that a run has brought so far. */
  function Seen(fs: seq<Timed>, id: nat): set<nat> {
    if fs == [] then {}
    else
      var f := fs[|fs| - 1].frame;
      Seen(fs[..|fs| - 1], id) + if f.header.messageId == id then {f.header.frameIndex as nat} else {}
  }

  predicate Complete(fs: seq<Timed>, id: nat, src: Sources)
    requires id in src
  {
    forall i :: 0 <= i < |src[id].parts| ==> i in Seen(fs, id)
  }

  function Pending(fs: seq<Timed>, src: Sources): set<nat> {
    set id | id in src && Seen(fs, id) != {} && !Complete(fs, id, src)
  }

  function PartsSize(parts: seq<seq<byte>>): nat {
    if parts == [] then 0 else |parts[0]| + PartsSize(parts[1..])
  }

  /** The next frame belongs to a message that is not complete yet, there is room for it, and nothing
      that is pending has been waiting for longer than the timeout. */
  ghost predicate Allowed(fs: seq<Timed>, last: Timed, src: Sources, l: Limits) {
    && IsFragmentOf(last.frame, src)
    && var id := last.frame.header.messageId;
       && !Complete(fs, id, src)
       && PartsSize(src[id].parts) <= l.maxMessageSize
       && (id in Pending(fs, src) || |src[id].parts| == 1 || |Pending(fs, src)| < MAX_PENDING_ASSEMBLIES)
       && forall k :: 0 <= k < |fs| && fs[k].frame.header.messageId in Pending(fs, src) ==> last.now - fs[k].now <= l.timeoutMs
  }

  /** Any interleaving, in any order, with repetitions of fragments of messages not yet complete. */
  ghost predicate GoodRun(fs: seq<Timed>, src: Sources, l: Limits) {
    fs == [] || (GoodRun(fs[..|fs| - 1], src, l) && Allowed(fs[..|fs| - 1], fs[|fs| - 1], src, l))
  }

  // ---------- What the table looks like in a good run ----------

  function Slots(parts: seq<seq<byte>>, seen: set<nat>): (slots: seq<Option<seq<byte>>>)
    ensures |slots| == |parts|
  {
    seq(|parts|, i requires 0 <= i < |parts| => if i in seen then Some(parts[i]) else None)
  }

  /** An assembly that holds exactly the fragments seen and is as old as one of them. */
  ghost predicate Holds(a: Assembly, id: nat, fs: seq<Timed>, src: Sources) {
    && id in src
    && a.payloadType == src[id].payloadType
    && a.frameCount == |src[id].parts|
    && a.fragments == Slots(src[id].parts, Seen(fs, id))
    && a.totalSize == StoredSize(a.fragments)
    && exists k :: 0 <= k < |fs| && fs[k].frame.header.messageId == id && fs[k].now == a.createdAt
  }

  ghost predicate TableMatches(t: Table, fs: seq<Timed>, src: Sources) {
    && t.Keys == Pending(fs, src)
    && forall id :: id in t ==> Holds(t[id], id, fs, src)
  }

  function MessageOf(id: nat, src: Sources): Output
    requires id in src
  {
    Message(id, src[id].payloadType, Flatten(src[id].parts))
  }

  function Completed(fs: seq<Timed>, src: Sources): set<nat> {
    set id | id in src && src[id].parts != [] && Complete(fs, id, src)
  }

  lemma {:induction false} JoinedSlots(parts: seq<seq<byte>>, slots: seq<Option<seq<byte>>>)
    requires |slots| == |parts| && forall i :: 0 <= i < |parts| ==> slots[i] == Some(parts[i])
    ensures Joined(slots) == Flatten(parts)
  {
    if parts != [] {
      JoinedSlots(parts[1..], slots[1..]);
    }
  }

  lemma {:induction false} StoredSizeBound(parts: seq<seq<byte>>, slots: seq<Option<seq<byte>>>)
    requires |slots| == |parts| && forall i :: 0 <= i < |parts| ==> slots[i] == None || slots[i] == Some(parts[i])
    ensures StoredSize(slots) <= PartsSize(parts)
  {
    if parts != [] {
      StoredSizeBound(parts[1..], slots[1..]);
    }
  }

  lemma {:induction false} SeenIsInRange(fs: seq<Timed>, id: nat, src: Sources, l: Limits)
    requires GoodRun(fs, src, l) && id in src
    ensures forall i :: i in Seen(fs, id) ==> i < |src[id].parts|
  {
    if fs != [] {
      SeenIsInRange(fs[..|fs| - 1], id, src, l);
    }
  }

  lemma SeenStep(h: seq<Timed>, last: Timed, id: nat)
    ensures Seen(h + [last], id) ==
            Seen(h, id) + if last.frame.header.messageId == id then {last.frame.header.frameIndex as nat} else {}
  {
    assert (h + [last])[..|h|] == h;
  }

  lemma PendingStep(h: seq<Timed>, last: Timed, src: Sources)
    requires last.frame.header.messageId in src
    ensures var id := last.frame.header.messageId;
      Pending(h + [last], src) == if Complete(h + [last], id, src) then Pending(h, src) - {id} else Pending(h, src) + {id}
  {
    forall id
      ensures Seen(h + [last], id) ==
        Seen(h, id) + if last.frame.header.messageId == id then {last.frame.header.frameIndex as nat} else {}
    {
      SeenStep(h, last, id);
    }
  }

  /** Nothing is thrown away for its age. */
  lemma NothingExpires(t: Table, h: seq<Timed>, last: Timed, src: Sources, l: Limits)
    requires TableMatches(t, h, src) && Allowed(h, last, src, l)
    ensures ExpiredIds(t, last.now, l.timeoutMs) == {}
  {}

  /** One fragment, seen from the slots of its assembly. */
  lemma SlotsStep(parts: seq<seq<byte>>, seen: set<nat>, i: nat)
    requires i < |parts|
    ensures i in seen ==> Slots(parts, seen)[i].Some? && seen + {i} == seen
    ensures i !in seen ==> Slots(parts, seen)[i].None? && Slots(parts, seen)[i := Some(parts[i])] == Slots(parts, seen + {i})
    ensures SomeMissing(Slots(parts, seen)) <==> !(forall j :: 0 <= j < |parts| ==> j in seen)
    ensures SomeMissing(Slots(parts, seen + {i})) <==> !(forall j :: 0 <= j < |parts| ==> j in seen + {i})
  {
    forall s: set<nat> ensures SomeMissing(Slots(parts, s)) <==> !(forall j :: 0 <= j < |parts| ==> j in s) {
      if j :| 0 <= j < |parts| && j !in s {
        assert Slots(parts, s)[j].None?;
      }
    }
  }

  function WithSlots(a: Assembly, parts: seq<seq<byte>>, seen: set<nat>): Assembly {
    a.(fragments := Slots(parts, seen), totalSize := StoredSize(Slots(parts, seen)))
  }

  /** What AddFragment does when the assembly holds exactly the fragments seen. */
  lemma AddStep(t: Table, a: Assembly, f: Frame, seen: set<nat>, src: Sources, l: Limits)
    requires IsFragmentOf(f, src) && PartsSize(src[f.header.messageId].parts) <= l.maxMessageSize
    requires var s := src[f.header.messageId];
      && a.payloadType == s.payloadType && a.frameCount == |s.parts|
      && a.fragments == Slots(s.parts, seen) && a.totalSize == StoredSize(a.fragments)
    requires SomeMissing(a.fragments)
    requires f.header.messageId !in t ==> f.header.frameIndex as nat !in seen
    requires f.header.messageId in t ==> t[f.header.messageId] == a
    ensures var id := f.header.messageId;
      var seen' := seen + {f.header.frameIndex as nat};
      AddFragment(t, a, f, l) ==
        if SomeMissing(Slots(src[id].parts, seen'))
        then (t[id := WithSlots(a, src[id].parts, seen')], [])
        else (t - {id}, [MessageOf(id, src)])
  {
    var id, i := f.header.messageId, f.header.frameIndex as nat;
    var parts := src[id].parts;
    SlotsStep(parts, seen, i);
    var seen' := seen + {i};
    if i in seen {
      assert WithSlots(a, parts, seen') == a;
      assert t[id := a] == t;
    } else {
      StoredSizeUpdate(a.fragments, i, f.payload);
      StoredSizeBound(parts, Slots(parts, seen'));
      if !SomeMissing(Slots(parts, seen')) {
        JoinedSlots(parts, Slots(parts, seen'));
      }
    }
  }

  /** Assemblies of other messages, and an assembly given the new fragment, still hold what was seen. */
  lemma HoldsStep(a: Assembly, id: nat, h: seq<Timed>, last: Timed, src: Sources)
    requires Holds(a, id, h, src) && IsFragmentOf(last.frame, src)
    ensures Holds(WithSlots(a, src[id].parts, Seen(h + [last], id)), id, h + [last], src)
    ensures id != last.frame.header.messageId ==> Holds(a, id, h + [last], src)
  {
    SeenStep(h, last, id);
    var k :| 0 <= k < |h| && h[k].frame.header.messageId == id && h[k].now == a.createdAt;
    assert (h + [last])[k] == h[k];
  }

  lemma FirstHolds(h: seq<Timed>, last: Timed, src: Sources)
    requires IsFragmentOf(last.frame, src)
    ensures var id := last.frame.header.messageId;
      Holds(WithSlots(NewAssembly(last.frame.header, last.now), src[id].parts, Seen(h + [last], id)), id, h + [last], src)
  {
    assert (h + [last])[|h|] == last;
  }

  lemma MatchesAfterPut(t: Table, h: seq<Timed>, last: Timed, a: Assembly, src: Sources)
    requires TableMatches(t, h, src) && IsFragmentOf(last.frame, src)
    requires Holds(a, last.frame.header.messageId, h + [last], src)
    requires !Complete(h + [last], last.frame.header.messageId, src)
    ensures TableMatches(t[last.frame.header.messageId := a], h + [last], src)
  {
    hide Holds, Complete, Pending;
    var id := last.frame.header.messageId;
    PendingStep(h, last, src);
    forall other | other in t && other != id ensures Holds(t[other], other, h + [last], src) {
      HoldsStep(t[other], other, h, last, src);
    }
  }

  lemma MatchesAfterRemove(t: Table, h: seq<Timed>, last: Timed, src: Sources)
    requires TableMatches(t, h, src) && IsFragmentOf(last.frame, src)
    requires Complete(h + [last], last.frame.header.messageId, src)
    ensures TableMatches(t - {last.frame.header.messageId}, h + [last], src)
  {
    hide Holds, Complete, Pending;
    var id := last.frame.header.messageId;
    PendingStep(h, last, src);
    forall other | other in t && other != id ensures Holds(t[other], other, h + [last], src) {
      HoldsStep(t[other], other, h, last, src);
    }
  }

  /** A message of one frame passes straight through. */
  lemma GoodStepShort(t: Table, h: seq<Timed>, last: Timed, src: Sources, l: Limits)
    requires GoodRun(h, src, l) && TableMatches(t, h, src) && Allowed(h, last, src, l)
    requires last.frame.header.frameCount == 1
    ensures var (t', out) := OnFrame(t, last.frame, last.now, l);
      && TableMatches(t', h + [last], src)
      && Complete(h + [last], last.frame.header.messageId, src)
      && out == [MessageOf(last.frame.header.messageId, src)]
  {
    hide Holds, Allowed, GoodRun, TableMatches;
    var id := last.frame.header.messageId;
    AllowedFacts(h, last, src, l);
    SeenIsInRange(h, id, src, l);
    SeenStep(h, last, id);
    assert Seen(h, id) == {};
    MatchesAfterRemove(t, h, last, src);
    TableHasNoOther(t, id, h, src);
    assert t - {id} == t;
    var parts := src[id].parts;
    assert parts[1..] == [] && Flatten(parts) == parts[0] + Flatten(parts[1..]) == parts[0];
  }

  lemma TableHasNoOther(t: Table, id: nat, h: seq<Timed>, src: Sources)
    requires TableMatches(t, h, src) && Seen(h, id) == {}
    ensures id !in t
  {}

  lemma AllowedFacts(h: seq<Timed>, last: Timed, src: Sources, l: Limits)
    requires Allowed(h, last, src, l)
    ensures IsFragmentOf(last.frame, src)
    ensures !Complete(h, last.frame.header.messageId, src)
    ensures PartsSize(src[last.frame.header.messageId].parts) <= l.maxMessageSize
  {}

  /** The assembly that a fragment is added to holds what was seen so far. */
  lemma AssemblyBefore(t: Table, h: seq<Timed>, last: Timed, src: Sources)
    requires TableMatches(t, h, src) && IsFragmentOf(last.frame, src)
    requires !Complete(h, last.frame.header.messageId, src)
    ensures var id := last.frame.header.messageId;
      var a := if id in t then t[id] else NewAssembly(last.frame.header, last.now);
      && a.payloadType == src[id].payloadType && a.frameCount == |src[id].parts|
      && a.fragments == Slots(src[id].parts, Seen(h, id)) && a.totalSize == StoredSize(a.fragments)
      && SomeMissing(a.fragments)
      && (id !in t ==> last.frame.header.frameIndex as nat !in Seen(h, id))
      && Holds(WithSlots(a, src[id].parts, Seen(h + [last], id)), id, h + [last], src)
  {
    var id, parts := last.frame.header.messageId, src[last.frame.header.messageId].parts;
    SlotsStep(parts, Seen(h, id), last.frame.header.frameIndex);
    if id in t {
      HoldsStep(t[id], id, h, last, src);
    } else {
      assert Seen(h, id) == {};
      assert NewAssembly(last.frame.header, last.now).fragments == Slots(parts, {});
      StoredSizeOfNone(|parts|);
      FirstHolds(h, last, src);
    }
  }

  lemma Room(t: Table, h: seq<Timed>, last: Timed, src: Sources, l: Limits)
    requires TableMatches(t, h, src) && Allowed(h, last, src, l) && last.frame.header.frameCount != 1
    ensures last.frame.header.messageId in t || |t| < MAX_PENDING_ASSEMBLIES
  {}

  lemma GoodStepLong(t: Table, h: seq<Timed>, last: Timed, src: Sources, l: Limits)
    requires TableMatches(t, h, src) && Allowed(h, last, src, l)
    requires last.frame.header.frameCount != 1
    ensures var id := last.frame.header.messageId;
      var (t', out) := OnFrame(t, last.frame, last.now, l);
      && TableMatches(t', h + [last], src)
      && out == if Complete(h + [last], id, src) then [MessageOf(id, src)] else []
  {
    hide *;
    AllowedFacts(h, last, src, l);
    var id := last.frame.header.messageId;
    FragmentFacts(last.frame, src);
    NothingExpires(t, h, last, src, l);
    Room(t, h, last, src, l);
    OnFrameAdds(t, last, l);
    SeenStep(h, last, id);
    AssemblyBefore(t, h, last, src);
    var a := if id in t then t[id] else NewAssembly(last.frame.header, last.now);
    FullIsComplete(h + [last], id, src);
    AddStep(t, a, last.frame, Seen(h, id), src, l);
    if Complete(h + [last], id, src) {
      MatchesAfterRemove(t, h, last, src);
    } else {
      MatchesAfterPut(t, h, last, WithSlots(a, src[id].parts, Seen(h + [last], id)), src);
    }
  }

  lemma FullIsComplete(fs: seq<Timed>, id: nat, src: Sources)
    requires id in src
    ensures SomeMissing(Slots(src[id].parts, Seen(fs, id))) <==> !Complete(fs, id, src)
  {
    if src[id].parts != [] {
      SlotsStep(src[id].parts, Seen(fs, id), 0);
    }
  }

  lemma OnFrameAdds(t: Table, last: Timed, l: Limits)
    requires last.frame.header.frameCount != 1 && ExpiredIds(t, last.now, l.timeoutMs) == {}
    requires last.frame.header.messageId in t || |t| < MAX_PENDING_ASSEMBLIES
    ensures var id := last.frame.header.messageId;
      OnFrame(t, last.frame, last.now, l) ==
        AddFragment(t, if id in t then t[id] else NewAssembly(last.frame.header, last.now), last.frame, l)
  {
    hide AddFragment, ExpiredIds, NewAssembly;
    assert t - {} == t;
    assert Timeouts(0) == [];
    var placed := Place(t, last.frame, last.now, l);
    assert OnFrame(t, last.frame, last.now, l) == (placed.0, [] + placed.1);
    assert [] + placed.1 == placed.1;
  }

  lemma FragmentFacts(f: Frame, src: Sources)
    requires IsFragmentOf(f, src)
    ensures f.header.messageId in src && f.header.frameIndex < |src[f.header.messageId].parts|
  {}

  // ---------- Whole runs ----------

  /** The messages in the order in which their last missing fragment arrived. */
  function Deliveries(fs: seq<Timed>, src: Sources): seq<Output>
    requires forall x :: x in fs ==> x.frame.header.messageId in src
  {
    if fs == [] then []
    else
      var id := fs[|fs| - 1].frame.header.messageId;
      Deliveries(fs[..|fs| - 1], src) + if Complete(fs, id, src) then [MessageOf(id, src)] else []
  }

  lemma {:induction false} GoodRunSources(fs: seq<Timed>, src: Sources, l: Limits)
    requires GoodRun(fs, src, l)
    ensures forall x :: x in fs ==> x.frame.header.messageId in src
  {
    if fs != [] {
      GoodRunSources(fs[..|fs| - 1], src, l);
    }
  }

  lemma EmptyMatches(src: Sources)
    ensures TableMatches(map[], [], src)
  {
    assert Pending([], src) == {};
  }

  lemma {:induction false} RunMatches(fs: seq<Timed>, src: Sources, l: Limits)
    requires GoodRun(fs, src, l) && (forall x :: x in fs ==> x.frame.header.messageId in src)
    ensures TableMatches(Run(map[], fs, l).0, fs, src)
    ensures Run(map[], fs, l).1 == Deliveries(fs, src)
  {
    hide OnFrame, Complete, Allowed, Holds, MessageOf;
    if fs == [] {
      EmptyMatches(src);
    } else {
      var h, last := fs[..|fs| - 1], fs[|fs| - 1];
      assert fs == h + [last];
      RunMatches(h, src, l);
      AllowedFacts(h, last, src, l);
      hide TableMatches;
      var t := Run(map[], h, l).0;
      if last.frame.header.frameCount == 1 {
        GoodStepShort(t, h, last, src, l);
      } else {
        GoodStepLong(t, h, last, src, l);
      }
    }
  }

  /** What has been delivered after a good run is exactly one copy of each completed message. */
  lemma {:induction false} DeliveredOnce(fs: seq<Timed>, src: Sources, l: Limits)
    requires GoodRun(fs, src, l) && (forall x :: x in fs ==> x.frame.header.messageId in src)
    ensures multiset(Deliveries(fs, src)) == multiset(set id | id in Completed(fs, src) :: MessageOf(id, src))
  {
    hide Complete, Allowed, MessageOf;
    if fs == [] {
      NothingCompleted(src);
    } else {
      var h, last := fs[..|fs| - 1], fs[|fs| - 1];
      var id := last.frame.header.messageId;
      assert fs == h + [last];
      DeliveredOnce(h, src, l);
      CompletedStep(h, last, src, l);
      if Complete(fs, id, src) {
        AddOne(Completed(h, src), id, src);
      }
    }
  }

  lemma AddOne(ids: set<nat>, id: nat, src: Sources)
    requires ids + {id} <= src.Keys && id !in ids
    ensures multiset(set i | i in ids + {id} :: MessageOf(i, src)) ==
            multiset(set i | i in ids :: MessageOf(i, src)) + multiset{MessageOf(id, src)}
  {
    var before := set i | i in ids :: MessageOf(i, src);
    assert (set i | i in ids + {id} :: MessageOf(i, src)) == before + {MessageOf(id, src)};
    assert MessageOf(id, src) !in before;
  }

  lemma NothingCompleted(src: Sources)
    ensures Completed([], src) == {}
  {
    forall id | id in src && src[id].parts != [] ensures !Complete([], id, src) {
      assert 0 !in Seen([], id);
    }
  }

  lemma CompletedStep(h: seq<Timed>, last: Timed, src: Sources, l: Limits)
    requires Allowed(h, last, src, l)
    ensures var id := last.frame.header.messageId;
      && id !in Completed(h, src)
      && Completed(h + [last], src) == Completed(h, src) + if Complete(h + [last], id, src) then {id} else {}
  {
    forall id
      ensures Seen(h + [last], id) ==
        Seen(h, id) + if last.frame.header.messageId == id then {last.frame.header.frameIndex as nat} else {}
    {
      SeenStep(h, last, id);
    }
  }

  /** Reassembly ignores order: for any interleaving of the fragments of several messages, in any
      order, with any repetitions before completion, the reassembler says nothing but the completed
      messages, each exactly once and with its fragments joined by index. */
  lemma ReassemblyIgnoresOrder(fs: seq<Timed>, src: Sources, l: Limits)
    requires GoodRun(fs, src, l)
    ensures multiset(Run(map[], fs, l).1) == multiset(set id | id in Completed(fs, src) :: MessageOf(id, src))
  {
    GoodRunSources(fs, src, l);
    RunMatches(fs, src, l);
    DeliveredOnce(fs, src, l);
  }

  /** Two runs that bring the same fragments deliver the same messages. */
  lemma SameFragmentsSameMessages(fs: seq<Timed>, gs: seq<Timed>, src: Sources, l: Limits)
    requires GoodRun(fs, src, l) && GoodRun(gs, src, l)
    requires forall id :: id in src ==> Seen(fs, id) == Seen(gs, id)
    ensures multiset(Run(map[], fs, l).1) == multiset(Run(map[], gs, l).1)
  {
    ReassemblyIgnoresOrder(fs, src, l);
    ReassemblyIgnoresOrder(gs, src, l);
    assert Completed(fs, src) == Completed(gs, src);
  }
}
