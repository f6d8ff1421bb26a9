/** Putting the fragments of messages together again (src/protocol/codec/frame.ts, MessageReassembler). */
module Reassembler {
  import opened Bytes
  import opened Sets
  import opened Frames

  const MAX_PENDING_ASSEMBLIES := 256
  const DEFAULT_TIMEOUT_MS := 10000

  datatype Assembly = Assembly(
    payloadType: byte,
    frameCount: nat,
    totalSize: nat,
    fragments: seq<Option<seq<byte>>>,
    createdAt: nat)

  datatype Output =
    | Message(messageId: nat, payloadType: byte, body: seq<byte>)
    | Error(code: nat)

  type Table = map<nat, Assembly>

  datatype Limits = Limits(maxMessageSize: nat, timeoutMs: nat)

  // ---------- Specification of one frame ----------

  predicate Expired(a: Assembly, now: nat, timeoutMs: nat) {
    now - a.createdAt > timeoutMs
  }

  function ExpiredIds(t: Table, now: nat, timeoutMs: nat): set<nat> {
    set id | id in t && Expired(t[id], now, timeoutMs)
  }

  function Timeouts(n: nat): seq<Output> {
    seq(n, _ => Error(FRAME_REASSEMBLY_TIMEOUT))
  }

  predicate SomeMissing(fragments: seq<Option<seq<byte>>>) {
    exists i :: 0 <= i < |fragments| && fragments[i].None?
  }

  /** The stored fragments, joined by index. */
  function Joined(fragments: seq<Option<seq<byte>>>): seq<byte> {
    if fragments == [] then []
    else (if fragments[0].Some? then fragments[0].value else []) + Joined(fragments[1..])
  }

  function NewAssembly(h: Header, now: nat): Assembly {
    Assembly(h.payloadType, h.frameCount, 0, seq(h.frameCount, _ => None), now)
  }

  predicate Matches(a: Assembly, h: Header) {
    a.payloadType == h.payloadType && a.frameCount == h.frameCount && h.frameIndex < |a.fragments|
  }

  /** An assembly with one more fragment. */
  function WithFragment(a: Assembly, i: nat, payload: seq<byte>): Assembly
    requires i < |a.fragments|
  {
    a.(totalSize := a.totalSize + |payload|, fragments := a.fragments[i := Some(payload)])
  }

  /** Adding one fragment to an assembly that the table holds, or is about to hold, under the frame's id. */
  function AddFragment(t: Table, a: Assembly, f: Frame, l: Limits): (Table, seq<Output>) {
    var id := f.header.messageId;
    if !Matches(a, f.header) then (t - {id}, [])
    else if a.fragments[f.header.frameIndex].Some? then (t, [])
    else if a.totalSize + |f.payload| > l.maxMessageSize then (t - {id}, [Error(FRAME_TOO_LARGE)])
    else
      var a' := WithFragment(a, f.header.frameIndex, f.payload);
      if SomeMissing(a'.fragments) then (t[id := a'], []) else (t - {id}, [Message(id, a.payloadType, Joined(a'.fragments))])
  }

  /** A fragment of a longer message, once the expired assemblies are gone. */
  function Place(t: Table, f: Frame, now: nat, l: Limits): (Table, seq<Output>) {
    if f.header.messageId in t then AddFragment(t, t[f.header.messageId], f, l)
    else if |t| >= MAX_PENDING_ASSEMBLIES then (t, [Error(FRAME_FRAGMENT_MISSING)])
    else AddFragment(t, NewAssembly(f.header, now), f, l)
  }

  /** What one frame does to the table, and what it makes the reassembler say. */
  function OnFrame(t: Table, f: Frame, now: nat, l: Limits): (Table, seq<Output>) {
    if f.header.frameCount == 1 then
      (t, if f.header.frameIndex != 0 then [] else [Message(f.header.messageId, f.header.payloadType, f.payload)])
    else
      var expired := ExpiredIds(t, now, l.timeoutMs);
      var (t', out) := Place(t - expired, f, now, l);
      (t', Timeouts(|expired|) + out)
  }

  // ---------- Bounded memory ----------

  function StoredSize(fragments: seq<Option<seq<byte>>>): nat {
    if fragments == [] then 0
    else (if fragments[0].Some? then |fragments[0].value| else 0) + StoredSize(fragments[1..])
  }

  ghost predicate GoodAssembly(a: Assembly, l: Limits) {
    && |a.fragments| == a.frameCount
    && a.totalSize == StoredSize(a.fragments) <= l.maxMessageSize
    && SomeMissing(a.fragments)
    && exists i :: 0 <= i < |a.fragments| && a.fragments[i].Some?
  }

  ghost predicate GoodTable(t: Table, l: Limits) {
    && |t| <= MAX_PENDING_ASSEMBLIES
    && forall id :: id in t ==> GoodAssembly(t[id], l)
  }

  lemma {:induction false} StoredSizeUpdate(fragments: seq<Option<seq<byte>>>, i: nat, payload: seq<byte>)
    requires i < |fragments| && fragments[i].None?
    ensures StoredSize(fragments[i := Some(payload)]) == StoredSize(fragments) + |payload|
  {
    if i > 0 {
      StoredSizeUpdate(fragments[1..], i - 1, payload);
      assert fragments[i := Some(payload)][1..] == fragments[1..][i - 1 := Some(payload)];
    } else {
      assert fragments[i := Some(payload)][1..] == fragments[1..];
    }
  }

  lemma {:induction false} StoredSizeOfNone(n: nat)
    ensures StoredSize(seq(n, _ => None)) == 0
  {
    if n > 0 {
      StoredSizeOfNone(n - 1);
      assert seq<Option<seq<byte>>>(n, _ => None)[1..] == seq(n - 1, _ => None);
    }
  }

  lemma MapRemoveSize<K, V>(t: map<K, V>, ids: set<K>)
    ensures |t - ids| <= |t|
  {
    assert (t - ids).Keys <= t.Keys;
    SubsetSize((t - ids).Keys, t.Keys);
  }

  /** An assembly that may take part in a table, or that was just created. */
  ghost predicate Growing(a: Assembly, l: Limits) {
    |a.fragments| == a.frameCount && a.totalSize == StoredSize(a.fragments)
  }

  lemma NewAssemblyGrows(h: Header, now: nat, l: Limits)
    ensures Growing(NewAssembly(h, now), l)
  {
    StoredSizeOfNone(h.frameCount);
  }

  lemma StoringIsGood(a: Assembly, i: nat, payload: seq<byte>, l: Limits)
    requires Growing(a, l) && i < |a.fragments| && a.fragments[i].None?
    requires a.totalSize + |payload| <= l.maxMessageSize
    requires SomeMissing(a.fragments[i := Some(payload)])
    ensures GoodAssembly(WithFragment(a, i, payload), l)
  {
    StoredSizeUpdate(a.fragments, i, payload);
    assert a.fragments[i := Some(payload)][i].Some?;
  }

  lemma PutIsGood(t: Table, id: nat, a: Assembly, l: Limits)
    requires GoodTable(t, l) && GoodAssembly(a, l) && |t - {id}| < MAX_PENDING_ASSEMBLIES
    ensures GoodTable(t[id := a], l)
  {
    hide GoodAssembly;
    assert t[id := a].Keys == (t - {id}).Keys + {id};
  }

  lemma RemoveIsGood(t: Table, ids: set<nat>, l: Limits)
    requires GoodTable(t, l)
    ensures GoodTable(t - ids, l)
  {
    hide GoodAssembly;
    MapRemoveSize(t, ids);
  }

  lemma AddFragmentIsGood(t: Table, a: Assembly, f: Frame, l: Limits)
    requires GoodTable(t, l) && Growing(a, l)
    requires |t - {f.header.messageId}| < MAX_PENDING_ASSEMBLIES
    ensures GoodTable(AddFragment(t, a, f, l).0, l)
  {
    hide GoodAssembly, GoodTable, Growing, SomeMissing;
    var id, i := f.header.messageId, f.header.frameIndex;
    RemoveIsGood(t, {id}, l);
    if Matches(a, f.header) && a.fragments[i].None? && a.totalSize + |f.payload| <= l.maxMessageSize
       && SomeMissing(a.fragments[i := Some(f.payload)]) {
      StoringIsGood(a, i, f.payload, l);
      PutIsGood(t, id, WithFragment(a, i, f.payload), l);
    }
  }

  lemma RemovedSize(t: Table, id: nat)
    ensures |t - {id}| <= |t|
    ensures id in t ==> |t - {id}| < |t|
  {
    MapRemoveSize(t, {id});
    if id in t {
      assert t.Keys == (t - {id}).Keys + {id};
    }
  }

  lemma PlaceIsGood(t: Table, f: Frame, now: nat, l: Limits)
    requires GoodTable(t, l)
    ensures GoodTable(Place(t, f, now, l).0, l)
  {
    hide AddFragment, SomeMissing, NewAssembly;
    var id := f.header.messageId;
    RemovedSize(t, id);
    NewAssemblyGrows(f.header, now, l);
    if id in t {
      AddFragmentIsGood(t, t[id], f, l);
    } else if |t| < MAX_PENDING_ASSEMBLIES {
      AddFragmentIsGood(t, NewAssembly(f.header, now), f, l);
    }
  }

  /** After any frame the table is within its bounds. */
  lemma OnFrameIsGood(t: Table, f: Frame, now: nat, l: Limits)
    requires GoodTable(t, l)
    ensures GoodTable(OnFrame(t, f, now, l).0, l)
  {
    hide Place, GoodTable, ExpiredIds;
    RemoveIsGood(t, ExpiredIds(t, now, l.timeoutMs), l);
    PlaceIsGood(t - ExpiredIds(t, now, l.timeoutMs), f, now, l);
  }

  /** A run over timed frames. */
  datatype Timed = Timed(frame: Frame, now: nat)

  function Run(t: Table, fs: seq<Timed>, l: Limits): (Table, seq<Output>) {
    if fs == [] then (t, [])
    else
      var (t1, out1) := Run(t, fs[..|fs| - 1], l);
      var last := fs[|fs| - 1];
      var (t2, out2) := OnFrame(t1, last.frame, last.now, l);
      (t2, out1 + out2)
  }

  /** Bounded memory, over any run on any input. */
  lemma {:induction false} RunIsGood(fs: seq<Timed>, l: Limits)
    ensures GoodTable(Run(map[], fs, l).0, l)
  {
    if fs != [] {
      RunIsGood(fs[..|fs| - 1], l);
      var last := fs[|fs| - 1];
      OnFrameIsGood(Run(map[], fs[..|fs| - 1], l).0, last.frame, last.now, l);
    }
  }

  // ---------- Two things a caller might not expect ----------

  /** A fragment that does not fit the assembly under its id takes that assembly away, and nothing is said. */
  lemma MismatchDeletesSilently(t: Table, f: Frame, now: nat, l: Limits)
    requires f.header.frameCount != 1 && f.header.messageId in t && !Matches(t[f.header.messageId], f.header)
    requires ExpiredIds(t, now, l.timeoutMs) == {}
    ensures OnFrame(t, f, now, l) == (t - {f.header.messageId}, [])
  {
    assert t - {} == t;
    assert Timeouts(0) + [] == [];
  }

  /** A fragment that comes again after its message was delivered opens an assembly of its own, which stays
      until it expires. */
  lemma LateDuplicateOpensAssembly(t: Table, f: Frame, now: nat, l: Limits)
    requires 1 < f.header.frameCount && f.header.frameIndex < f.header.frameCount && |f.payload| <= l.maxMessageSize
    requires f.header.messageId !in t && |t| < MAX_PENDING_ASSEMBLIES && ExpiredIds(t, now, l.timeoutMs) == {}
    ensures var (t', out) := OnFrame(t, f, now, l);
      out == [] && t'.Keys == t.Keys + {f.header.messageId}
  {
    assert t - {} == t;
    assert Timeouts(0) + [] == [];
    var fragments := NewAssembly(f.header, now).fragments[f.header.frameIndex := Some(f.payload)];
    assert fragments[if f.header.frameIndex == 0 then 1 else 0].None?;
  }

  lemma PutThenRemove(t: Table, id: nat, a: Assembly, b: Assembly)
    ensures t[id := a] - {id} == t - {id}
    ensures t[id := a][id := b] == t[id := b]
  {}

  // ---------- The reassembler object ----------

  class MessageReassembler {
    var assemblies: Table
    var outputs: seq<Output>
    const maxMessageSize: nat
    const assemblyTimeoutMs: nat

    constructor (maxMessageSize: nat, assemblyTimeoutMs: nat)
      ensures assemblies == map[] && outputs == []
      ensures this.maxMessageSize == maxMessageSize && this.assemblyTimeoutMs == assemblyTimeoutMs
    {
      assemblies := map[];
      outputs := [];
      this.maxMessageSize := maxMessageSize;
      this.assemblyTimeoutMs := assemblyTimeoutMs;
    }

    method EvictExpired(now: nat)
      modifies this
      ensures assemblies == old(assemblies) - ExpiredIds(old(assemblies), now, assemblyTimeoutMs)
      ensures outputs == old(outputs) + Timeouts(|ExpiredIds(old(assemblies), now, assemblyTimeoutMs)|)
    {
      ghost var was := assemblies;
      ghost var gone: set<nat> := {};
      var todo := assemblies.Keys;
      while todo != {}
        invariant todo <= was.Keys && gone <= ExpiredIds(was, now, assemblyTimeoutMs)
        invariant assemblies == was - gone && todo !! gone
        invariant forall id :: id in was && id !in todo && Expired(was[id], now, assemblyTimeoutMs) ==> id in gone
        invariant outputs == old(outputs) + Timeouts(|gone|)
        decreases todo
      {
        var id :| id in todo;
        todo := todo - {id};
        assert id in was && id !in gone;
        if now - assemblies[id].createdAt > assemblyTimeoutMs {
          assemblies := assemblies - {id};
          outputs := outputs + [Error(FRAME_REASSEMBLY_TIMEOUT)];
          assert Timeouts(|gone| + 1) == Timeouts(|gone|) + [Error(FRAME_REASSEMBLY_TIMEOUT)];
          gone := gone + {id};
        }
      }
      assert gone == ExpiredIds(was, now, assemblyTimeoutMs);
    }

    method OnFrameArrived(frame: Frame, now: nat)
      modifies this
      ensures var r := OnFrame(old(assemblies), frame, now, Limits(maxMessageSize, assemblyTimeoutMs));
        assemblies == r.0 && outputs == old(outputs) + r.1
    {
      hide Place, ExpiredIds, Timeouts;
      if frame.header.frameCount == 1 {
        if frame.header.frameIndex != 0 { return; }
        outputs := outputs + [Message(frame.header.messageId, frame.header.payloadType, frame.payload)];
        return;
      }
      EvictExpired(now);
      PlaceFragment(frame, now);
    }

    /** The part of onFrame after the eviction: find the assembly, or open one. */
    method PlaceFragment(frame: Frame, now: nat)
      modifies this
      ensures var r := Place(old(assemblies), frame, now, Limits(maxMessageSize, assemblyTimeoutMs));
        assemblies == r.0 && outputs == old(outputs) + r.1
    {
      hide AddFragment;
      var id := frame.header.messageId;
      if id in assemblies {
        assert assemblies[id := assemblies[id]] == assemblies;
        FillSlot(assemblies, assemblies[id], frame);
      } else if |assemblies| >= MAX_PENDING_ASSEMBLIES {
        outputs := outputs + [Error(FRAME_FRAGMENT_MISSING)];
      } else {
        ghost var was := assemblies;
        var assembly := NewAssembly(frame.header, now);
        assemblies := assemblies[id := assembly];
        FillSlot(was, assembly, frame);
      }
    }

    /** The rest of onFrame: the table is `was` with the assembly under the frame's id. */
    method FillSlot(ghost was: Table, assembly: Assembly, frame: Frame)
      requires assemblies == was[frame.header.messageId := assembly]
      requires frame.header.messageId !in was ==> forall o :: o in assembly.fragments ==> o == None
      requires frame.header.messageId in was ==> was[frame.header.messageId] == assembly
      modifies this
      ensures var r := AddFragment(was, assembly, frame, Limits(maxMessageSize, assemblyTimeoutMs));
        assemblies == r.0 && outputs == old(outputs) + r.1
    {
      hide SomeMissing, Joined;
      var id, index := frame.header.messageId, frame.header.frameIndex;
      PutThenRemove(was, id, assembly, assembly);
      if assembly.payloadType != frame.header.payloadType || assembly.frameCount != frame.header.frameCount
         || index >= |assembly.fragments| {
        assemblies := assemblies - {id};
      } else if assembly.fragments[index] == None {
        var totalSize := assembly.totalSize + |frame.payload|;
        if totalSize > maxMessageSize {
          assemblies := assemblies - {id};
          outputs := outputs + [Error(FRAME_TOO_LARGE)];
        } else {
          var filled := assembly.(totalSize := totalSize, fragments := assembly.fragments[index := Some(frame.payload)]);
          PutThenRemove(was, id, assembly, filled);
          assemblies := assemblies[id := filled];
          if !SomeMissing(filled.fragments) {
            PutThenRemove(was, id, filled, filled);
            assemblies := assemblies - {id};
            var body := ConcatFragments(filled.fragments);
            outputs := outputs + [Message(id, filled.payloadType, body)];
          }
        }
      } else {
        assert assembly.fragments[index] in assembly.fragments;
        assert was[id := was[id]] == was;
      }
    }

    static method ConcatFragments(fragments: seq<Option<seq<byte>>>) returns (body: seq<byte>)
      ensures body == Joined(fragments)
    {
      body := [];
      for i := 0 to |fragments|
        invariant body + Joined(fragments[i..]) == Joined(fragments)
      {
        if fragments[i].Some? {
          body := body + fragments[i].value;
        }
        assert fragments[i..][1..] == fragments[i + 1..];
      }
    }
  }
}
