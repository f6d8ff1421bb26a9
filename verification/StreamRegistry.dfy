/** Streams by id: allocation, routing and closing (src/endpoint/streamRegistry.ts). A stream is told apart from
    later streams under the same id by its serial, the order in which it was adopted. */
module StreamRegistry {
  import opened Sets

  const MAX_STREAM_ID := 0xffffffff
  const STREAM_ID_INVALID := 0x0505
  const STREAM_ALREADY_OPEN := 0x0507

  datatype Entry = Entry(serial: nat, chunks: nat, bytes: nat, handled: bool)

  datatype Callback = OnChunk(serial: nat, data: seq<int>) | OnClose(serial: nat)

  datatype State = State(streams: map<nat, Entry>, nextStreamId: nat, adopted: nat, log: seq<Callback>)

  const EMPTY := State(map[], 1, 0, [])

  datatype AdoptResult = Adopted(serial: nat) | Refused(code: nat)

  // ---------- Allocation ----------

  function NextId(id: nat): nat {
    if id >= MAX_STREAM_ID then 1 else id + 1
  }

  /** The id reached from another in so many steps round the circle 1 .. 2^32 - 1. */
  function Cycle(from: nat, steps: nat): (id: nat)
    requires 1 <= from <= MAX_STREAM_ID
    ensures 1 <= id <= MAX_STREAM_ID
  {
    1 + (from - 1 + steps) % MAX_STREAM_ID
  }

  lemma CycleNext(from: nat, steps: nat)
    requires 1 <= from <= MAX_STREAM_ID
    ensures Cycle(from, steps + 1) == NextId(Cycle(from, steps)) && Cycle(from, 0) == from
  {
    var n := from - 1 + steps;
    var q := n / MAX_STREAM_ID;
    if n % MAX_STREAM_ID + 1 == MAX_STREAM_ID {
      assert n + 1 == (q + 1) * MAX_STREAM_ID;
    } else {
      assert n + 1 == q * MAX_STREAM_ID + (n % MAX_STREAM_ID + 1);
    }
  }

  /** Fewer than 2^32 - 1 steps do not come back to where they started. */
  lemma CycleDiffers(from: nat, i: nat, j: nat)
    requires 1 <= from <= MAX_STREAM_ID && i < j < i + MAX_STREAM_ID
    ensures Cycle(from, i) != Cycle(from, j)
  {
    var a := from - 1 + i;
    var b := from - 1 + j;
    assert b - a == (b / MAX_STREAM_ID - a / MAX_STREAM_ID) * MAX_STREAM_ID + (b % MAX_STREAM_ID - a % MAX_STREAM_ID);
  }

  /** The ids met in the first n steps. */
  ghost function Met(from: nat, n: nat): set<nat>
    requires 1 <= from <= MAX_STREAM_ID
  {
    if n == 0 then {} else Met(from, n - 1) + {Cycle(from, n - 1)}
  }

  lemma {:induction false} MetSize(from: nat, n: nat)
    requires 1 <= from <= MAX_STREAM_ID && n <= MAX_STREAM_ID
    ensures |Met(from, n)| == n
    ensures forall id :: id in Met(from, n) ==> exists k :: 0 <= k < n && id == Cycle(from, k)
  {
    hide Cycle;
    if n > 0 {
      MetSize(from, n - 1);
      if Cycle(from, n - 1) in Met(from, n - 1) {
        var k :| 0 <= k < n - 1 && Cycle(from, n - 1) == Cycle(from, k);
        CycleDiffers(from, k, n - 1);
      }
    }
  }

  lemma {:induction false} MetIn(from: nat, n: nat, used: set<nat>)
    requires 1 <= from <= MAX_STREAM_ID && forall k: nat :: k < n ==> Cycle(from, k) in used
    ensures Met(from, n) <= used
  {
    hide Cycle;
    if n > 0 { MetIn(from, n - 1, used); }
  }

  /** The pigeonhole: that many different ids in use need that many streams. */
  lemma ProbesBounded(from: nat, n: nat, used: set<nat>)
    requires 1 <= from <= MAX_STREAM_ID && n <= MAX_STREAM_ID
    requires forall k: nat :: k < n ==> Cycle(from, k) in used
    ensures n <= |used|
  {
    hide Cycle, Met;
    MetSize(from, n);
    MetIn(from, n, used);
    SubsetSize(Met(from, n), used);
  }

  /** What allocate returns: the first id not in use, going round from the next one; never zero. */
  ghost predicate FirstFree(s: State, id: nat, probes: nat)
    requires 1 <= s.nextStreamId <= MAX_STREAM_ID
  {
    && id == Cycle(s.nextStreamId, probes) && id !in s.streams
    && forall k: nat :: k < probes ==> Cycle(s.nextStreamId, k) in s.streams
  }

  // ---------- The other operations ----------

  function Adopt(s: State, id: nat): (State, AdoptResult) {
    if id == 0 then (s, Refused(STREAM_ID_INVALID))
    else if id in s.streams then (s, Refused(STREAM_ALREADY_OPEN))
    else (s.(streams := s.streams[id := Entry(s.adopted, 0, 0, false)], adopted := s.adopted + 1), Adopted(s.adopted))
  }

  /** A stream object takes over the callbacks of its context. */
  function Attach(s: State, id: nat): State {
    if id !in s.streams then s else s.(streams := s.streams[id := s.streams[id].(handled := true)])
  }

  function OnData(s: State, id: nat, data: seq<int>): State {
    if id !in s.streams then s
    else
      var e := s.streams[id];
      s.(streams := s.streams[id := e.(chunks := e.chunks + 1, bytes := e.bytes + |data|)],
         log := if e.handled then s.log + [OnChunk(e.serial, data)] else s.log)
  }

  function Close(s: State, id: nat): State {
    if id !in s.streams then s
    else
      var e := s.streams[id];
      s.(streams := s.streams - {id}, log := if e.handled then s.log + [OnClose(e.serial)] else s.log)
  }

  /** abortAll tells the streams in the order of the table's keys. */
  function AbortAll(s: State, order: seq<nat>): State
    decreases |order|
  {
    if order == [] then s else AbortAll(Close(s, order[0]), order[1..])
  }

  /** An id fresh from allocate can be adopted. */
  lemma AllocatedCanBeAdopted(s: State, id: nat, probes: nat)
    requires 1 <= s.nextStreamId <= MAX_STREAM_ID && FirstFree(s, id, probes)
    ensures Adopt(s, id).1 == Adopted(s.adopted) && Adopt(s, id).0.streams.Keys == s.streams.Keys + {id}
  {
    hide Cycle;
  }

  // ---------- Every run ----------

  datatype Act =
    | AllocateAct
    | AdoptAct(id: nat)
    | AttachAct(id: nat)
    | DataAct(id: nat, data: seq<int>)
    | CloseAct(id: nat)
    | AbortAct(order: seq<nat>)

  /** allocate as a function of the state: it is only possible while some id is free. */
  ghost predicate Possible(s: State, a: Act, s': State) {
    match a
    case AllocateAct =>
      1 <= s.nextStreamId <= MAX_STREAM_ID &&
      exists id, probes: nat :: FirstFree(s, id, probes) && s' == s.(nextStreamId := NextId(id))
    case AdoptAct(id) => s' == Adopt(s, id).0
    case AttachAct(id) => s' == Attach(s, id)
    case DataAct(id, data) => s' == OnData(s, id, data)
    case CloseAct(id) => s' == Close(s, id)
    case AbortAct(order) => (forall id :: id in order <==> id in s.streams) && s' == AbortAll(s, order)
  }

  function Closings(log: seq<Callback>, serial: nat): nat {
    if log == [] then 0
    else Closings(log[..|log| - 1], serial) + if log[|log| - 1] == OnClose(serial) then 1 else 0
  }

  ghost predicate IsOpen(s: State, serial: nat) {
    exists id :: id in s.streams && s.streams[id].serial == serial
  }

  /** Nothing is said to a stream after it was told that it is closed. */
  ghost predicate LastWord(log: seq<Callback>) {
    forall i, j :: 0 <= i < j < |log| && log[i].OnClose? ==> log[j].serial != log[i].serial
  }

  ghost predicate Inv(s: State) {
    && 1 <= s.nextStreamId <= MAX_STREAM_ID && 0 !in s.streams
    && (forall id :: id in s.streams ==> s.streams[id].serial < s.adopted && Closings(s.log, s.streams[id].serial) == 0)
    && (forall i, j :: i in s.streams && j in s.streams && s.streams[i].serial == s.streams[j].serial ==> i == j)
    && (forall i :: 0 <= i < |s.log| ==> s.log[i].serial < s.adopted)
    && LastWord(s.log)
  }

  lemma ClosingsOf(log: seq<Callback>, c: Callback, serial: nat)
    ensures Closings(log + [c], serial) == Closings(log, serial) + if c == OnClose(serial) then 1 else 0
  {
    assert (log + [c])[..|log|] == log;
  }

  lemma {:induction false} NoClosing(log: seq<Callback>, serial: nat)
    requires Closings(log, serial) == 0
    ensures OnClose(serial) !in log
  {
    if log != [] {
      NoClosing(log[..|log| - 1], serial);
      assert log == log[..|log| - 1] + [log[|log| - 1]];
    }
  }

  lemma {:induction false} NewSerial(log: seq<Callback>, serial: nat)
    requires forall i :: 0 <= i < |log| ==> log[i].serial < serial
    ensures Closings(log, serial) == 0
  {
    if log != [] { NewSerial(log[..|log| - 1], serial); }
  }

  lemma LastWordAppend(log: seq<Callback>, c: Callback)
    requires LastWord(log) && OnClose(c.serial) !in log
    ensures LastWord(log + [c])
  {
    forall i, j | 0 <= i < j < |log + [c]| && (log + [c])[i].OnClose? ensures (log + [c])[j].serial != (log + [c])[i].serial {
      if j == |log| { assert log[i] in log; }
    }
  }

  lemma SayKeeps(s: State, id: nat, c: Callback)
    requires Inv(s) && id in s.streams && c.serial == s.streams[id].serial
    ensures LastWord(s.log + [c])
    ensures forall serial :: Closings(s.log + [c], serial) == Closings(s.log, serial) + if c == OnClose(serial) then 1 else 0
  {
    hide Closings, LastWord;
    NoClosing(s.log, c.serial);
    LastWordAppend(s.log, c);
    forall serial ensures Closings(s.log + [c], serial) == Closings(s.log, serial) + if c == OnClose(serial) then 1 else 0 {
      ClosingsOf(s.log, c, serial);
    }
  }

  function Tells(s: State, id: nat, serial: nat): nat {
    if id in s.streams && s.streams[id].serial == serial && s.streams[id].handled then 1 else 0
  }

  /** What closing does to the number of times each stream was told: one more for that stream, if it listens. */
  lemma CloseKeeps(s: State, id: nat)
    requires Inv(s)
    ensures Inv(Close(s, id)) && id !in Close(s, id).streams
    ensures forall serial :: Closings(Close(s, id).log, serial) == Closings(s.log, serial) + Tells(s, id, serial)
  {
    hide Closings, LastWord;
    if id in s.streams { SayKeeps(s, id, OnClose(s.streams[id].serial)); }
  }

  lemma {:induction false} AbortKeeps(s: State, order: seq<nat>)
    requires Inv(s)
    ensures var s' := AbortAll(s, order);
      Inv(s') && s'.streams == s.streams - (set id | id in order) && s'.adopted == s.adopted && s'.nextStreamId == s.nextStreamId
    ensures forall id :: id in order && id in s.streams && s.streams[id].handled ==>
      (Closings(AbortAll(s, order).log, s.streams[id].serial) == 1)
    ensures forall serial :: Closings(AbortAll(s, order).log, serial) >= Closings(s.log, serial)
    ensures forall serial :: !IsOpen(s, serial) ==> Closings(AbortAll(s, order).log, serial) == Closings(s.log, serial)
    decreases |order|
  {
    hide Closings, Inv;
    if order != [] {
      var s1 := Close(s, order[0]);
      CloseKeeps(s, order[0]);
      AbortKeeps(s1, order[1..]);
      assert forall id :: id in order <==> id == order[0] || id in order[1..];
      assert s.streams - (set id | id in order) == s1.streams - (set id | id in order[1..]);
      forall id | id in order && id in s.streams && s.streams[id].handled
        ensures Closings(AbortAll(s, order).log, s.streams[id].serial) == 1
      {
        OpenUntold(s, id);
        if id == order[0] { ClosedNotOpen(s, id); }
      }
      forall serial | !IsOpen(s, serial) ensures Closings(AbortAll(s, order).log, serial) == Closings(s.log, serial) {
        assert !IsOpen(s1, serial);
      }
    }
  }

  lemma OpenUntold(s: State, id: nat)
    requires Inv(s) && id in s.streams
    ensures Closings(s.log, s.streams[id].serial) == 0
  {}

  lemma ClosedNotOpen(s: State, id: nat)
    requires Inv(s) && id in s.streams
    ensures !IsOpen(Close(s, id), s.streams[id].serial)
  {
    hide Closings, LastWord;
  }

  lemma AdoptKeeps(s: State, id: nat)
    requires Inv(s)
    ensures Inv(Adopt(s, id).0)
  {
    hide Closings, LastWord;
    NewSerial(s.log, s.adopted);
  }

  lemma AttachKeeps(s: State, id: nat)
    requires Inv(s)
    ensures Inv(Attach(s, id))
  {
    hide Closings, LastWord;
  }

  lemma DataKeeps(s: State, id: nat, data: seq<int>)
    requires Inv(s)
    ensures Inv(OnData(s, id, data))
  {
    hide Closings, LastWord;
    if id in s.streams { SayKeeps(s, id, OnChunk(s.streams[id].serial, data)); }
  }

  lemma AllocateKeeps(s: State, id: nat, probes: nat)
    requires Inv(s) && FirstFree(s, id, probes)
    ensures Inv(s.(nextStreamId := NextId(id)))
  {
    hide Closings, LastWord;
  }

  lemma StepKeeps(s: State, a: Act, s': State)
    requires Inv(s) && Possible(s, a, s')
    ensures Inv(s')
  {
    hide Inv, FirstFree, Adopt, Attach, OnData, Close, AbortAll, NextId;
    match a
    case AllocateAct =>
      var id, probes: nat :| FirstFree(s, id, probes) && s' == s.(nextStreamId := NextId(id));
      AllocateKeeps(s, id, probes);
    case AdoptAct(id) => AdoptKeeps(s, id);
    case AttachAct(id) => AttachKeeps(s, id);
    case DataAct(id, data) => DataKeeps(s, id, data);
    case CloseAct(id) => CloseKeeps(s, id);
    case AbortAct(order) => AbortKeeps(s, order);
  }

  // ---------- Closed exactly once ----------

  /** A stream with a handler is open and has not been told, or closed and has been told once. */
  ghost predicate ToldRight(s: State, serial: nat) {
    || (exists id :: id in s.streams && s.streams[id].serial == serial && s.streams[id].handled)
    || (!IsOpen(s, serial) && Closings(s.log, serial) == 1)
  }

  lemma StepToldRight(s: State, a: Act, s': State, serial: nat)
    requires Inv(s) && Possible(s, a, s') && serial < s.adopted && ToldRight(s, serial)
    ensures ToldRight(s', serial) && serial < s'.adopted
  {
    hide Closings, LastWord, Cycle, FirstFree, Inv;
    match a
    case AllocateAct =>
    case AdoptAct(id) => AdoptKeepsOthers(s, id, serial);
    case AttachAct(id) => AttachKeepsOthers(s, id, serial);
    case DataAct(id, data) => DataKeepsOthers(s, id, data, serial);
    case CloseAct(id) => CloseTells(s, id, serial);
    case AbortAct(order) => AbortTells(s, order, serial);
  }

  lemma AdoptKeepsOthers(s: State, id: nat, serial: nat)
    requires Inv(s) && serial < s.adopted && ToldRight(s, serial)
    ensures ToldRight(Adopt(s, id).0, serial)
  {
    hide Closings, LastWord;
    if k :| k in s.streams && s.streams[k].serial == serial && s.streams[k].handled {
      assert k in Adopt(s, id).0.streams && Adopt(s, id).0.streams[k] == s.streams[k];
    }
  }

  lemma AttachKeepsOthers(s: State, id: nat, serial: nat)
    requires Inv(s) && ToldRight(s, serial)
    ensures ToldRight(Attach(s, id), serial)
  {
    hide Closings, LastWord;
    if k :| k in s.streams && s.streams[k].serial == serial && s.streams[k].handled {
      assert k in Attach(s, id).streams && Attach(s, id).streams[k].handled;
    }
  }

  lemma DataKeepsOthers(s: State, id: nat, data: seq<int>, serial: nat)
    requires Inv(s) && ToldRight(s, serial)
    ensures ToldRight(OnData(s, id, data), serial)
  {
    hide Closings, LastWord;
    if id in s.streams { SayKeeps(s, id, OnChunk(s.streams[id].serial, data)); }
    if k :| k in s.streams && s.streams[k].serial == serial && s.streams[k].handled {
      assert k in OnData(s, id, data).streams && OnData(s, id, data).streams[k].handled;
    }
  }

  lemma CloseTells(s: State, id: nat, serial: nat)
    requires Inv(s) && ToldRight(s, serial)
    ensures ToldRight(Close(s, id), serial)
  {
    hide Closings, LastWord;
    CloseKeeps(s, id);
    if k :| k in s.streams && s.streams[k].serial == serial && s.streams[k].handled {
      OpenUntold(s, k);
      if k == id { ClosedNotOpen(s, id); }
      else { assert k in Close(s, id).streams && Close(s, id).streams[k] == s.streams[k]; }
    }
  }

  lemma AbortTells(s: State, order: seq<nat>, serial: nat)
    requires Inv(s) && ToldRight(s, serial) && forall id :: id in order <==> id in s.streams
    ensures ToldRight(AbortAll(s, order), serial) && AbortAll(s, order).adopted == s.adopted
  {
    hide Closings, Inv, AbortAll;
    AbortKeeps(s, order);
  }

  /** The states a registry goes through. */
  ghost predicate IsTrace(states: seq<State>, acts: seq<Act>) {
    && |states| == |acts| + 1 && states[0] == EMPTY
    && forall i :: 0 <= i < |acts| ==> Possible(states[i], acts[i], states[i + 1])
  }

  lemma {:induction false} TraceKeeps(states: seq<State>, acts: seq<Act>, n: nat)
    requires IsTrace(states, acts) && n <= |acts|
    ensures Inv(states[n])
  {
    hide Inv, Possible;
    if n == 0 {
      assert Inv(EMPTY) by { EmptyIsGood(); }
    } else {
      TraceKeeps(states, acts, n - 1);
      StepKeeps(states[n - 1], acts[n - 1], states[n]);
    }
  }

  lemma EmptyIsGood()
    ensures Inv(EMPTY)
  {}

  /** Over any run of allocating, adopting, attaching, receiving, closing and aborting: from the moment a
      stream has a handler it is open and untold, or closed and told exactly once; it hears nothing after. */
  lemma {:induction false} ClosedExactlyOnce(states: seq<State>, acts: seq<Act>, id: nat, earlier: nat, later: nat)
    requires IsTrace(states, acts) && earlier <= later <= |acts|
    requires id in states[earlier].streams && states[earlier].streams[id].handled
    ensures var serial := states[earlier].streams[id].serial;
      && Closings(states[later].log, serial) == (if IsOpen(states[later], serial) then 0 else 1)
      && LastWord(states[later].log)
  {
    hide Inv, Possible, Closings, LastWord;
    var serial := states[earlier].streams[id].serial;
    StillToldRight(states, acts, id, earlier, later);
    TraceKeeps(states, acts, later);
    assert LastWord(states[later].log) by { WordOf(states[later]); }
    if IsOpen(states[later], serial) {
      var k :| k in states[later].streams && states[later].streams[k].serial == serial;
      OpenUntold(states[later], k);
    }
  }

  lemma WordOf(s: State)
    requires Inv(s)
    ensures LastWord(s.log)
  {}

  lemma {:induction false} StillToldRight(states: seq<State>, acts: seq<Act>, id: nat, earlier: nat, later: nat)
    requires IsTrace(states, acts) && earlier <= later <= |acts|
    requires id in states[earlier].streams && states[earlier].streams[id].handled
    ensures states[earlier].streams[id].serial < states[later].adopted && ToldRight(states[later], states[earlier].streams[id].serial)
    decreases later
  {
    hide Inv, Possible, Closings;
    var serial := states[earlier].streams[id].serial;
    if earlier == later {
      TraceKeeps(states, acts, earlier);
      SerialBelow(states[earlier], id);
    } else {
      StillToldRight(states, acts, id, earlier, later - 1);
      TraceKeeps(states, acts, later - 1);
      StepToldRight(states[later - 1], acts[later - 1], states[later], serial);
    }
  }

  lemma SerialBelow(s: State, id: nat)
    requires Inv(s) && id in s.streams
    ensures s.streams[id].serial < s.adopted
  {}

  // ---------- Telling everyone at once ----------

  /** What abortAll says to the streams of a table, taken in an order. */
  function Farewells(streams: map<nat, Entry>, order: seq<nat>): seq<Callback>
    decreases |order|
  {
    if order == [] then []
    else Farewell(streams, order[0]) + Farewells(streams - {order[0]}, order[1..])
  }

  function Farewell(streams: map<nat, Entry>, id: nat): seq<Callback> {
    if id in streams && streams[id].handled then [OnClose(streams[id].serial)] else []
  }

  lemma FarewellsOfNone(streams: map<nat, Entry>)
    ensures Farewells(streams, []) == []
  {}

  lemma {:induction false} FarewellsOneMore(streams: map<nat, Entry>, order: seq<nat>, id: nat)
    requires id !in order
    ensures Farewells(streams, order + [id]) == Farewells(streams, order) + Farewell(streams, id)
    decreases |order|
  {
    if order == [] {
      assert order + [id] == [id] && [id][1..] == [];
      FarewellsOfNone(streams - {id});
    } else {
      assert (order + [id])[1..] == order[1..] + [id];
      FarewellsOneMore(streams - {order[0]}, order[1..], id);
      assert Farewell(streams - {order[0]}, id) == Farewell(streams, id);
    }
  }

  /** Closing the streams one after another comes to the same as telling them all and emptying the table. */
  lemma {:induction false} AbortAllIs(s: State, order: seq<nat>)
    ensures AbortAll(s, order) == s.(streams := s.streams - (set id | id in order), log := s.log + Farewells(s.streams, order))
    decreases |order|
  {
    hide Close, Farewell;
    if order == [] {
      assert s.streams - (set id | id in order) == s.streams;
    } else {
      var s1 := Close(s, order[0]);
      CloseIs(s, order[0]);
      AbortAllIs(s1, order[1..]);
      RemoveRest(s.streams, order);
    }
  }

  lemma CloseIs(s: State, id: nat)
    ensures Close(s, id) == s.(streams := s.streams - {id}, log := s.log + Farewell(s.streams, id))
  {
    if id !in s.streams { assert s.streams - {id} == s.streams; }
  }

  lemma RemoveRest(m: map<nat, Entry>, order: seq<nat>)
    requires order != []
    ensures m - (set id | id in order) == m - {order[0]} - (set id | id in order[1..])
  {
    assert forall id :: id in order <==> id == order[0] || id in order[1..];
  }

  // ---------- The objects ----------

  class StreamContext {
    const streamId: nat
    const serial: nat
    var chunks: nat
    var bytes: nat
    var handled: bool
    var closed: bool

    constructor (streamId: nat, serial: nat)
      ensures this.streamId == streamId && View() == Entry(serial, 0, 0, false) && !closed
    {
      this.streamId, this.serial := streamId, serial;
      chunks, bytes, handled, closed := 0, 0, false, false;
    }

    ghost function View(): Entry
      reads this
    {
      Entry(serial, chunks, bytes, handled)
    }
  }

  class Registry {
    var streams: map<nat, StreamContext>
    var nextStreamId: nat
    var adopted: nat
    var log: seq<Callback>

    /** The contexts in the table are distinct, open, and filed under their own ids. */
    ghost predicate Valid()
      reads this, streams.Values
    {
      && 1 <= nextStreamId <= MAX_STREAM_ID
      && forall id :: id in streams ==> streams[id].streamId == id && !streams[id].closed
    }

    ghost function Entries(): map<nat, Entry>
      reads this, streams.Values
    {
      map id | id in streams :: streams[id].View()
    }

    ghost function View(): State
      reads this, streams.Values
    {
      State(Entries(), nextStreamId, adopted, log)
    }

    constructor ()
      ensures Valid() && View() == EMPTY
    {
      streams, nextStreamId, adopted, log := map[], 1, 0, [];
    }

    /** Goes round from nextStreamId and stops after at most one probe more than there are open streams. */
    method Allocate() returns (id: nat, probes: nat)
      requires Valid() && |streams| < MAX_STREAM_ID
      modifies this`nextStreamId
      ensures Valid() && FirstFree(old(View()), id, probes) && probes <= |streams| && id != 0
      ensures View() == old(View()).(nextStreamId := NextId(id))
    {
      hide Cycle;
      probes := 0;
      CycleNext(nextStreamId, 0);
      while nextStreamId in streams || nextStreamId == 0
        invariant Valid() && nextStreamId == Cycle(old(nextStreamId), probes) && probes <= |streams|
        invariant forall k: nat :: k < probes ==> Cycle(old(nextStreamId), k) in streams
        decreases |streams| - probes
      {
        CycleNext(old(nextStreamId), probes);
        nextStreamId := if nextStreamId >= MAX_STREAM_ID then 1 else nextStreamId + 1;
        probes := probes + 1;
        assert |streams.Keys| == |streams|;
        ProbesBounded(old(nextStreamId), probes, streams.Keys);
      }
      id := nextStreamId;
      nextStreamId := if nextStreamId >= MAX_STREAM_ID then 1 else nextStreamId + 1;
    }

    method AdoptStream(streamId: nat) returns (r: AdoptResult, context: StreamContext?)
      requires Valid()
      modifies this
      ensures Valid() && (View(), r) == Adopt(old(View()), streamId)
      ensures context != null <==> r.Adopted?
      ensures context != null ==> fresh(context) && streamId in streams && streams[streamId] == context
    {
      if streamId == 0 { return Refused(STREAM_ID_INVALID), null; }
      if streamId in streams { return Refused(STREAM_ALREADY_OPEN), null; }
      context := new StreamContext(streamId, adopted);
      streams := streams[streamId := context];
      r := Adopted(adopted);
      adopted := adopted + 1;
      assert View().streams == old(View()).streams[streamId := Entry(old(adopted), 0, 0, false)];
    }

    method AttachHandler(streamId: nat)
      requires Valid()
      modifies streams.Values
      ensures Valid() && View() == Attach(old(View()), streamId)
    {
      if streamId !in streams { return; }
      streams[streamId].handled := true;
      assert View().streams == Attach(old(View()), streamId).streams;
    }

    method DataArrived(streamId: nat, data: seq<int>)
      requires Valid()
      modifies this`log, streams.Values
      ensures Valid() && View() == OnData(old(View()), streamId, data)
    {
      if streamId !in streams { return; }
      var context := streams[streamId];
      if context.closed { return; }
      context.chunks := context.chunks + 1;
      context.bytes := context.bytes + |data|;
      if context.handled { log := log + [OnChunk(context.serial, data)]; }
      assert View().streams == OnData(old(View()), streamId, data).streams;
    }

    method CloseStream(streamId: nat)
      requires Valid()
      modifies this`log, this`streams, streams.Values
      ensures Valid() && View() == Close(old(View()), streamId)
    {
      if streamId !in streams { return; }
      var context := streams[streamId];
      context.closed := true;
      if context.handled { log := log + [OnClose(context.serial)]; }
      streams := streams - {streamId};
      assert View().streams == Close(old(View()), streamId).streams;
    }

    method MarkAndTell(id: nat, ghost was: map<nat, Entry>)
      requires id in streams && was == Entries()
      modifies this`log, streams[id]
      ensures Entries() == was && log == old(log) + Farewell(was, id)
    {
      var context := streams[id];
      context.closed := true;
      if context.handled { log := log + [OnClose(context.serial)]; }
      assert forall k :: k in streams ==> streams[k].View() == was[k];
    }

    method TellEveryone() returns (order: seq<nat>)
      modifies this`log, streams.Values
      ensures forall id :: id in order <==> id in streams
      ensures log == old(log) + Farewells(old(Entries()), order)
    {
      hide Entries, Farewells, Farewell;
      order := [];
      var todo := streams.Keys;
      ghost var was := Entries();
      FarewellsOfNone(was);
      while todo != {}
        invariant todo <= streams.Keys
        invariant forall id :: id in order <==> id in streams && id !in todo
        invariant Entries() == was && log == old(log) + Farewells(was, order)
        decreases |todo|
      {
        var id :| id in todo;
        FarewellsOneMore(was, order, id);
        MarkAndTell(id, was);
        order := order + [id];
        todo := todo - {id};
      }
    }

    /** Each context in the table, in some order, is marked and told; then the table is emptied. */
    method AbortEverything() returns (order: seq<nat>)
      requires Valid()
      modifies this`log, this`streams, streams.Values
      ensures Valid() && View() == AbortAll(old(View()), order)
      ensures forall id :: id in order <==> id in old(streams)
    {
      hide AbortAll, Farewells;
      order := TellEveryone();
      streams := map[];
      AbortAllIs(old(View()), order);
      assert old(Entries()) - (set id | id in order) == map[];
    }
  }
}
