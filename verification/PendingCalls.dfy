/** Tracking of outbound calls by request id (src/core/pendingCalls.ts). A call is named by the order in which
    it was made; the id it travels under wraps round after 2^32 - 1 calls. */
module PendingCalls {
  import opened Sets

  const MAX_REQUEST_ID := 0xffffffff

  /** What became of a call; an answer remembers which call it was an answer to. */
  datatype Outcome =
    | Answered(origin: nat, answer: int)
    | TimedOut
    | Rejected(code: nat)
    | SendFailed

  datatype State = State(
    pending: map<nat, nat>,
    timers: set<nat>,
    nextRequestId: nat,
    calls: nat,
    settled: map<nat, Outcome>)

  const EMPTY := State(map[], {}, 1, 0, map[])

  /** The id of the n-th call. */
  function IdOf(call: nat): (id: nat)
    ensures 1 <= id <= MAX_REQUEST_ID
  {
    1 + call % MAX_REQUEST_ID
  }

  function NextId(id: nat): nat {
    if id >= MAX_REQUEST_ID then 1 else id + 1
  }

  function Settle(s: State, call: nat, o: Outcome): State {
    s.(settled := s.settled[call := o])
  }

  function Cancel(s: State, id: nat): State {
    if id !in s.pending then s else s.(timers := s.timers - {s.pending[id]}, pending := s.pending - {id})
  }

  /** request: the entry is made before the message is sent, and unmade if sending throws. */
  function Request(s: State, sendThrows: bool): State {
    var id := s.nextRequestId;
    var s1 := s.(pending := s.pending[id := s.calls], timers := s.timers + {s.calls},
                 nextRequestId := NextId(id), calls := s.calls + 1);
    if sendThrows then Settle(Cancel(s1, id), s.calls, SendFailed) else s1
  }

  function Resolve(s: State, id: nat, origin: nat, answer: int): State {
    if id !in s.pending then s else Settle(Cancel(s, id), s.pending[id], Answered(origin, answer))
  }

  /** The timer of a call goes off: it looks for an entry under its id, whoever that entry belongs to. */
  function TimerFires(s: State, call: nat): State {
    var s1 := s.(timers := s.timers - {call});
    if IdOf(call) !in s.pending then s1
    else Settle(s1.(pending := s1.pending - {IdOf(call)}), call, TimedOut)
  }

  function Verdicts(calls: set<nat>, code: nat): map<nat, Outcome> {
    map c | c in calls :: Rejected(code)
  }

  lemma NoneYet(settled: map<nat, Outcome>, timers: set<nat>, all: set<nat>, code: nat)
    ensures settled + Verdicts(all - all, code) == settled && timers - (all - all) == timers
  {}

  lemma OneMore(settled: map<nat, Outcome>, timers: set<nat>, all: set<nat>, todo: set<nat>, call: nat, code: nat)
    requires todo <= all && call in todo
    ensures timers - (all - (todo - {call})) == (timers - (all - todo)) - {call}
    ensures settled + Verdicts(all - (todo - {call}), code) == (settled + Verdicts(all - todo, code))[call := Rejected(code)]
  {
    assert all - (todo - {call}) == (all - todo) + {call};
  }

  function RejectAll(s: State, code: nat): State {
    s.(pending := map[], timers := s.timers - s.pending.Values, settled := s.settled + Verdicts(s.pending.Values, code))
  }

  // ---------- Every run ----------

  datatype Act =
    | Call(sendThrows: bool)
    | Response(id: nat, origin: nat, answer: int)
    | Timeout(call: nat)
    | Disconnect(code: nat)

  predicate Possible(s: State, a: Act) {
    a.Timeout? ==> a.call in s.timers
  }

  function Step(s: State, a: Act): State
    requires Possible(s, a)
  {
    match a
    case Call(sendThrows) => Request(s, sendThrows)
    case Response(id, origin, answer) => Resolve(s, id, origin, answer)
    case Timeout(call) => TimerFires(s, call)
    case Disconnect(code) => RejectAll(s, code)
  }

  /** Entries stand under the ids of their calls; a settled call has no entry and no timer left. */
  ghost predicate Inv(s: State) {
    && s.nextRequestId == IdOf(s.calls)
    && (forall id :: id in s.pending ==> s.pending[id] < s.calls && IdOf(s.pending[id]) == id && s.pending[id] in s.timers)
    && (forall c :: c in s.timers ==> c < s.calls && c !in s.settled)
    && (forall c :: c in s.settled ==> c < s.calls)
  }

  lemma IdOfNext(call: nat)
    ensures IdOf(call + 1) == NextId(IdOf(call))
  {
    var r := call % MAX_REQUEST_ID;
    if r + 1 == MAX_REQUEST_ID {
      assert call + 1 == (call / MAX_REQUEST_ID + 1) * MAX_REQUEST_ID;
    } else {
      assert call + 1 == call / MAX_REQUEST_ID * MAX_REQUEST_ID + (r + 1);
    }
  }

  /** Two calls share an id exactly when they are a multiple of 2^32 - 1 calls apart. */
  lemma SameIdIff(c: nat, d: nat)
    ensures IdOf(c) == IdOf(d) <==> (c - d) % MAX_REQUEST_ID == 0
  {
    var k := c / MAX_REQUEST_ID - d / MAX_REQUEST_ID;
    var r := c % MAX_REQUEST_ID - d % MAX_REQUEST_ID;
    assert c - d == k * MAX_REQUEST_ID + r;
    if r == 0 {
      assert (c - d) % MAX_REQUEST_ID == 0;
    } else if r > 0 {
      assert (c - d) % MAX_REQUEST_ID == r;
    } else {
      assert c - d == (k - 1) * MAX_REQUEST_ID + (r + MAX_REQUEST_ID);
    }
  }

  lemma NearIdsDiffer(c: nat, d: nat)
    requires IdOf(c) == IdOf(d) && -MAX_REQUEST_ID < c - d < MAX_REQUEST_ID
    ensures c == d
  {
    SameIdIff(c, d);
  }

  /** Whatever happens, in whatever order: a call that is settled stays as it is and is not settled again. */
  lemma StepKeeps(s: State, a: Act)
    requires Inv(s) && Possible(s, a)
    ensures Inv(Step(s, a))
    ensures forall c :: c in s.settled ==> c in Step(s, a).settled && Step(s, a).settled[c] == s.settled[c]
  {
    hide IdOf, NextId;
    IdOfNext(s.calls);
  }

  ghost predicate AllIn(timers: set<nat>, settled: map<nat, Outcome>, n: nat) {
    forall c :: 0 <= c < n ==> c in timers || c in settled
  }

  /** Every call is pending with its timer running, or has an outcome. */
  ghost predicate Conserved(s: State) {
    s.timers == s.pending.Values && AllIn(s.timers, s.settled, s.calls)
  }

  predicate Fresh(s: State, a: Act) {
    a.Call? ==> s.nextRequestId !in s.pending
  }

  /** A request takes over the entry of a pending call exactly when one is pending that is a multiple of
      2^32 - 1 calls older. */
  lemma TakesOverIff(s: State)
    requires Inv(s)
    ensures !Fresh(s, Call(false)) <==> exists id :: id in s.pending && (s.calls - s.pending[id]) % MAX_REQUEST_ID == 0
  {
    hide IdOf;
    forall id | id in s.pending ensures (s.calls - s.pending[id]) % MAX_REQUEST_ID == 0 <==> id == s.nextRequestId {
      SameIdIff(s.calls, s.pending[id]);
    }
  }

  // ---------- Counting ----------

  lemma Injective(s: State)
    requires Inv(s)
    ensures forall i, j :: i in s.pending && j in s.pending && s.pending[i] == s.pending[j] ==> i == j
  {
    hide IdOf;
  }

  lemma {:induction false} ValuesCount(m: map<nat, nat>)
    requires forall i, j :: i in m && j in m && m[i] == m[j] ==> i == j
    ensures |m.Values| == |m|
    decreases |m|
  {
    if m != map[] {
      var i :| i in m;
      var n := m - {i};
      assert m.Keys == n.Keys + {i};
      ValuesCount(n);
      forall c | c in m.Values - {m[i]} ensures c in n.Values {
        var j :| j in m && m[j] == c;
        assert j in n && n[j] == c;
      }
      assert m.Values == n.Values + {m[i]};
    }
  }

  lemma PutCount<V>(m: map<nat, V>, k: nat, v: V)
    ensures |m[k := v]| == |m| + if k in m then 0 else 1
  {
    assert m[k := v].Keys == m.Keys + {k};
  }

  lemma DropCount<V>(m: map<nat, V>, k: nat)
    requires k in m
    ensures |m - {k}| == |m| - 1
  {
    assert (m - {k}).Keys == m.Keys - {k};
  }

  /** Settled and pending calls are different calls among those made. */
  lemma KnownCalls(s: State)
    requires Inv(s)
    ensures s.settled.Keys !! s.pending.Values && |s.pending.Values| == |s.pending|
    ensures s.settled.Keys + s.pending.Values <= Below(s.calls)
  {
    hide IdOf;
    Injective(s);
    ValuesCount(s.pending);
  }

  function Below(n: nat): (r: set<nat>)
    ensures forall c: nat :: c in r <==> c < n
    ensures |r| == n
  {
    if n == 0 then {} else Below(n - 1) + {n - 1}
  }

  lemma RejectedCount(s: State, code: nat)
    requires Inv(s)
    ensures |RejectAll(s, code).settled| == |s.settled| + |s.pending|
  {
    hide Inv, Below;
    KnownCalls(s);
    VerdictKeys(s.settled, s.pending.Values, code);
  }

  lemma VerdictKeys(settled: map<nat, Outcome>, calls: set<nat>, code: nat)
    requires settled.Keys !! calls
    ensures |settled + Verdicts(calls, code)| == |settled| + |calls|
  {
    assert (settled + Verdicts(calls, code)).Keys == settled.Keys + calls;
  }

  /** The calls that are neither settled nor pending. */
  function Missing(s: State): int {
    s.calls - |s.settled| - |s.pending|
  }

  /** A step loses a call exactly when it reuses a pending id. */
  lemma StepCounts(s: State, a: Act)
    requires Inv(s) && Possible(s, a)
    ensures Missing(Step(s, a)) == Missing(s) + if Fresh(s, a) then 0 else 1
  {
    hide IdOf, NextId;
    match a
    case Call(sendThrows) =>
      PutCount(s.pending, s.nextRequestId, s.calls);
      if sendThrows {
        DropCount(s.pending[s.nextRequestId := s.calls], s.nextRequestId);
        PutCount(s.settled, s.calls, SendFailed);
      }
    case Response(id, origin, answer) =>
      if id in s.pending {
        DropCount(s.pending, id);
        PutCount(s.settled, s.pending[id], Answered(origin, answer));
      }
    case Timeout(call) =>
      if IdOf(call) in s.pending {
        DropCount(s.pending, IdOf(call));
        PutCount(s.settled, call, TimedOut);
      }
    case Disconnect(code) => RejectedCount(s, code);
  }

  /** No call is missing exactly when each is pending with its timer running, or settled. */
  lemma NoneMissingIff(s: State)
    requires Inv(s)
    ensures Missing(s) >= 0
    ensures Conserved(s) <==> Missing(s) == 0
  {
    hide IdOf, Inv, Below, Conserved;
    KnownCalls(s);
    var known := s.settled.Keys + s.pending.Values;
    SubsetSize(known, Below(s.calls));
    if Missing(s) == 0 { SameSize(known, Below(s.calls)); }
    ConservedMeans(s);
  }

  lemma ConservedMeans(s: State)
    requires Inv(s)
    ensures Conserved(s) <==> s.settled.Keys + s.pending.Values == Below(s.calls)
  {
    hide Inv, Below, AllIn;
    TimersAre(s);
    KnownCalls(s);
    AllKnown(s.timers, s.pending.Values, s.settled, s.calls);
  }

  lemma TimersAre(s: State)
    requires Inv(s)
    ensures s.pending.Values <= s.timers && s.timers <= Below(s.calls) && s.timers !! s.settled.Keys
  {
    hide IdOf;
  }

  lemma AllKnown(timers: set<nat>, waiting: set<nat>, settled: map<nat, Outcome>, n: nat)
    requires waiting <= timers && timers <= Below(n) && timers !! settled.Keys && settled.Keys + waiting <= Below(n)
    ensures timers == waiting && AllIn(timers, settled, n) <==> settled.Keys + waiting == Below(n)
  {
    var known := settled.Keys + waiting;
    if known == Below(n) {
      forall c: nat | c < n ensures c in timers || c in settled { assert c in known; }
      forall c | c in timers ensures c in waiting { assert c in known; }
    }
  }

  lemma SameSize(a: set<nat>, b: set<nat>)
    requires a <= b && |a| == |b|
    ensures a == b
  {
    assert b == a + (b - a);
  }

  /** One step, from a state where nothing is lost: every call is still pending or settled if and only if the
      step is not a call that finds one pending a multiple of 2^32 - 1 calls older. */
  lemma ConservedIff(s: State, a: Act)
    requires Inv(s) && Conserved(s) && Possible(s, a)
    ensures Conserved(Step(s, a)) <==> Fresh(s, a)
    ensures Fresh(s, a) <==> !a.Call? || forall c :: c in s.timers ==> (s.calls - c) % MAX_REQUEST_ID != 0
  {
    hide IdOf, Step, Missing;
    StepKeeps(s, a);
    StepCounts(s, a);
    NoneMissingIff(s);
    NoneMissingIff(Step(s, a));
    TakesOverIff(s);
  }

  /** After a disconnect nothing is pending, no timer of a pending call is left, and each of them got the error. */
  lemma RejectAllLeavesNone(s: State, code: nat)
    requires Inv(s)
    ensures RejectAll(s, code).pending == map[]
    ensures forall id :: id in s.pending ==>
      (s.pending[id] !in RejectAll(s, code).timers && RejectAll(s, code).settled[s.pending[id]] == Rejected(code))
  {}

  ghost predicate IsRun(s: State, acts: seq<Act>)
    decreases |acts|
  {
    acts == [] || (Possible(s, acts[0]) && IsRun(Step(s, acts[0]), acts[1..]))
  }

  ghost predicate NoReuse(s: State, acts: seq<Act>)
    requires IsRun(s, acts)
    decreases |acts|
  {
    acts == [] || (Fresh(s, acts[0]) && NoReuse(Step(s, acts[0]), acts[1..]))
  }

  function After(s: State, acts: seq<Act>): State
    requires IsRun(s, acts)
    decreases |acts|
  {
    if acts == [] then s else After(Step(s, acts[0]), acts[1..])
  }

  /** How often a run reuses an id that is pending. */
  function Reuses(s: State, acts: seq<Act>): nat
    requires IsRun(s, acts)
    decreases |acts|
  {
    if acts == [] then 0 else (if Fresh(s, acts[0]) then 0 else 1) + Reuses(Step(s, acts[0]), acts[1..])
  }

  lemma {:induction false} NoReuseIff(s: State, acts: seq<Act>)
    requires IsRun(s, acts)
    ensures NoReuse(s, acts) <==> Reuses(s, acts) == 0
    decreases |acts|
  {
    hide Step, Fresh, Possible;
    if acts != [] { NoReuseIff(Step(s, acts[0]), acts[1..]); }
  }

  lemma {:induction false} RunKeeps(s: State, acts: seq<Act>)
    requires Inv(s) && IsRun(s, acts)
    ensures Inv(After(s, acts))
    ensures forall c :: c in s.settled ==> c in After(s, acts).settled && After(s, acts).settled[c] == s.settled[c]
    ensures Missing(After(s, acts)) == Missing(s) + Reuses(s, acts)
    decreases |acts|
  {
    hide Inv, Step, Fresh, Possible, Missing;
    if acts != [] {
      StepKeeps(s, acts[0]);
      StepCounts(s, acts[0]);
      RunKeeps(Step(s, acts[0]), acts[1..]);
    }
  }

  lemma {:induction false} RunPrefix(s: State, acts: seq<Act>, n: nat)
    requires IsRun(s, acts) && n <= |acts|
    ensures IsRun(s, acts[..n]) && IsRun(After(s, acts[..n]), acts[n..])
    ensures After(s, acts) == After(After(s, acts[..n]), acts[n..])
    decreases n
  {
    hide Step, Possible;
    if n == 0 {
      assert acts[n..] == acts;
    } else {
      RunPrefix(Step(s, acts[0]), acts[1..], n - 1);
      assert acts[..n][1..] == acts[1..][..n - 1] && acts[n..] == acts[1..][n - 1..];
    }
  }

  /** From the start, whatever happens: once a call is settled nothing settles it again. */
  lemma EveryRun(acts: seq<Act>, n: nat)
    requires IsRun(EMPTY, acts) && n <= |acts|
    ensures IsRun(EMPTY, acts[..n]) && Inv(After(EMPTY, acts))
    ensures var early := After(EMPTY, acts[..n]).settled; var late := After(EMPTY, acts).settled;
      forall c :: c in early ==> c in late && late[c] == early[c]
  {
    hide Step, Possible;
    RunKeeps(EMPTY, acts);
    RunPrefix(EMPTY, acts, n);
    RunKeeps(EMPTY, acts[..n]);
    RunKeeps(After(EMPTY, acts[..n]), acts[n..]);
  }

  /** Over any run, the calls made are the calls settled, the calls pending and one for every reuse of a pending
      id. So every call is pending with its timer running, or settled, if and only if no pending id was reused. */
  lemma LostExactlyByReuse(acts: seq<Act>)
    requires IsRun(EMPTY, acts)
    ensures var s := After(EMPTY, acts);
      && s.calls == |s.settled| + |s.pending| + Reuses(EMPTY, acts)
      && (Conserved(s) <==> NoReuse(EMPTY, acts))
  {
    hide Step, Possible, Inv, Conserved;
    assert Inv(EMPTY) by { EmptyIsGood(); }
    RunKeeps(EMPTY, acts);
    NoReuseIff(EMPTY, acts);
    NoneMissingIff(After(EMPTY, acts));
  }

  lemma EmptyIsGood()
    ensures Inv(EMPTY)
  {}

  /** When an id is reused, calls do get lost: the timer of the older one takes the entry of the newer one
      away, and then no response and no timer can settle the newer one. */
  lemma ReuseLosesACall(s: State, older: nat, answer: int)
    requires Inv(s) && older in s.timers && IdOf(older) in s.pending && s.pending[IdOf(older)] == older
    requires IdOf(s.calls) == IdOf(older)
    ensures var s1 := Step(s, Call(false)); var newer := s.calls;
      && Possible(s1, Timeout(older))
      && var s2 := Step(s1, Timeout(older));
      && Step(s2, Response(IdOf(newer), newer, answer)) == s2
      && Possible(s2, Timeout(newer))
      && newer !in Step(s2, Timeout(newer)).settled
  {
    hide IdOf, NextId;
  }

  // ---------- Reuse does happen ----------

  function Failures(n: nat): map<nat, Outcome> {
    if n == 0 then map[] else Failures(n - 1)[n := SendFailed]
  }

  lemma {:induction false} FailuresSize(n: nat)
    ensures |Failures(n)| == n && forall c :: c in Failures(n) ==> 0 < c <= n
  {
    if n > 0 {
      FailuresSize(n - 1);
      PutCount(Failures(n - 1), n, SendFailed);
    }
  }

  /** One call is pending, and the n after it could not be sent. */
  function OneWaits(n: nat): State {
    State(map[1 := 0], {0}, IdOf(n + 1), n + 1, Failures(n))
  }

  function Failing(n: nat): (acts: seq<Act>)
    ensures |acts| == n
  {
    seq(n, _ => Call(true))
  }

  lemma FailOnce(n: nat)
    requires n + 1 < MAX_REQUEST_ID
    ensures Step(OneWaits(n), Call(true)) == OneWaits(n + 1)
  {
    hide IdOf;
    IdOfNext(n + 1);
    SmallIds(n + 1);
    var s := Step(OneWaits(n), Call(true));
    assert s.pending == map[1 := 0];
    assert s.timers == {0};
  }

  lemma SmallIds(call: nat)
    requires call < MAX_REQUEST_ID
    ensures IdOf(call) == call + 1
  {}

  lemma {:induction false} FailOften(n: nat, k: nat)
    requires n + k < MAX_REQUEST_ID
    ensures IsRun(OneWaits(n), Failing(k)) && After(OneWaits(n), Failing(k)) == OneWaits(n + k)
    decreases k
  {
    hide Step, OneWaits;
    if k > 0 {
      FailOnce(n);
      FailOften(n + 1, k - 1);
      assert Failing(k)[1..] == Failing(k - 1) && Failing(k)[0] == Call(true);
    }
  }

  lemma {:induction false} RunAppend(s: State, acts: seq<Act>, more: seq<Act>)
    requires IsRun(s, acts) && IsRun(After(s, acts), more)
    ensures IsRun(s, acts + more) && After(s, acts + more) == After(After(s, acts), more)
    decreases |acts|
  {
    hide Step, Possible;
    if acts == [] {
      assert acts + more == more;
    } else {
      RunAppend(Step(s, acts[0]), acts[1..], more);
      assert (acts + more)[1..] == acts[1..] + more && (acts + more)[0] == acts[0];
    }
  }

  lemma FirstWaits()
    ensures Step(EMPTY, Call(false)) == OneWaits(0)
  {
    assert Step(EMPTY, Call(false)).settled == OneWaits(0).settled;
  }

  /** What the last call of the story leaves behind. */
  function OneLost(): State {
    State(map[], {}, 2, MAX_REQUEST_ID + 1, OneWaits(MAX_REQUEST_ID - 1).settled[0 := TimedOut])
  }

  lemma ThreeActs(s: State, a: Act, b: Act, c: Act)
    requires Possible(s, a) && Possible(Step(s, a), b) && Possible(Step(Step(s, a), b), c)
    ensures IsRun(s, [a, b, c]) && After(s, [a, b, c]) == Step(Step(Step(s, a), b), c)
  {
    hide Step, Possible;
    assert [a, b, c][1..] == [b, c] && [b, c][1..] == [c] && [c][1..] == [];
    var s2 := Step(Step(s, a), b);
    assert IsRun(s2, [c]) && After(s2, [c]) == Step(s2, c);
    assert IsRun(Step(s, a), [b, c]);
  }

  lemma LastIsLost()
    ensures var tail := [Call(false), Timeout(0), Timeout(MAX_REQUEST_ID)];
      IsRun(OneWaits(MAX_REQUEST_ID - 1), tail) && After(OneWaits(MAX_REQUEST_ID - 1), tail) == OneLost()
  {
    hide Failures;
    var s0 := OneWaits(MAX_REQUEST_ID - 1);
    var s1 := Step(s0, Call(false));
    assert s1.timers == {0, MAX_REQUEST_ID} && s1.pending == map[1 := MAX_REQUEST_ID] && s1.nextRequestId == 2;
    var s2 := Step(s1, Timeout(0));
    assert s2.timers == {MAX_REQUEST_ID} && s2.pending == map[];
    var s3 := Step(s2, Timeout(MAX_REQUEST_ID));
    assert s3.timers == {} && s3 == OneLost();
    ThreeActs(s0, Call(false), Timeout(0), Timeout(MAX_REQUEST_ID));
  }

  /** From the very start: one call stays pending while 2^32 - 2 more fail to be sent, and the one after them takes
      its id. Then both timers go off, and the last call is never settled. */
  lemma ReuseHappens() returns (acts: seq<Act>)
    ensures IsRun(EMPTY, acts) && Reuses(EMPTY, acts) == 1
    ensures After(EMPTY, acts) == OneLost() && MAX_REQUEST_ID !in OneLost().settled
  {
    hide Step, OneWaits, IdOf, OneLost;
    var n := MAX_REQUEST_ID - 1;
    FirstWaits();
    FailOften(0, n);
    LastIsLost();
    OneLostCounts();
    var tail := [Call(false), Timeout(0), Timeout(MAX_REQUEST_ID)];
    RunAppend(OneWaits(0), Failing(n), tail);
    acts := [Call(false)] + (Failing(n) + tail);
    assert acts[1..] == Failing(n) + tail;
    LostExactlyByReuse(acts);
  }

  lemma OneLostCounts()
    ensures |OneLost().settled| == OneLost().calls - 1 && OneLost().pending == map[] && MAX_REQUEST_ID !in OneLost().settled
  {
    FailuresSize(MAX_REQUEST_ID - 1);
    PutCount(Failures(MAX_REQUEST_ID - 1), 0, TimedOut);
  }

  // ---------- The object ----------

  class PendingTable {
    var pending: map<nat, nat>
    var timers: set<nat>
    var nextRequestId: nat
    var calls: nat
    var settled: map<nat, Outcome>

    ghost function View(): State
      reads this
    {
      State(pending, timers, nextRequestId, calls, settled)
    }

    constructor ()
      ensures View() == EMPTY
    {
      pending, timers, nextRequestId, calls, settled := map[], {}, 1, 0, map[];
    }

    method AllocateRequestId() returns (id: nat)
      modifies this`nextRequestId
      ensures id == old(nextRequestId) && nextRequestId == NextId(id)
    {
      id := nextRequestId;
      nextRequestId := if nextRequestId >= MAX_REQUEST_ID then 1 else nextRequestId + 1;
    }

    method MakeCall(sendThrows: bool) returns (id: nat)
      modifies this
      ensures View() == Request(old(View()), sendThrows) && id == old(nextRequestId)
    {
      id := AllocateRequestId();
      var call := calls;
      calls := calls + 1;
      timers := timers + {call};
      pending := pending[id := call];
      if sendThrows {
        CancelEntry(id);
        settled := settled[call := SendFailed];
      }
    }

    method CancelEntry(id: nat)
      modifies this`timers, this`pending
      ensures View() == Cancel(old(View()), id)
    {
      if id !in pending { return; }
      timers := timers - {pending[id]};
      pending := pending - {id};
    }

    method ResponseArrived(id: nat, origin: nat, answer: int)
      modifies this
      ensures View() == Resolve(old(View()), id, origin, answer)
    {
      if id !in pending { return; }
      var call := pending[id];
      CancelEntry(id);
      settled := settled[call := Answered(origin, answer)];
    }

    method TimerFired(call: nat)
      modifies this
      ensures View() == TimerFires(old(View()), call)
    {
      timers := timers - {call};
      if IdOf(call) in pending {
        pending := pending - {IdOf(call)};
        settled := settled[call := TimedOut];
      }
    }

    method RejectEverything(code: nat)
      modifies this
      ensures View() == RejectAll(old(View()), code)
    {
      hide Verdicts;
      var todo := pending.Values;
      ghost var all := todo;
      NoneYet(settled, timers, all, code);
      while todo != {}
        invariant pending == old(pending) && nextRequestId == old(nextRequestId) && calls == old(calls)
        invariant todo <= all
        invariant timers == old(timers) - (all - todo)
        invariant settled == old(settled) + Verdicts(all - todo, code)
        decreases |todo|
      {
        var call :| call in todo;
        OneMore(old(settled), old(timers), all, todo, call, code);
        todo := todo - {call};
        timers := timers - {call};
        settled := settled[call := Rejected(code)];
      }
      assert all - todo == all;
      pending := map[];
    }
  }
}
