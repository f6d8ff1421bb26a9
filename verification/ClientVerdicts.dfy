/** Which verdict each waiter of a client gets, and from what; which calls are sent and which events emitted
    (src/sdk/client.ts). All of it is told from the client before the act. */
module ClientVerdicts {
  import opened Bytes
  import opened ClientQueue

  // ---------- The cause of a verdict ----------

  predicate Queued(q: seq<QueuedCall>, w: nat) {
    exists i :: 0 <= i < |q| && w in q[i].waiters
  }

  predicate Posted(q: seq<QueuedEvent>, w: nat) {
    exists i :: 0 <= i < |q| && q[i].waiter == w
  }

  predicate HasKey(q: seq<QueuedCall>, key: Option<string>) {
    key.Some? && exists i :: 0 <= i < |q| && q[i].coalesceKey == key
  }

  predicate QueuedUnder(q: seq<QueuedCall>, key: Option<string>, w: nat) {
    exists i :: 0 <= i < |q| && q[i].coalesceKey == key && w in q[i].waiters
  }

  /** The client can send once this act has changed its state. */
  predicate SendsAfter(c: Client, a: Act) {
    c.endpoint &&
    match a
    case EndpointReady(_) => if c.firstReady then c.state == Ready else c.state != Closed
    case Connected(_) => c.state != Closed
    case _ => c.state == Ready
  }

  /** A queued call goes when nothing is in flight; if the endpoint throws, its waiters hear what. */
  function AtFlush(c: Client, a: Act, fault: Option<nat>, w: nat): Option<Verdict> {
    if SendsAfter(c, a) && c.inFlight == None && fault.Some? && Queued(c.callQueue, w) then Some(Failed(fault.value)) else None
  }

  /** A posted event is emitted, or the endpoint throws. */
  function AtEmission(c: Client, a: Act, fault: Option<nat>, w: nat): Option<Verdict> {
    if SendsAfter(c, a) && Posted(c.eventOutbox, w)
    then Some(if fault.Some? then Failed(fault.value) else Resolved(None))
    else None
  }

  function Either(a: Option<Verdict>, b: Option<Verdict>): Option<Verdict> {
    if a.Some? then a else b
  }

  function AtDrain(c: Client, code: nat, w: nat): Option<Verdict> {
    if Queued(c.callQueue, w) || Posted(c.eventOutbox, w) then Some(Failed(code)) else None
  }

  function IsFull(size: nat, limit: Limit): bool {
    size >= limit.maxSize
  }

  /** A new call: what becomes of its own waiter, and of those it supersedes or pushes out. */
  function AtQueueCall(c: Client, cfg: Config, call: Call, fault: Option<nat>, w: nat): Option<Verdict> {
    var sends := c.endpoint && c.state == Ready && c.inFlight == None && fault.Some?;
    var gone := if sends then Some(Failed(fault.value)) else None;
    if c.state == Closed then (if w == c.issued then Some(Failed(0x1E)) else None)
    else if HasKey(c.callQueue, call.coalesceKey) then
      if QueuedUnder(c.callQueue, call.coalesceKey, w) && call.previous == DropPrevious then Some(Resolved(None))
      else if QueuedUnder(c.callQueue, call.coalesceKey, w) && call.previous == RejectPrevious then Some(Failed(0x04))
      else if w == c.issued || Queued(c.callQueue, w) then gone
      else None
    else if IsFull(|c.callQueue|, cfg.calls) && cfg.calls.overflow == Refuse then
      (if w == c.issued then Some(Failed(0x04)) else None)
    else if IsFull(|c.callQueue|, cfg.calls) && cfg.calls.overflow == DropNewest then
      (if w == c.issued then Some(Resolved(None)) else None)
    else if IsFull(|c.callQueue|, cfg.calls) && c.callQueue != [] && w in c.callQueue[0].waiters then Some(Resolved(None))
    else if w == c.issued || Queued(c.callQueue, w) then gone
    else None
  }

  /** A new event: the same for the outbox. */
  function AtQueueEvent(c: Client, cfg: Config, fault: Option<nat>, w: nat): Option<Verdict> {
    var gone := if c.endpoint && c.state == Ready then Some(if fault.Some? then Failed(fault.value) else Resolved(None)) else None;
    if c.state == Closed then (if w == c.issued then Some(Failed(0x1E)) else None)
    else if !cfg.queueEvents && !(c.endpoint && c.state == Ready) then
      (if w == c.issued then Some(Failed(if c.state == Reconnecting then 0x1E else 0x04)) else None)
    else if IsFull(|c.eventOutbox|, cfg.events) && cfg.events.overflow == Refuse then
      (if w == c.issued then Some(Failed(0x04)) else None)
    else if IsFull(|c.eventOutbox|, cfg.events) && cfg.events.overflow == DropNewest then
      (if w == c.issued then Some(Resolved(None)) else None)
    else if IsFull(|c.eventOutbox|, cfg.events) && c.eventOutbox != [] && w == c.eventOutbox[0].waiter then Some(Resolved(None))
    else if w == c.issued || Posted(c.eventOutbox, w) then gone
    else None
  }

  /** The verdict that an act gives a waiter. */
  function Outcome(c: Client, cfg: Config, a: Act, w: nat): Option<Verdict> {
    match a
    case CallEnds(v, fault) =>
      if c.inFlight.Some? && w in c.inFlight.value.waiters then Some(v)
      else AtFlush(c.(inFlight := None), a, fault, w)
    case EndpointReady(fault) => Either(AtEmission(c, a, fault, w), AtFlush(c, a, fault, w))
    case Connected(fault) => Either(AtEmission(c, a, fault, w), AtFlush(c, a, fault, w))
    case CloseNow => AtDrain(c, 0x1E, w)
    case ReconnectFailed => AtDrain(c, 0x1E, w)
    case FatalHandshake(current, code) => if current && c.state != Closed then AtDrain(c, code, w) else None
    case HandshakeTimedOut(current, endpointReady) =>
      if current && !endpointReady && c.state != Closed && !c.coordinator then AtDrain(c, 0x06, w) else None
    case QueueCall(call, fault) => AtQueueCall(c, cfg, call, fault, w)
    case QueueEvent(_, _, fault) => AtQueueEvent(c, cfg, fault, w)
    case _ => None
  }

  // ---------- Sets of waiters ----------

  function CallWaiters(q: seq<QueuedCall>): set<nat> {
    set i, w | 0 <= i < |q| && w in q[i].waiters :: w
  }

  function EventWaiters(q: seq<QueuedEvent>): set<nat> {
    set i | 0 <= i < |q| :: q[i].waiter
  }

  function AsSet(ws: seq<nat>): set<nat> {
    set w | w in ws
  }

  function Overlay(settled: map<nat, Verdict>, ws: set<nat>, v: Verdict): map<nat, Verdict> {
    settled + map w | w in ws :: v
  }

  lemma QueuedIs(q: seq<QueuedCall>, w: nat)
    ensures w in CallWaiters(q) <==> Queued(q, w)
  {}

  lemma PostedIs(q: seq<QueuedEvent>, w: nat)
    ensures w in EventWaiters(q) <==> Posted(q, w)
  {}

  lemma FirstCall(q: seq<QueuedCall>)
    requires q != []
    ensures CallWaiters(q) == AsSet(q[0].waiters) + CallWaiters(q[1..])
  {
    forall w | w in CallWaiters(q) ensures w in q[0].waiters || w in CallWaiters(q[1..]) {
      var i :| 0 <= i < |q| && w in q[i].waiters;
      if i > 0 { assert w in q[1..][i - 1].waiters; }
    }
    forall w | w in CallWaiters(q[1..]) ensures w in CallWaiters(q) {
      var i :| 0 <= i < |q[1..]| && w in q[1..][i].waiters;
      assert w in q[i + 1].waiters;
    }
  }

  lemma FirstEvent(q: seq<QueuedEvent>)
    requires q != []
    ensures EventWaiters(q) == {q[0].waiter} + EventWaiters(q[1..])
  {
    forall w | w in EventWaiters(q) ensures w == q[0].waiter || w in EventWaiters(q[1..]) {
      var i :| 0 <= i < |q| && q[i].waiter == w;
      if i > 0 { assert q[1..][i - 1].waiter == w; }
    }
    forall w | w in EventWaiters(q[1..]) ensures w in EventWaiters(q) {
      var i :| 0 <= i < |q[1..]| && q[1..][i].waiter == w;
      assert q[i + 1].waiter == w;
    }
  }

  lemma OverlayNone(settled: map<nat, Verdict>, v: Verdict)
    ensures Overlay(settled, {}, v) == settled
  {}

  lemma OverlayTwice(settled: map<nat, Verdict>, a: set<nat>, b: set<nat>, v: Verdict)
    ensures Overlay(Overlay(settled, a, v), b, v) == Overlay(settled, a + b, v)
  {}

  lemma SettleIs(c: Client, ws: seq<nat>, v: Verdict)
    ensures Settle(c, ws, v) == c.(settled := Overlay(c.settled, AsSet(ws), v))
  {
    assert Verdicts(ws, v) == map w | w in AsSet(ws) :: v;
  }

  lemma SettleOne(c: Client, w: nat, v: Verdict)
    ensures Settle(c, [w], v) == c.(settled := Overlay(c.settled, {w}, v))
  {
    SettleIs(c, [w], v);
    assert AsSet([w]) == {w};
  }

  // ---------- What flushing and draining settle ----------

  lemma {:induction false} FaultyFlush(c: Client, fault: nat)
    requires CanSend(c) && c.inFlight == None
    ensures Flush(c, Some(fault)) ==
      c.(callQueue := [], settled := Overlay(c.settled, CallWaiters(c.callQueue), Failed(fault)))
    decreases |c.callQueue|
  {
    hide Settle, CallWaiters, Overlay;
    if c.callQueue == [] {
      assert CallWaiters([]) == {} by { NoCalls(); }
      OverlayNone(c.settled, Failed(fault));
    } else {
      var rest := c.(callQueue := c.callQueue[1..]);
      SettleIs(rest, c.callQueue[0].waiters, Failed(fault));
      FaultyFlush(Settle(rest, c.callQueue[0].waiters, Failed(fault)), fault);
      FirstCall(c.callQueue);
      OverlayTwice(c.settled, AsSet(c.callQueue[0].waiters), CallWaiters(c.callQueue[1..]), Failed(fault));
    }
  }

  lemma NoCalls()
    ensures CallWaiters([]) == {}
  {}

  lemma NoEvents()
    ensures EventWaiters([]) == {}
  {}

  /** What a flush does, in one step. */
  lemma FlushIs(c: Client, fault: Option<nat>)
    ensures Flush(c, fault) ==
      if !CanSend(c) || c.inFlight.Some? || c.callQueue == [] then c
      else if fault.Some? then c.(callQueue := [], settled := Overlay(c.settled, CallWaiters(c.callQueue), Failed(fault.value)))
      else c.(callQueue := c.callQueue[1..], inFlight := Some(c.callQueue[0]), sent := c.sent + SentOf(c.callQueue[..1]))
  {
    hide CallWaiters, Overlay, Settle;
    if fault.Some? && CanSend(c) && c.inFlight == None { FaultyFlush(c, fault.value); }
  }

  function EmittedOf(q: seq<QueuedEvent>): (r: seq<(string, int)>)
    ensures |r| == |q|
  {
    seq(|q|, i requires 0 <= i < |q| => (q[i].event, q[i].payload))
  }

  function EmissionVerdict(fault: Option<nat>): Verdict {
    if fault.Some? then Failed(fault.value) else Resolved(None)
  }

  lemma {:induction false} FlushOutboxIs(c: Client, fault: Option<nat>)
    ensures FlushOutbox(c, fault) ==
      if !CanSend(c) then c
      else c.(eventOutbox := [], emitted := c.emitted + (if fault.Some? then [] else EmittedOf(c.eventOutbox)),
              settled := Overlay(c.settled, EventWaiters(c.eventOutbox), EmissionVerdict(fault)))
    decreases |c.eventOutbox|
  {
    hide Settle, EventWaiters, Overlay;
    if CanSend(c) {
      var v := EmissionVerdict(fault);
      if c.eventOutbox == [] {
        NoEvents();
        OverlayNone(c.settled, v);
        assert c.emitted + [] == c.emitted && EmittedOf([]) == [];
      } else {
        var item := c.eventOutbox[0];
        var rest := c.(eventOutbox := c.eventOutbox[1..]);
        var next := if fault.Some? then rest else rest.(emitted := c.emitted + [(item.event, item.payload)]);
        SettleOne(next, item.waiter, v);
        FlushOutboxIs(Settle(next, [item.waiter], v), fault);
        FirstEvent(c.eventOutbox);
        OverlayTwice(c.settled, {item.waiter}, EventWaiters(c.eventOutbox[1..]), v);
        assert EmittedOf(c.eventOutbox) == [(item.event, item.payload)] + EmittedOf(c.eventOutbox[1..]);
        assert c.emitted + [(item.event, item.payload)] + EmittedOf(c.eventOutbox[1..]) == c.emitted + EmittedOf(c.eventOutbox);
      }
    }
  }

  lemma {:induction false} RejectCallsIs(c: Client, code: nat)
    ensures RejectCalls(c, code) == c.(callQueue := [], settled := Overlay(c.settled, CallWaiters(c.callQueue), Failed(code)))
    decreases |c.callQueue|
  {
    hide Settle, CallWaiters, Overlay;
    if c.callQueue == [] {
      NoCalls();
      OverlayNone(c.settled, Failed(code));
    } else {
      var rest := c.(callQueue := c.callQueue[1..]);
      SettleIs(rest, c.callQueue[0].waiters, Failed(code));
      RejectCallsIs(Settle(rest, c.callQueue[0].waiters, Failed(code)), code);
      FirstCall(c.callQueue);
      OverlayTwice(c.settled, AsSet(c.callQueue[0].waiters), CallWaiters(c.callQueue[1..]), Failed(code));
    }
  }

  lemma {:induction false} RejectEventsIs(c: Client, code: nat)
    ensures RejectEvents(c, code) == c.(eventOutbox := [], settled := Overlay(c.settled, EventWaiters(c.eventOutbox), Failed(code)))
    decreases |c.eventOutbox|
  {
    hide Settle, EventWaiters, Overlay;
    if c.eventOutbox == [] {
      NoEvents();
      OverlayNone(c.settled, Failed(code));
    } else {
      var rest := c.(eventOutbox := c.eventOutbox[1..]);
      SettleOne(rest, c.eventOutbox[0].waiter, Failed(code));
      RejectEventsIs(Settle(rest, [c.eventOutbox[0].waiter], Failed(code)), code);
      FirstEvent(c.eventOutbox);
      OverlayTwice(c.settled, {c.eventOutbox[0].waiter}, EventWaiters(c.eventOutbox[1..]), Failed(code));
    }
  }

  lemma DrainIs(c: Client, code: nat)
    ensures Drain(c, code) == c.(callQueue := [], eventOutbox := [],
      settled := Overlay(c.settled, CallWaiters(c.callQueue) + EventWaiters(c.eventOutbox), Failed(code)))
  {
    hide RejectCalls, RejectEvents, CallWaiters, EventWaiters, Overlay;
    RejectCallsIs(c, code);
    RejectEventsIs(RejectCalls(c, code), code);
    OverlayTwice(c.settled, CallWaiters(c.callQueue), EventWaiters(c.eventOutbox), Failed(code));
  }

  // ---------- A waiter is in one place ----------

  lemma {:induction false} InQueueCounts(q: seq<QueuedCall>, i: nat, w: nat)
    requires i < |q| && w in q[i].waiters
    ensures InQueue(q)[w] >= multiset(q[i].waiters)[w] > 0
  {
    if i > 0 { InQueueCounts(q[1..], i - 1, w); }
  }

  lemma {:induction false} InQueueTwice(q: seq<QueuedCall>, i: nat, j: nat, w: nat)
    requires i < j < |q| && w in q[i].waiters && w in q[j].waiters
    ensures InQueue(q)[w] >= 2
  {
    if i > 0 {
      InQueueTwice(q[1..], i - 1, j - 1, w);
    } else {
      InQueueCounts(q[1..], j - 1, w);
      assert multiset(q[0].waiters)[w] > 0;
    }
  }

  lemma {:induction false} InOutboxCounts(q: seq<QueuedEvent>, i: nat)
    requires i < |q|
    ensures InOutbox(q)[q[i].waiter] > 0
  {
    if i > 0 { InOutboxCounts(q[1..], i - 1); }
  }

  lemma {:induction false} InOutboxTwice(q: seq<QueuedEvent>, i: nat, j: nat)
    requires i < j < |q| && q[i].waiter == q[j].waiter
    ensures InOutbox(q)[q[i].waiter] >= 2
  {
    if i > 0 { InOutboxTwice(q[1..], i - 1, j - 1); } else { InOutboxCounts(q[1..], j - 1); }
  }

  predicate Carried(c: Client, w: nat) {
    c.inFlight.Some? && w in c.inFlight.value.waiters
  }

  /** Where a waiter is, it is issued, and nowhere else. */
  lemma OnePlace(c: Client, w: nat)
    requires Balanced(c, multiset{})
    ensures Queued(c.callQueue, w) ==> w < c.issued && w !in c.settled && !Carried(c, w) && !Posted(c.eventOutbox, w)
    ensures Posted(c.eventOutbox, w) ==> w < c.issued && w !in c.settled && !Carried(c, w)
    ensures Carried(c, w) ==> w < c.issued && w !in c.settled
    ensures w in c.settled ==> w < c.issued
    ensures forall i, j :: 0 <= i < j < |c.callQueue| && w in c.callQueue[i].waiters ==> w !in c.callQueue[j].waiters
    ensures forall i, j :: 0 <= i < j < |c.eventOutbox| && c.eventOutbox[i].waiter == w ==> c.eventOutbox[j].waiter != w
  {
    hide Balanced;
    CountIs(c, w);
    if i, j :| 0 <= i < j < |c.eventOutbox| && c.eventOutbox[i].waiter == w == c.eventOutbox[j].waiter {
      InOutboxTwice(c.eventOutbox, i, j);
    }
    if i :| 0 <= i < |c.callQueue| && w in c.callQueue[i].waiters { InQueueCounts(c.callQueue, i, w); }
    if i :| 0 <= i < |c.eventOutbox| && c.eventOutbox[i].waiter == w { InOutboxCounts(c.eventOutbox, i); }
    if i, j :| 0 <= i < j < |c.callQueue| && w in c.callQueue[i].waiters && w in c.callQueue[j].waiters {
      InQueueTwice(c.callQueue, i, j, w);
    }
  }

  // ---------- Every act ----------

  /** The verdict of a waiter, if it has one. */
  function VerdictOf(c: Client, w: nat): Option<Verdict> {
    if w in c.settled then Some(c.settled[w]) else None
  }

  lemma EndingOutcome(c: Client, cfg: Config, v: Verdict, fault: Option<nat>, w: nat)
    requires Balanced(c, multiset{}) && c.inFlight.Some? && w !in c.settled
    ensures VerdictOf(Step(c, cfg, CallEnds(v, fault)), w) == Outcome(c, cfg, CallEnds(v, fault), w)
  {
    hide Balanced, Settle, Flush, CallWaiters, Queued;
    var c0 := c.(inFlight := None);
    SettleIs(c0, c.inFlight.value.waiters, v);
    FlushIs(Settle(c0, c.inFlight.value.waiters, v), fault);
    OnePlace(c, w);
    QueuedIs(c.callQueue, w);
    if c.callQueue == [] { assert !Queued([], w) by { NobodyQueued(w); } }
  }

  lemma NobodyQueued(w: nat)
    ensures !Queued([], w) && !Posted([], w)
  {}

  /** The acts that flush both queues. */
  lemma FlushBothOutcome(c: Client, c1: Client, fault: Option<nat>, w: nat, sends: bool)
    requires Balanced(c, multiset{}) && w !in c.settled
    requires c1 == c.(state := c1.state, firstReady := c1.firstReady) && sends == CanSend(c1)
    ensures VerdictOf(FlushBoth(c1, fault), w) ==
      Either(if sends && Posted(c.eventOutbox, w) then Some(EmissionVerdict(fault)) else None,
             if sends && c.inFlight == None && fault.Some? && Queued(c.callQueue, w) then Some(Failed(fault.value)) else None)
  {
    hide Balanced, Flush, FlushOutbox, CallWaiters, EventWaiters, Queued, Posted;
    FlushOutboxIs(c1, fault);
    FlushIs(FlushOutbox(c1, fault), fault);
    OnePlace(c, w);
    QueuedIs(c.callQueue, w);
    PostedIs(c.eventOutbox, w);
    if c.callQueue == [] { NobodyQueued(w); }
  }

  lemma DrainOutcome(c: Client, c': Client, code: nat, w: nat)
    requires w !in c.settled
    requires c'.settled == Overlay(c.settled, CallWaiters(c.callQueue) + EventWaiters(c.eventOutbox), Failed(code))
    ensures VerdictOf(c', w) == AtDrain(c, code, w)
  {
    hide Queued, Posted, CallWaiters, EventWaiters;
    QueuedIs(c.callQueue, w);
    PostedIs(c.eventOutbox, w);
  }

  lemma GivenUpIs(c: Client, cfg: Config)
    ensures Step(c, cfg, ReconnectFailed).settled ==
            Overlay(c.settled, CallWaiters(c.callQueue) + EventWaiters(c.eventOutbox), Failed(0x1E))
  {
    hide RejectCalls, RejectEvents, CallWaiters, EventWaiters, Overlay;
    RejectCallsIs(c, 0x1E);
    RejectEventsIs(SetState(RejectCalls(c, 0x1E), Closed), 0x1E);
    OverlayTwice(c.settled, CallWaiters(c.callQueue), EventWaiters(c.eventOutbox), Failed(0x1E));
  }

  lemma {:induction false} FindIs(q: seq<QueuedCall>, key: string)
    ensures Find(q, key) < |q| <==> HasKey(q, Some(key))
  {}

  lemma FlushTells(c: Client, fault: Option<nat>, w: nat)
    ensures VerdictOf(Flush(c, fault), w) ==
      if CanSend(c) && c.inFlight == None && fault.Some? && Queued(c.callQueue, w) then Some(Failed(fault.value))
      else VerdictOf(c, w)
  {
    hide Flush, CallWaiters, Queued;
    FlushIs(c, fault);
    QueuedIs(c.callQueue, w);
    if c.callQueue == [] { NobodyQueued(w); }
  }

  lemma CoalesceTells(c: Client, at: nat, call: Call, waiter: nat, w: nat)
    requires at < |c.callQueue| && w !in c.settled
    ensures VerdictOf(Coalesce(c, at, call, waiter), w) ==
      if w !in c.callQueue[at].waiters || call.previous == ResolveWithNext then None
      else Some(if call.previous == DropPrevious then Resolved(None) else Failed(0x04))
    ensures Coalesce(c, at, call, waiter).callQueue == c.callQueue[at := Superseding(c.callQueue[at], call, waiter)]
    ensures CanSend(Coalesce(c, at, call, waiter)) == CanSend(c) && Coalesce(c, at, call, waiter).inFlight == c.inFlight
  {
    hide Settle;
    SettleIs(c, c.callQueue[at].waiters, Resolved(None));
    SettleIs(c, c.callQueue[at].waiters, Failed(INVALID_STATE));
  }

  /** A call under a key that is queued already. */
  lemma CoalesceOutcome(c: Client, cfg: Config, call: Call, fault: Option<nat>, w: nat)
    requires Balanced(c, multiset{}) && Bounded(c, cfg) && c.state != Closed && w !in c.settled
    requires HasKey(c.callQueue, call.coalesceKey)
    ensures VerdictOf(EnqueueCall(c, cfg, call, fault), w) == AtQueueCall(c, cfg, call, fault, w)
  {
    hide Balanced, Bounded, Coalesce, Flush, Append, Find, QueuedUnder, Queued;
    var key := call.coalesceKey.value;
    FindIs(c.callQueue, key);
    var at := Find(c.callQueue, key);
    var c1 := c.(issued := c.issued + 1);
    OnePlace(c, w);
    UnderKey(c, cfg, call.coalesceKey, at, w);
    CoalesceTells(c1, at, call, c.issued, w);
    FlushTells(Coalesce(c1, at, call, c.issued), fault, w);
    SupersededQueued(c.callQueue, at, Superseding(c.callQueue[at], call, c.issued), w);
    QueuedAt(c.callQueue, at, w);
  }

  lemma QueuedAt(q: seq<QueuedCall>, i: nat, w: nat)
    requires i < |q|
    ensures w in q[i].waiters ==> Queued(q, w)
  {}

  lemma UnderKey(c: Client, cfg: Config, key: Option<string>, at: nat, w: nat)
    requires Bounded(c, cfg) && key.Some? && at < |c.callQueue| && c.callQueue[at].coalesceKey == key
    ensures QueuedUnder(c.callQueue, key, w) <==> w in c.callQueue[at].waiters
  {
    if i :| 0 <= i < |c.callQueue| && c.callQueue[i].coalesceKey == key && w in c.callQueue[i].waiters {
      assert i == at;
    }
  }

  lemma SupersededQueued(q: seq<QueuedCall>, at: nat, item: QueuedCall, w: nat)
    requires at < |q|
    requires forall i, j :: 0 <= i < j < |q| && w in q[i].waiters ==> w !in q[j].waiters
    ensures Queued(q[at := item], w) <==> w in item.waiters || (Queued(q, w) && w !in q[at].waiters)
  {
    var r := q[at := item];
    if w in item.waiters { assert w in r[at].waiters; }
    if i :| 0 <= i < |q| && w in q[i].waiters && i != at { assert w in r[i].waiters; }
    if i :| 0 <= i < |r| && w in r[i].waiters && i != at {
      assert w in q[i].waiters;
      assert i < at ==> w !in q[at].waiters;
      assert at < i ==> w !in q[at].waiters;
    }
  }

  lemma AppendedQueued(q: seq<QueuedCall>, item: QueuedCall, w: nat)
    ensures Queued(q + [item], w) <==> Queued(q, w) || w in item.waiters
  {
    var r := q + [item];
    if w in item.waiters { assert w in r[|q|].waiters; }
    if i :| 0 <= i < |q| && w in q[i].waiters { assert w in r[i].waiters; }
    if i :| 0 <= i < |r| && w in r[i].waiters && i < |q| { assert w in q[i].waiters; }
  }

  lemma TailQueued(q: seq<QueuedCall>, w: nat)
    requires q != [] && forall i, j :: 0 <= i < j < |q| && w in q[i].waiters ==> w !in q[j].waiters
    ensures Queued(q[1..], w) <==> Queued(q, w) && w !in q[0].waiters
  {
    if i :| 0 <= i < |q[1..]| && w in q[1..][i].waiters { assert w in q[i + 1].waiters; }
    if i :| 0 <= i < |q| && w in q[i].waiters && i > 0 { assert w in q[1..][i - 1].waiters; }
  }

  predicate PushesOut(c: Client, cfg: Config, w: nat) {
    IsFull(|c.callQueue|, cfg.calls) && c.callQueue != [] && w in c.callQueue[0].waiters
  }

  lemma AppendTells(c: Client, cfg: Config, call: Call, waiter: nat, w: nat)
    requires w !in c.settled
    ensures var c' := Append(c, cfg, call, waiter); var full := IsFull(|c.callQueue|, cfg.calls);
      && CanSend(c') == CanSend(c) && c'.inFlight == c.inFlight
      && VerdictOf(c', w) ==
           if full && cfg.calls.overflow != DropOldest then
             if w != waiter then None else Some(if cfg.calls.overflow == Refuse then Failed(0x04) else Resolved(None))
           else if PushesOut(c, cfg, w) then Some(Resolved(None))
           else None
  {
    hide Settle;
    var item := NewItem(call, waiter);
    SettleOne(c, waiter, Failed(INVALID_STATE));
    SettleOne(c, waiter, Resolved(None));
    if c.callQueue != [] { SettleIs(c.(callQueue := c.callQueue[1..] + [item]), c.callQueue[0].waiters, Resolved(None)); }
  }

  lemma AppendQueues(c: Client, cfg: Config, call: Call, waiter: nat, w: nat)
    requires !(IsFull(|c.callQueue|, cfg.calls) && cfg.calls.overflow != DropOldest)
    requires forall i, j :: 0 <= i < j < |c.callQueue| && w in c.callQueue[i].waiters ==> w !in c.callQueue[j].waiters
    ensures Queued(Append(c, cfg, call, waiter).callQueue, w) <==>
      w == waiter || (Queued(c.callQueue, w) && !PushesOut(c, cfg, w))
  {
    hide Settle, Queued;
    var item := NewItem(call, waiter);
    AppendedQueued(c.callQueue, item, w);
    if c.callQueue != [] {
      SettleFields(c.(callQueue := c.callQueue[1..] + [item]), c.callQueue[0].waiters, Resolved(None));
      TailQueued(c.callQueue, w);
      AppendedQueued(c.callQueue[1..], item, w);
    } else {
      assert [] + [item] == [item];
    }
  }

  /** A call that finds no key of its own in the queue. */
  lemma AppendOutcome(c: Client, cfg: Config, call: Call, fault: Option<nat>, w: nat)
    requires Balanced(c, multiset{}) && c.state != Closed && w !in c.settled
    requires !HasKey(c.callQueue, call.coalesceKey)
    ensures VerdictOf(EnqueueCall(c, cfg, call, fault), w) == AtQueueCall(c, cfg, call, fault, w)
  {
    hide Balanced, Append, Flush, Coalesce, Find, QueuedUnder, Queued;
    if call.coalesceKey.Some? { FindIs(c.callQueue, call.coalesceKey.value); }
    var c1 := c.(issued := c.issued + 1);
    OnePlace(c, w);
    AppendTells(c1, cfg, call, c.issued, w);
    if !(IsFull(|c.callQueue|, cfg.calls) && cfg.calls.overflow != DropOldest) { AppendQueues(c1, cfg, call, c.issued, w); }
    FlushTells(Append(c1, cfg, call, c.issued), fault, w);
    if c.callQueue != [] { QueuedAt(c.callQueue, 0, w); }
  }

  lemma FlushOutboxTells(c: Client, fault: Option<nat>, w: nat)
    ensures VerdictOf(FlushOutbox(c, fault), w) ==
      if CanSend(c) && Posted(c.eventOutbox, w) then Some(EmissionVerdict(fault)) else VerdictOf(c, w)
  {
    hide FlushOutbox, EventWaiters, Posted;
    FlushOutboxIs(c, fault);
    PostedIs(c.eventOutbox, w);
  }

  predicate PushesEventOut(c: Client, cfg: Config, w: nat) {
    IsFull(|c.eventOutbox|, cfg.events) && c.eventOutbox != [] && w == c.eventOutbox[0].waiter
  }

  lemma AppendEventTells(c: Client, cfg: Config, item: QueuedEvent, w: nat)
    requires w !in c.settled
    ensures var c' := AppendEvent(c, cfg, item); var full := IsFull(|c.eventOutbox|, cfg.events);
      && CanSend(c') == CanSend(c)
      && VerdictOf(c', w) ==
           if full && cfg.events.overflow != DropOldest then
             if w != item.waiter then None else Some(if cfg.events.overflow == Refuse then Failed(0x04) else Resolved(None))
           else if PushesEventOut(c, cfg, w) then Some(Resolved(None))
           else None
  {
    hide Settle;
    SettleOne(c, item.waiter, Failed(INVALID_STATE));
    SettleOne(c, item.waiter, Resolved(None));
    if c.eventOutbox != [] {
      SettleOne(c.(eventOutbox := c.eventOutbox[1..] + [item]), c.eventOutbox[0].waiter, Resolved(None));
    }
  }

  lemma AppendedPosted(q: seq<QueuedEvent>, item: QueuedEvent, w: nat)
    ensures Posted(q + [item], w) <==> Posted(q, w) || w == item.waiter
  {
    var r := q + [item];
    assert r[|q|] == item;
    if i :| 0 <= i < |q| && q[i].waiter == w { assert r[i].waiter == w; }
    if i :| 0 <= i < |r| && r[i].waiter == w && i < |q| { assert q[i].waiter == w; }
  }

  lemma TailPosted(q: seq<QueuedEvent>, w: nat)
    requires q != [] && forall i, j :: 0 <= i < j < |q| && q[i].waiter == w ==> q[j].waiter != w
    ensures Posted(q[1..], w) <==> Posted(q, w) && w != q[0].waiter
  {
    if i :| 0 <= i < |q[1..]| && q[1..][i].waiter == w { assert q[i + 1].waiter == w; }
    if i :| 0 <= i < |q| && q[i].waiter == w && i > 0 { assert q[1..][i - 1].waiter == w; }
  }

  lemma AppendEventPosts(c: Client, cfg: Config, item: QueuedEvent, w: nat)
    requires !(IsFull(|c.eventOutbox|, cfg.events) && cfg.events.overflow != DropOldest)
    requires forall i, j :: 0 <= i < j < |c.eventOutbox| && c.eventOutbox[i].waiter == w ==> c.eventOutbox[j].waiter != w
    ensures Posted(AppendEvent(c, cfg, item).eventOutbox, w) <==>
      w == item.waiter || (Posted(c.eventOutbox, w) && !PushesEventOut(c, cfg, w))
  {
    hide Settle, Posted;
    AppendedPosted(c.eventOutbox, item, w);
    if c.eventOutbox != [] {
      SettleFields(c.(eventOutbox := c.eventOutbox[1..] + [item]), [c.eventOutbox[0].waiter], Resolved(None));
      TailPosted(c.eventOutbox, w);
      AppendedPosted(c.eventOutbox[1..], item, w);
    } else {
      assert [] + [item] == [item];
    }
  }

  lemma EventOutcome(c: Client, cfg: Config, event: string, payload: int, fault: Option<nat>, w: nat)
    requires Balanced(c, multiset{}) && w !in c.settled
    ensures VerdictOf(EnqueueEvent(c, cfg, event, payload, fault), w) == AtQueueEvent(c, cfg, fault, w)
  {
    hide Balanced, AppendEvent, FlushOutbox, Posted, Settle, Queued;
    var c1 := c.(issued := c.issued + 1);
    var item := QueuedEvent(event, payload, c.issued);
    OnePlace(c, w);
    SettleOne(c1, c.issued, Failed(TRANSPORT_DISCONNECTED));
    SettleOne(c1, c.issued, Failed(INVALID_STATE));
    AppendEventTells(c1, cfg, item, w);
    FlushOutboxTells(AppendEvent(c1, cfg, item), fault, w);
    if !(IsFull(|c.eventOutbox|, cfg.events) && cfg.events.overflow != DropOldest) { AppendEventPosts(c1, cfg, item, w); }
    if c.eventOutbox != [] { FirstPosted(c.eventOutbox); }
  }

  lemma FirstPosted(q: seq<QueuedEvent>)
    requires q != []
    ensures Posted(q, q[0].waiter)
  {}

  /** What an act tells each waiter: those that have no verdict get one exactly as the state before the act and the act
      itself say, and those that have one keep it. */
  lemma StepVerdicts(c: Client, cfg: Config, a: Act, w: nat)
    requires Balanced(c, multiset{}) && Bounded(c, cfg) && Enabled(c, a)
    ensures VerdictOf(Step(c, cfg, a), w) == Either(VerdictOf(c, w), Outcome(c, cfg, a, w))
  {
    hide Balanced, Bounded, Outcome, Step;
    if w in c.settled { StepKeeps(c, cfg, a); } else { UnsettledOutcome(c, cfg, a, w); }
  }

  lemma UnsettledOutcome(c: Client, cfg: Config, a: Act, w: nat)
    requires Balanced(c, multiset{}) && Bounded(c, cfg) && Enabled(c, a) && w !in c.settled
    ensures VerdictOf(Step(c, cfg, a), w) == Outcome(c, cfg, a, w)
  {
    hide Balanced, Bounded, FlushBoth, Drain, RejectCalls, RejectEvents, EnqueueCall, EnqueueEvent, Queued, Posted;
    hide AtDrain, AtQueueCall, AtQueueEvent, Overlay, Finish;
    match a
    case CallEnds(v, fault) => EndingOutcome(c, cfg, v, fault, w);
    case EndpointReady(fault) =>
      FlushBothOutcome(c, if c.firstReady then c.(firstReady := false) else SetState(c, Ready), fault, w, SendsAfter(c, a));
    case Connected(fault) => FlushBothOutcome(c, SetState(c, Ready), fault, w, SendsAfter(c, a));
    case CloseNow =>
      DrainIs(SetState(c, Closed), 0x1E);
      DrainOutcome(c, Step(c, cfg, a), 0x1E, w);
    case ReconnectFailed =>
      GivenUpIs(c, cfg);
      DrainOutcome(c, Step(c, cfg, a), 0x1E, w);
    case FatalHandshake(_, code) =>
      DrainIs(c, code);
      if Drains(c, a) { DrainOutcome(c, Step(c, cfg, a), code, w); }
    case HandshakeTimedOut(_, _) =>
      DrainIs(c, 0x06);
      if Drains(c, a) { DrainOutcome(c, Step(c, cfg, a), 0x06, w); }
    case QueueCall(call, fault) => CallOutcome(c, cfg, call, fault, w);
    case QueueEvent(event, payload, fault) => EventOutcome(c, cfg, event, payload, fault, w);
    case _ =>
  }

  lemma CallOutcome(c: Client, cfg: Config, call: Call, fault: Option<nat>, w: nat)
    requires Balanced(c, multiset{}) && Bounded(c, cfg) && w !in c.settled
    ensures VerdictOf(EnqueueCall(c, cfg, call, fault), w) == AtQueueCall(c, cfg, call, fault, w)
  {
    hide Balanced, Bounded, HasKey;
    if c.state == Closed { SettleOne(c.(issued := c.issued + 1), c.issued, Failed(TRANSPORT_DISCONNECTED)); }
    else if HasKey(c.callQueue, call.coalesceKey) { CoalesceOutcome(c, cfg, call, fault, w); }
    else { AppendOutcome(c, cfg, call, fault, w); }
  }

  /** The first verdict a run gives a waiter. */
  function FirstOutcome(c: Client, cfg: Config, acts: seq<Act>, w: nat): Option<Verdict>
    requires IsRun(c, cfg, acts)
    decreases |acts|
  {
    if acts == [] then None
    else Either(Outcome(c, cfg, acts[0], w), FirstOutcome(Step(c, cfg, acts[0]), cfg, acts[1..], w))
  }

  lemma {:induction false} RunVerdictsFrom(c: Client, cfg: Config, acts: seq<Act>, w: nat)
    requires Balanced(c, multiset{}) && Bounded(c, cfg) && IsRun(c, cfg, acts)
    ensures VerdictOf(After(c, cfg, acts), w) == Either(VerdictOf(c, w), FirstOutcome(c, cfg, acts, w))
    decreases |acts|
  {
    hide Balanced, Bounded, Step, Enabled, Outcome, VerdictOf;
    if acts != [] {
      StepVerdicts(c, cfg, acts[0], w);
      StepKeeps(c, cfg, acts[0]);
      StepBounded(c, cfg, acts[0]);
      RunVerdictsFrom(Step(c, cfg, acts[0]), cfg, acts[1..], w);
    }
  }

  /** Over any run from the start: a waiter's verdict is the first one that an act gave it for a cause of its own: the
      ending of the call in flight that carries it, the emission or the failure of a flush, the code of a drain, or the
      policy that superseded it, pushed it out or turned it away. */
  lemma RunVerdicts(cfg: Config, acts: seq<Act>, w: nat)
    requires IsRun(NEW, cfg, acts)
    ensures VerdictOf(After(NEW, cfg, acts), w) == FirstOutcome(NEW, cfg, acts, w)
  {
    hide Step, Enabled, Outcome, Balanced, Bounded;
    NewIsGood(cfg);
    RunVerdictsFrom(NEW, cfg, acts, w);
  }

  // ---------- What is sent and emitted ----------

  /** An act that flushes, and what the endpoint does to it. */
  function FaultOf(a: Act): Option<nat> {
    match a
    case EndpointReady(fault) => fault
    case Connected(fault) => fault
    case CallEnds(_, fault) => fault
    case QueueCall(_, fault) => fault
    case QueueEvent(_, _, fault) => fault
    case _ => None
  }

  /** A new call that takes no place in the queue. */
  predicate TurnedAway(c: Client, cfg: Config, call: Call) {
    c.state == Closed
    || (!HasKey(c.callQueue, call.coalesceKey) && IsFull(|c.callQueue|, cfg.calls) && cfg.calls.overflow != DropOldest)
  }

  /** The queue with a new call in it: in the place of the call with its key, or at the end, where the first makes room. */
  ghost predicate Arranged(c: Client, cfg: Config, call: Call, q: seq<QueuedCall>) {
    var w := c.issued;
    if HasKey(c.callQueue, call.coalesceKey) then
      exists i :: 0 <= i < |c.callQueue| && c.callQueue[i].coalesceKey == call.coalesceKey
        && q == c.callQueue[i := QueuedCall(call.methodName, call.params, call.timeoutMs, call.coalesceKey,
                                            (if call.previous == ResolveWithNext then c.callQueue[i].waiters else []) + [w])]
    else
      q == (if IsFull(|c.callQueue|, cfg.calls) && c.callQueue != [] then c.callQueue[1..] else c.callQueue)
           + [QueuedCall(call.methodName, call.params, call.timeoutMs, call.coalesceKey, [w])]
  }

  /** The queue that an act leaves to a flush. */
  ghost predicate LeavesQueue(c: Client, cfg: Config, a: Act, q: seq<QueuedCall>) {
    if a.QueueCall? && !TurnedAway(c, cfg, a.call) then Arranged(c, cfg, a.call, q) else q == c.callQueue
  }

  predicate FlushesCalls(c: Client, cfg: Config, a: Act) {
    a.EndpointReady? || a.Connected? || a.CallEnds? || (a.QueueCall? && !TurnedAway(c, cfg, a.call))
  }

  /** What becomes of that queue: the first call is in flight, or the endpoint threw on all of them, or nothing could go. */
  predicate CallsAfter(c: Client, cfg: Config, a: Act, q: seq<QueuedCall>, c': Client) {
    var inFlight := if a.CallEnds? then None else c.inFlight;
    if Drains(c, a) then c'.callQueue == [] && c'.inFlight == inFlight && c'.sent == c.sent
    else if FlushesCalls(c, cfg, a) && SendsAfter(c, a) && inFlight == None && q != [] then
      if FaultOf(a).Some? then c'.callQueue == [] && c'.inFlight == None && c'.sent == c.sent
      else c'.callQueue == q[1..] && c'.inFlight == Some(q[0])
           && c'.sent == c.sent + [Sent(q[0].methodName, q[0].params, q[0].timeoutMs)]
    else c'.callQueue == q && c'.inFlight == inFlight && c'.sent == c.sent
  }

  predicate EventTurnedAway(c: Client, cfg: Config) {
    || c.state == Closed
    || (!cfg.queueEvents && !(c.endpoint && c.state == Ready))
    || (IsFull(|c.eventOutbox|, cfg.events) && cfg.events.overflow != DropOldest)
  }

  /** The outbox that an act leaves to a flush. */
  function OutboxLeft(c: Client, cfg: Config, a: Act): seq<QueuedEvent> {
    if a.QueueEvent? && !EventTurnedAway(c, cfg) then
      (if IsFull(|c.eventOutbox|, cfg.events) && c.eventOutbox != [] then c.eventOutbox[1..] else c.eventOutbox)
      + [QueuedEvent(a.event, a.payload, c.issued)]
    else c.eventOutbox
  }

  predicate FlushesEvents(c: Client, cfg: Config, a: Act) {
    a.EndpointReady? || a.Connected? || (a.QueueEvent? && !EventTurnedAway(c, cfg))
  }

  /** After a flush of events: all are emitted in order, or the endpoint threw on all of them, or none could go. */
  predicate EventsAfter(c: Client, cfg: Config, a: Act, c': Client) {
    var q := OutboxLeft(c, cfg, a);
    if Drains(c, a) then c'.eventOutbox == [] && c'.emitted == c.emitted
    else if FlushesEvents(c, cfg, a) && SendsAfter(c, a) then
      c'.eventOutbox == [] && c'.emitted == c.emitted + if FaultOf(a).Some? then [] else EmittedOf(q)
    else c'.eventOutbox == q && c'.emitted == c.emitted
  }

  /** The state of the connection after an act. */
  function StateAfter(c: Client, a: Act): ClientState {
    if c.state == Closed || Drains(c, a) then Closed
    else
      match a
      case Connect(_) => Connecting
      case OpenFailed => if c.coordinator then Reconnecting else c.state
      case Spawned => if c.state == Ready then Ready else Connecting
      case EndpointReady(_) => if c.firstReady then c.state else Ready
      case Connected(_) => Ready
      case EndpointClosed => if c.coordinator then Reconnecting else if c.firstReady then c.state else Closed
      case _ => c.state
  }

  predicate ConnectionAfter(c: Client, a: Act, c': Client) {
    && c'.state == StateAfter(c, a)
    && c'.coordinator == (if a.Connect? then a.reconnect else c.coordinator)
    && c'.firstReady == (if a.Connect? then true else if a.EndpointReady? then false else c.firstReady)
    && c'.endpoint == (if a.Spawned? && c.state != Closed then true
                       else if a.EndpointClosed? && c.state != Closed then false
                       else c.endpoint)
    && c'.issued == c.issued + if a.QueueCall? || a.QueueEvent? then 1 else 0
  }

  lemma KeyIsSome(q: seq<QueuedCall>, key: Option<string>)
    requires HasKey(q, key)
    ensures key.Some? && Find(q, key.value) < |q|
  {
    FindIs(q, key.value);
  }

  /** The client with the new call in its queue. */
  function Placed(c: Client, cfg: Config, call: Call): Client {
    var c1 := c.(issued := c.issued + 1);
    if HasKey(c.callQueue, call.coalesceKey) then
      KeyIsSome(c.callQueue, call.coalesceKey);
      Coalesce(c1, Find(c.callQueue, call.coalesceKey.value), call, c.issued)
    else Append(c1, cfg, call, c.issued)
  }

  lemma PlacedIs(c: Client, cfg: Config, call: Call)
    requires !TurnedAway(c, cfg, call)
    ensures var c2 := Placed(c, cfg, call);
      Arranged(c, cfg, call, c2.callQueue) && c2 == c.(issued := c.issued + 1, callQueue := c2.callQueue, settled := c2.settled)
  {
    hide Settle, Find, HasKey;
    var c1 := c.(issued := c.issued + 1);
    var item := NewItem(call, c.issued);
    if HasKey(c.callQueue, call.coalesceKey) {
      KeyIsSome(c.callQueue, call.coalesceKey);
      FoundKey(c.callQueue, call.coalesceKey.value);
      var at := Find(c.callQueue, call.coalesceKey.value);
      SettleFields(c1, c.callQueue[at].waiters, Resolved(None));
      SettleFields(c1, c.callQueue[at].waiters, Failed(INVALID_STATE));
      assert [] + [c.issued] == [c.issued];
    } else if c.callQueue != [] {
      SettleFields(c1.(callQueue := c.callQueue[1..] + [item]), c.callQueue[0].waiters, Resolved(None));
    } else {
      assert [] + [item] == [item];
    }
  }

  lemma FoundKey(q: seq<QueuedCall>, key: string)
    ensures Find(q, key) < |q| ==> q[Find(q, key)].coalesceKey == Some(key)
  {}

  predicate Delivers(c: Client, cfg: Config, a: Act, q: seq<QueuedCall>, c': Client) {
    CallsAfter(c, cfg, a, q, c') && EventsAfter(c, cfg, a, c') && ConnectionAfter(c, a, c')
  }

  lemma EnqueueIs(c: Client, cfg: Config, call: Call, fault: Option<nat>)
    requires !TurnedAway(c, cfg, call)
    ensures EnqueueCall(c, cfg, call, fault) == Flush(Placed(c, cfg, call), fault)
  {
    hide Flush, Append, Coalesce, Find, HasKey;
    if call.coalesceKey.Some? { FindIs(c.callQueue, call.coalesceKey.value); }
    if HasKey(c.callQueue, call.coalesceKey) { KeyIsSome(c.callQueue, call.coalesceKey); }
  }

  lemma CallDelivers(c: Client, cfg: Config, call: Call, fault: Option<nat>) returns (q: seq<QueuedCall>)
    ensures var a := QueueCall(call, fault);
      LeavesQueue(c, cfg, a, q) && Delivers(c, cfg, a, q, EnqueueCall(c, cfg, call, fault))
  {
    hide Flush, EnqueueCall, HasKey, Overlay, CallWaiters, Arranged, Placed;
    q := c.callQueue;
    if TurnedAway(c, cfg, call) {
      TurnedAwayIs(c, cfg, call, fault);
    } else {
      PlacedIs(c, cfg, call);
      EnqueueIs(c, cfg, call, fault);
      q := Placed(c, cfg, call).callQueue;
      FlushIs(Placed(c, cfg, call), fault);
      OneSent(q);
    }
  }

  lemma OneSent(q: seq<QueuedCall>)
    ensures q != [] ==> SentOf(q[..1]) == [Sent(q[0].methodName, q[0].params, q[0].timeoutMs)]
  {}

  lemma TurnedAwayIs(c: Client, cfg: Config, call: Call, fault: Option<nat>)
    requires TurnedAway(c, cfg, call)
    ensures var c' := EnqueueCall(c, cfg, call, fault); c' == c.(issued := c.issued + 1, settled := c'.settled)
  {
    hide Flush, Settle, Find, HasKey;
    if call.coalesceKey.Some? { FindIs(c.callQueue, call.coalesceKey.value); }
    SettleFields(c.(issued := c.issued + 1), [c.issued], Failed(TRANSPORT_DISCONNECTED));
    SettleFields(c.(issued := c.issued + 1), [c.issued], Failed(INVALID_STATE));
    SettleFields(c.(issued := c.issued + 1), [c.issued], Resolved(None));
  }

  lemma PostedEventIs(c: Client, cfg: Config, event: string, payload: int, fault: Option<nat>)
    requires !EventTurnedAway(c, cfg)
    ensures var c2 := AppendEvent(c.(issued := c.issued + 1), cfg, QueuedEvent(event, payload, c.issued));
      && c2 == c.(issued := c.issued + 1, eventOutbox := OutboxLeft(c, cfg, QueueEvent(event, payload, fault)), settled := c2.settled)
      && EnqueueEvent(c, cfg, event, payload, fault) == FlushOutbox(c2, fault)
  {
    hide FlushOutbox, Settle;
    var c1 := c.(issued := c.issued + 1);
    var item := QueuedEvent(event, payload, c.issued);
    if c.eventOutbox != [] {
      SettleFields(c1.(eventOutbox := c.eventOutbox[1..] + [item]), [c.eventOutbox[0].waiter], Resolved(None));
    } else {
      assert [] + [item] == [item];
    }
  }

  lemma RefusedEventIs(c: Client, cfg: Config, event: string, payload: int, fault: Option<nat>)
    requires EventTurnedAway(c, cfg)
    ensures var c' := EnqueueEvent(c, cfg, event, payload, fault); c' == c.(issued := c.issued + 1, settled := c'.settled)
  {
    hide FlushOutbox, Settle;
    var c1 := c.(issued := c.issued + 1);
    SettleFields(c1, [c.issued], Failed(TRANSPORT_DISCONNECTED));
    SettleFields(c1, [c.issued], Failed(INVALID_STATE));
    SettleFields(c1, [c.issued], Resolved(None));
  }

  lemma EventDelivers(c: Client, cfg: Config, event: string, payload: int, fault: Option<nat>)
    ensures var a := QueueEvent(event, payload, fault);
      Delivers(c, cfg, a, c.callQueue, EnqueueEvent(c, cfg, event, payload, fault))
  {
    hide FlushOutbox, EnqueueEvent, AppendEvent, Overlay, EventWaiters, EmittedOf;
    if EventTurnedAway(c, cfg) {
      RefusedEventIs(c, cfg, event, payload, fault);
    } else {
      PostedEventIs(c, cfg, event, payload, fault);
      FlushOutboxIs(AppendEvent(c.(issued := c.issued + 1), cfg, QueuedEvent(event, payload, c.issued)), fault);
    }
  }

  lemma FlushBothDelivers(c: Client, cfg: Config, a: Act, c1: Client, fault: Option<nat>)
    requires (a.EndpointReady? || a.Connected?) && fault == FaultOf(a)
    requires c1 == c.(state := StateAfter(c, a), firstReady := if a.EndpointReady? then false else c.firstReady)
    ensures Delivers(c, cfg, a, c.callQueue, FlushBoth(c1, fault))
  {
    hide Flush, FlushOutbox, Overlay, CallWaiters, EventWaiters;
    FlushOutboxIs(c1, fault);
    FlushIs(FlushOutbox(c1, fault), fault);
    OneSent(c.callQueue);
  }

  lemma EndingDelivers(c: Client, cfg: Config, v: Verdict, fault: Option<nat>)
    requires c.inFlight.Some?
    ensures Delivers(c, cfg, CallEnds(v, fault), c.callQueue, Finish(c, v, fault))
  {
    hide Flush, Settle, Overlay, CallWaiters;
    var c1 := Settle(c.(inFlight := None), c.inFlight.value.waiters, v);
    SettleFields(c.(inFlight := None), c.inFlight.value.waiters, v);
    FlushIs(c1, fault);
    OneSent(c.callQueue);
  }

  lemma DrainDelivers(c: Client, cfg: Config, a: Act)
    requires Enabled(c, a) && Drains(c, a)
    ensures Delivers(c, cfg, a, c.callQueue, Step(c, cfg, a))
  {
    hide Drain, RejectCalls, RejectEvents, Overlay, CallWaiters, EventWaiters;
    match a
    case CloseNow => DrainIs(SetState(c, Closed), TRANSPORT_DISCONNECTED);
    case ReconnectFailed =>
      RejectCallsIs(c, TRANSPORT_DISCONNECTED);
      RejectEventsIs(SetState(RejectCalls(c, TRANSPORT_DISCONNECTED), Closed), TRANSPORT_DISCONNECTED);
    case FatalHandshake(_, code) => DrainIs(c, code);
    case HandshakeTimedOut(_, _) => DrainIs(c, HANDSHAKE_TIMEOUT);
  }

  lemma QuietDelivers(c: Client, cfg: Config, a: Act)
    requires Enabled(c, a) && !Drains(c, a)
    requires !a.CallEnds? && !a.EndpointReady? && !a.Connected? && !a.QueueCall? && !a.QueueEvent?
    ensures Delivers(c, cfg, a, c.callQueue, Step(c, cfg, a))
  {
    hide Drain, RejectCalls, RejectEvents, FlushBoth;
  }

  /** The whole of what an act does besides its verdicts: the connection, the queue and the outbox, the call that is
      sent and the events that are emitted. */
  lemma StepDelivers(c: Client, cfg: Config, a: Act) returns (q: seq<QueuedCall>)
    requires Enabled(c, a)
    ensures LeavesQueue(c, cfg, a, q) && Delivers(c, cfg, a, q, Step(c, cfg, a))
  {
    hide FlushBoth, Drain, RejectCalls, RejectEvents, EnqueueCall, EnqueueEvent, Finish, Arranged, Delivers;
    q := c.callQueue;
    if Drains(c, a) {
      DrainDelivers(c, cfg, a);
    } else {
      match a
      case CallEnds(v, fault) => EndingDelivers(c, cfg, v, fault);
      case EndpointReady(fault) =>
        FlushBothDelivers(c, cfg, a, if c.firstReady then c.(firstReady := false) else SetState(c, Ready), fault);
      case Connected(fault) => FlushBothDelivers(c, cfg, a, SetState(c, Ready), fault);
      case QueueCall(call, fault) => q := CallDelivers(c, cfg, call, fault);
      case QueueEvent(event, payload, fault) => EventDelivers(c, cfg, event, payload, fault);
      case _ => QuietDelivers(c, cfg, a);
    }
  }
}
