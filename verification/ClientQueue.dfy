/** Offline delivery of calls and events by the client (src/sdk/client.ts). A waiter is a promise handed out to
    a caller, named by the order in which it was issued. */
module ClientQueue {
  import opened Bytes

  const INVALID_STATE := 0x0004
  const TRANSPORT_DISCONNECTED := 0x001E
  const HANDSHAKE_TIMEOUT := 0x0006

  datatype Verdict = Resolved(value: Option<int>) | Failed(code: nat)

  datatype Overflow = DropOldest | DropNewest | Refuse

  datatype Limit = Limit(maxSize: int, overflow: Overflow)

  /** The delivery options a client is created with. */
  datatype Config = Config(calls: Limit, events: Limit, queueEvents: bool)

  datatype Previous = RejectPrevious | DropPrevious | ResolveWithNext

  datatype Call = Call(methodName: string, params: int, timeoutMs: Option<nat>, coalesceKey: Option<string>, previous: Previous)

  datatype QueuedCall = QueuedCall(methodName: string, params: int, timeoutMs: Option<nat>, coalesceKey: Option<string>, waiters: seq<nat>)

  datatype QueuedEvent = QueuedEvent(event: string, payload: int, waiter: nat)

  datatype Sent = Sent(methodName: string, params: int, timeoutMs: Option<nat>)

  datatype ClientState = Idle | Connecting | Ready | Reconnecting | Closed

  datatype Client = Client(
    state: ClientState,
    endpoint: bool,
    coordinator: bool,
    firstReady: bool,
    callQueue: seq<QueuedCall>,
    inFlight: Option<QueuedCall>,
    eventOutbox: seq<QueuedEvent>,
    sent: seq<Sent>,
    emitted: seq<(string, int)>,
    settled: map<nat, Verdict>,
    issued: nat)

  const NEW := Client(Idle, false, false, true, [], None, [], [], [], map[], 0)

  function SetState(c: Client, s: ClientState): Client {
    if c.state == s || c.state == Closed then c else c.(state := s)
  }

  function Verdicts(ws: seq<nat>, v: Verdict): map<nat, Verdict> {
    map w | w in ws :: v
  }

  function Settle(c: Client, ws: seq<nat>, v: Verdict): Client {
    c.(settled := c.settled + Verdicts(ws, v))
  }

  predicate CanSend(c: Client) {
    c.state == Ready && c.endpoint
  }

  /** flushCallQueue up to its next wait. What the endpoint does with a call made now is a parameter: it takes
      it, or throws. */
  function Flush(c: Client, fault: Option<nat>): Client
    decreases |c.callQueue|
  {
    if c.inFlight.Some? || !CanSend(c) || c.callQueue == [] then c
    else
      var item := c.callQueue[0];
      var rest := c.(callQueue := c.callQueue[1..]);
      if fault.Some? then Flush(Settle(rest, item.waiters, Failed(fault.value)), fault)
      else rest.(inFlight := Some(item), sent := c.sent + [Sent(item.methodName, item.params, item.timeoutMs)])
  }

  /** The call in flight ends, one way or another, and the flush goes on. */
  function Finish(c: Client, v: Verdict, fault: Option<nat>): Client {
    if c.inFlight == None then c
    else Flush(Settle(c.(inFlight := None), c.inFlight.value.waiters, v), fault)
  }

  function FlushOutbox(c: Client, fault: Option<nat>): Client
    decreases |c.eventOutbox|
  {
    if !CanSend(c) || c.eventOutbox == [] then c
    else
      var item := c.eventOutbox[0];
      var rest := c.(eventOutbox := c.eventOutbox[1..]);
      if fault.Some? then FlushOutbox(Settle(rest, [item.waiter], Failed(fault.value)), fault)
      else FlushOutbox(Settle(rest.(emitted := c.emitted + [(item.event, item.payload)]), [item.waiter], Resolved(None)), fault)
  }

  function RejectCalls(c: Client, code: nat): Client
    decreases |c.callQueue|
  {
    if c.callQueue == [] then c
    else RejectCalls(Settle(c.(callQueue := c.callQueue[1..]), c.callQueue[0].waiters, Failed(code)), code)
  }

  function RejectEvents(c: Client, code: nat): Client
    decreases |c.eventOutbox|
  {
    if c.eventOutbox == [] then c
    else RejectEvents(Settle(c.(eventOutbox := c.eventOutbox[1..]), [c.eventOutbox[0].waiter], Failed(code)), code)
  }

  // ---------- Enqueueing ----------

  /** The place of a key in the queue, or its length. */
  function Find(q: seq<QueuedCall>, key: string): (i: nat)
    ensures i <= |q|
    ensures i < |q| ==> q[i].coalesceKey == Some(key)
    ensures forall j :: 0 <= j < i ==> q[j].coalesceKey != Some(key)
  {
    if q == [] then 0
    else if q[0].coalesceKey == Some(key) then 0
    else 1 + Find(q[1..], key)
  }

  function Superseding(existing: QueuedCall, call: Call, waiter: nat): QueuedCall {
    QueuedCall(call.methodName, call.params, call.timeoutMs, existing.coalesceKey,
               if call.previous == ResolveWithNext then existing.waiters + [waiter] else [waiter])
  }

  function Coalesce(c: Client, at: nat, call: Call, waiter: nat): Client
    requires at < |c.callQueue|
  {
    var existing := c.callQueue[at];
    var c1 := match call.previous
      case ResolveWithNext => c
      case DropPrevious => Settle(c, existing.waiters, Resolved(None))
      case RejectPrevious => Settle(c, existing.waiters, Failed(INVALID_STATE));
    c1.(callQueue := c.callQueue[at := Superseding(existing, call, waiter)])
  }

  function NewItem(call: Call, waiter: nat): QueuedCall {
    QueuedCall(call.methodName, call.params, call.timeoutMs, call.coalesceKey, [waiter])
  }

  /** A new item at the end, with room made for it at the front when the queue is full. */
  function Append(c: Client, cfg: Config, call: Call, waiter: nat): Client {
    if |c.callQueue| < cfg.calls.maxSize then c.(callQueue := c.callQueue + [NewItem(call, waiter)])
    else
      match cfg.calls.overflow
      case Refuse => Settle(c, [waiter], Failed(INVALID_STATE))
      case DropNewest => Settle(c, [waiter], Resolved(None))
      case DropOldest =>
        if c.callQueue == [] then c.(callQueue := [NewItem(call, waiter)])
        else Settle(c.(callQueue := c.callQueue[1..] + [NewItem(call, waiter)]), c.callQueue[0].waiters, Resolved(None))
  }

  /** The queue is full and its policy is to keep what it holds. */
  predicate TurnsAway(size: nat, limit: Limit) {
    size >= limit.maxSize && limit.overflow != DropOldest
  }

  function EnqueueCall(c: Client, cfg: Config, call: Call, fault: Option<nat>): Client {
    var waiter := c.issued;
    var c1 := c.(issued := c.issued + 1);
    if c.state == Closed then Settle(c1, [waiter], Failed(TRANSPORT_DISCONNECTED))
    else if call.coalesceKey.Some? && Find(c.callQueue, call.coalesceKey.value) < |c.callQueue| then
      Flush(Coalesce(c1, Find(c.callQueue, call.coalesceKey.value), call, waiter), fault)
    else if TurnsAway(|c.callQueue|, cfg.calls) then Append(c1, cfg, call, waiter)
    else Flush(Append(c1, cfg, call, waiter), fault)
  }

  /** A new event at the end, with room made for it at the front when the outbox is full. */
  function AppendEvent(c: Client, cfg: Config, item: QueuedEvent): Client {
    if |c.eventOutbox| < cfg.events.maxSize then c.(eventOutbox := c.eventOutbox + [item])
    else
      match cfg.events.overflow
      case Refuse => Settle(c, [item.waiter], Failed(INVALID_STATE))
      case DropNewest => Settle(c, [item.waiter], Resolved(None))
      case DropOldest =>
        if c.eventOutbox == [] then c.(eventOutbox := [item])
        else Settle(c.(eventOutbox := c.eventOutbox[1..] + [item]), [c.eventOutbox[0].waiter], Resolved(None))
  }

  function EnqueueEvent(c: Client, cfg: Config, event: string, payload: int, fault: Option<nat>): Client {
    var waiter := c.issued;
    var c1 := c.(issued := c.issued + 1);
    var item := QueuedEvent(event, payload, waiter);
    if c.state == Closed then Settle(c1, [waiter], Failed(TRANSPORT_DISCONNECTED))
    else if !cfg.queueEvents && !CanSend(c) then
      Settle(c1, [waiter], Failed(if c.state == Reconnecting then TRANSPORT_DISCONNECTED else INVALID_STATE))
    else if TurnsAway(|c.eventOutbox|, cfg.events) then AppendEvent(c1, cfg, item)
    else FlushOutbox(AppendEvent(c1, cfg, item), fault)
  }

  // ---------- Coming and going ----------

  datatype Act =
    | Connect(reconnect: bool)
    | OpenFailed
    | Spawned
    | EndpointReady(fault: Option<nat>)
    | Connected(fault: Option<nat>)
    | EndpointClosed
    | ReconnectFailed
    | FatalHandshake(current: bool, code: nat)
    | HandshakeTimedOut(current: bool, endpointReady: bool)
    | CloseNow
    | QueueCall(call: Call, fault: Option<nat>)
    | QueueEvent(event: string, payload: int, fault: Option<nat>)
    | CallEnds(verdict: Verdict, fault: Option<nat>)

  function FlushBoth(c: Client, fault: Option<nat>): Client {
    Flush(FlushOutbox(c, fault), fault)
  }

  function Drain(c: Client, code: nat): Client {
    RejectEvents(RejectCalls(c, code), code)
  }

  predicate Enabled(c: Client, a: Act) {
    (a.Connect? ==> c.state == Idle) && (a.ReconnectFailed? ==> c.coordinator) && (a.CallEnds? ==> c.inFlight.Some?)
  }

  function Step(c: Client, cfg: Config, a: Act): Client {
    match a
    case Connect(reconnect) => SetState(c.(firstReady := true, coordinator := reconnect), Connecting)
    case OpenFailed => if c.state != Closed && c.coordinator then SetState(c, Reconnecting) else c
    case Spawned =>
      if c.state == Closed then c
      else if c.state == Ready then c.(endpoint := true)
      else SetState(c.(endpoint := true), Connecting)
    case EndpointReady(fault) =>
      FlushBoth(if c.firstReady then c.(firstReady := false) else SetState(c, Ready), fault)
    case Connected(fault) => FlushBoth(SetState(c, Ready), fault)
    case EndpointClosed =>
      if c.state == Closed then c
      else
        var c1 := c.(endpoint := false);
        if c.coordinator then SetState(c1, Reconnecting)
        else if c.firstReady then c1
        else SetState(c1, Closed)
    case ReconnectFailed => RejectEvents(SetState(RejectCalls(c, TRANSPORT_DISCONNECTED), Closed), TRANSPORT_DISCONNECTED)
    case FatalHandshake(current, code) =>
      if !current || c.state == Closed then c else SetState(Drain(c, code), Closed)
    case HandshakeTimedOut(current, endpointReady) =>
      if !current || endpointReady || c.state == Closed || c.coordinator then c
      else SetState(Drain(c, HANDSHAKE_TIMEOUT), Closed)
    case CloseNow => Drain(SetState(c, Closed), TRANSPORT_DISCONNECTED)
    case QueueCall(call, fault) => EnqueueCall(c, cfg, call, fault)
    case QueueEvent(event, payload, fault) => EnqueueEvent(c, cfg, event, payload, fault)
    case CallEnds(v, fault) => Finish(c, v, fault)
  }

  // ---------- Every waiter is in one place ----------

  function InQueue(q: seq<QueuedCall>): multiset<nat> {
    if q == [] then multiset{} else multiset(q[0].waiters) + InQueue(q[1..])
  }

  function InOutbox(q: seq<QueuedEvent>): multiset<nat> {
    if q == [] then multiset{} else multiset{q[0].waiter} + InOutbox(q[1..])
  }

  function InFlight(c: Client): multiset<nat> {
    if c.inFlight.Some? then multiset(c.inFlight.value.waiters) else multiset{}
  }

  /** Where the waiters are, each counted as often as it occurs. */
  function Places(c: Client): multiset<nat> {
    InQueue(c.callQueue) + InFlight(c) + InOutbox(c.eventOutbox) + multiset(c.settled.Keys)
  }

  function Issued(n: nat): (s: set<nat>)
    ensures forall w: nat :: w in s <==> w < n
  {
    if n == 0 then {} else Issued(n - 1) + {n - 1}
  }

  /** Every waiter issued so far is in exactly one place, counting those in hand. */
  ghost predicate Balanced(c: Client, inHand: multiset<nat>) {
    Places(c) + inHand == multiset(Issued(c.issued))
  }

  /** A verdict, once given, stays. */
  ghost predicate Grows(c: Client, c': Client) {
    && c'.issued >= c.issued
    && forall w :: w in c.settled ==> w in c'.settled && c'.settled[w] == c.settled[w]
  }

  /** A relation that holds over two steps. */
  lemma Chain(a: Client, b: Client, c: Client)
    requires Grows(a, b) && Grows(b, c)
    ensures Grows(a, c)
  {}

  lemma VerdictKeys(settled: map<nat, Verdict>, ws: seq<nat>, v: Verdict, others: multiset<nat>, total: set<nat>)
    requires multiset(settled.Keys) + multiset(ws) + others == multiset(total)
    ensures multiset((settled + Verdicts(ws, v)).Keys) == multiset(settled.Keys) + multiset(ws)
    ensures forall w :: w in settled ==> w !in ws
  {
    forall w | w in settled ensures w !in ws {
      assert multiset(settled.Keys)[w] == 1;
      assert (multiset(settled.Keys) + multiset(ws) + others)[w] == multiset(total)[w] <= 1;
      assert multiset(ws)[w] == 0;
    }
    var keys: set<nat> := (settled + Verdicts(ws, v)).Keys;
    var sum: multiset<nat> := multiset(settled.Keys) + multiset(ws);
    var all: multiset<nat> := multiset(keys);
    forall w: nat ensures all[w] == sum[w] {
      assert w in keys <==> w in settled || w in ws;
      assert (multiset(settled.Keys) + multiset(ws) + others)[w] == multiset(total)[w] <= 1;
    }
  }

  lemma SettleBalanced(c: Client, ws: seq<nat>, v: Verdict, inHand: multiset<nat>)
    requires Balanced(c, multiset(ws) + inHand)
    ensures Balanced(Settle(c, ws, v), inHand) && Grows(c, Settle(c, ws, v))
  {
    hide Verdicts, InQueue, InOutbox, InFlight, Issued;
    var others := InQueue(c.callQueue) + InFlight(c) + InOutbox(c.eventOutbox) + inHand;
    assert multiset(c.settled.Keys) + multiset(ws) + others == Places(c) + (multiset(ws) + inHand);
    VerdictKeys(c.settled, ws, v, others, Issued(c.issued));
    SettledStay(c.settled, ws, v);
    var c' := Settle(c, ws, v);
    assert Places(c') == InQueue(c.callQueue) + InFlight(c') + InOutbox(c.eventOutbox) + multiset(c'.settled.Keys);
    assert InFlight(c') == InFlight(c) by { SameFlight(c, c'); }
  }

  lemma SameFlight(c: Client, c': Client)
    requires c.inFlight == c'.inFlight
    ensures InFlight(c') == InFlight(c)
  {}

  lemma SettledStay(settled: map<nat, Verdict>, ws: seq<nat>, v: Verdict)
    requires forall w :: w in settled ==> w !in ws
    ensures forall w :: w in settled ==> w in settled + Verdicts(ws, v) && (settled + Verdicts(ws, v))[w] == settled[w]
  {}

  /** The first call of the queue taken in hand. */
  lemma TakeCall(c: Client)
    requires Balanced(c, multiset{}) && c.callQueue != []
    ensures Balanced(c.(callQueue := c.callQueue[1..]), multiset(c.callQueue[0].waiters) + multiset{})
    ensures Grows(c, c.(callQueue := c.callQueue[1..]))
  {
    var c' := c.(callQueue := c.callQueue[1..]);
    SameFlight(c, c');
  }

  lemma TakeEvent(c: Client)
    requires Balanced(c, multiset{}) && c.eventOutbox != []
    ensures Balanced(c.(eventOutbox := c.eventOutbox[1..]), multiset([c.eventOutbox[0].waiter]) + multiset{})
  {
    var c' := c.(eventOutbox := c.eventOutbox[1..]);
    SameFlight(c, c');
    assert multiset([c.eventOutbox[0].waiter]) == multiset{c.eventOutbox[0].waiter};
  }

  lemma {:induction false} FlushKeeps(c: Client, fault: Option<nat>)
    requires Balanced(c, multiset{})
    ensures Balanced(Flush(c, fault), multiset{}) && Grows(c, Flush(c, fault))
    decreases |c.callQueue|
  {
    hide Balanced, Settle, Places;
    if !c.inFlight.Some? && CanSend(c) && c.callQueue != [] {
      var rest := c.(callQueue := c.callQueue[1..]);
      TakeCall(c);
      if fault.Some? {
        SettleBalanced(rest, c.callQueue[0].waiters, Failed(fault.value), multiset{});
        SettleFields(rest, c.callQueue[0].waiters, Failed(fault.value));
        FlushKeeps(Settle(rest, c.callQueue[0].waiters, Failed(fault.value)), fault);
      } else {
        IntoFlight(rest, c.callQueue[0], c.sent + [Sent(c.callQueue[0].methodName, c.callQueue[0].params, c.callQueue[0].timeoutMs)]);
      }
    }
  }

  lemma SettleFields(c: Client, ws: seq<nat>, v: Verdict)
    ensures Settle(c, ws, v) == c.(settled := Settle(c, ws, v).settled)
  {}

  lemma IntoFlight(c: Client, item: QueuedCall, sent: seq<Sent>)
    requires Balanced(c, multiset(item.waiters) + multiset{}) && c.inFlight == None
    ensures Balanced(c.(inFlight := Some(item), sent := sent), multiset{})
  {
    hide InQueue, InOutbox, Issued;
  }

  lemma OutOfFlight(c: Client)
    requires Balanced(c, multiset{}) && c.inFlight.Some?
    ensures Balanced(c.(inFlight := None), multiset(c.inFlight.value.waiters) + multiset{})
  {
    hide InQueue, InOutbox, Issued;
  }

  lemma FinishKeeps(c: Client, v: Verdict, fault: Option<nat>)
    requires Balanced(c, multiset{})
    ensures Balanced(Finish(c, v, fault), multiset{}) && Grows(c, Finish(c, v, fault))
  {
    hide Balanced, Settle, Flush;
    if c.inFlight.Some? {
      OutOfFlight(c);
      var landed := c.(inFlight := None);
      SettleBalanced(landed, c.inFlight.value.waiters, v, multiset{});
      FlushKeeps(Settle(landed, c.inFlight.value.waiters, v), fault);
    }
  }

  lemma {:induction false} FlushOutboxKeeps(c: Client, fault: Option<nat>)
    requires Balanced(c, multiset{})
    ensures Balanced(FlushOutbox(c, fault), multiset{}) && Grows(c, FlushOutbox(c, fault))
    decreases |c.eventOutbox|
  {
    hide Balanced, Settle;
    if CanSend(c) && c.eventOutbox != [] {
      var item := c.eventOutbox[0];
      var rest := c.(eventOutbox := c.eventOutbox[1..]);
      TakeEvent(c);
      var next := if fault.Some? then rest else rest.(emitted := c.emitted + [(item.event, item.payload)]);
      var v := if fault.Some? then Failed(fault.value) else Resolved(None);
      EmittedIrrelevant(rest, next, multiset([item.waiter]) + multiset{});
      SettleBalanced(next, [item.waiter], v, multiset{});
      SettleFields(next, [item.waiter], v);
      FlushOutboxKeeps(Settle(next, [item.waiter], v), fault);
    }
  }

  /** What was emitted, and the state of the connection, do not matter for the balance. */
  lemma EmittedIrrelevant(c: Client, c': Client, inHand: multiset<nat>)
    requires Balanced(c, inHand)
    requires c'.callQueue == c.callQueue && c'.inFlight == c.inFlight && c'.eventOutbox == c.eventOutbox
    requires c'.settled == c.settled && c'.issued == c.issued
    ensures Balanced(c', inHand) && Grows(c, c')
  {
    SameFlight(c, c');
  }

  lemma {:induction false} RejectCallsKeeps(c: Client, code: nat)
    requires Balanced(c, multiset{})
    ensures var c' := RejectCalls(c, code);
      && Balanced(c', multiset{}) && Grows(c, c') && c'.callQueue == [] && c'.eventOutbox == c.eventOutbox && c'.state == c.state
    decreases |c.callQueue|
  {
    hide Balanced, Settle;
    if c.callQueue != [] {
      var rest := c.(callQueue := c.callQueue[1..]);
      TakeCall(c);
      SettleBalanced(rest, c.callQueue[0].waiters, Failed(code), multiset{});
      SettleFields(rest, c.callQueue[0].waiters, Failed(code));
      RejectCallsKeeps(Settle(rest, c.callQueue[0].waiters, Failed(code)), code);
    }
  }

  lemma {:induction false} RejectEventsKeeps(c: Client, code: nat)
    requires Balanced(c, multiset{})
    ensures var c' := RejectEvents(c, code);
      && Balanced(c', multiset{}) && Grows(c, c') && c'.eventOutbox == [] && c'.callQueue == c.callQueue && c'.state == c.state
    decreases |c.eventOutbox|
  {
    hide Balanced, Settle;
    if c.eventOutbox != [] {
      var rest := c.(eventOutbox := c.eventOutbox[1..]);
      TakeEvent(c);
      SettleBalanced(rest, [c.eventOutbox[0].waiter], Failed(code), multiset{});
      SettleFields(rest, [c.eventOutbox[0].waiter], Failed(code));
      RejectEventsKeeps(Settle(rest, [c.eventOutbox[0].waiter], Failed(code)), code);
    }
  }

  // ---------- Enqueueing keeps the balance ----------

  lemma IssueOne(c: Client)
    requires Balanced(c, multiset{})
    ensures Balanced(c.(issued := c.issued + 1), multiset([c.issued]) + multiset{}) && Grows(c, c.(issued := c.issued + 1))
  {
    hide InQueue, InOutbox;
    var c' := c.(issued := c.issued + 1);
    SameFlight(c, c');
    assert Issued(c.issued + 1) == Issued(c.issued) + {c.issued};
    assert multiset(Issued(c.issued + 1)) == multiset(Issued(c.issued)) + multiset{c.issued};
    assert multiset([c.issued]) == multiset{c.issued};
  }

  lemma Recombine(a: multiset<nat>, q: multiset<nat>, r: multiset<nat>, out: multiset<nat>, into: multiset<nat>)
    requires r + out == q + into
    ensures (a + r) + out == (a + q) + into
  {
    assert (a + r) + out == a + (r + out);
  }

  lemma Exchange(q: multiset<nat>, r: multiset<nat>, others: multiset<nat>, kept: multiset<nat>,
                 out: multiset<nat>, into: multiset<nat>, total: multiset<nat>)
    requires r + out == q + into && q + others + kept == total && into <= kept + out
    ensures r + others + (kept + out - into) == total
  {
    forall w: nat ensures (r + others + (kept + out - into))[w] == total[w] {
      assert (r + out)[w] == (q + into)[w];
      assert (q + others + kept)[w] == total[w];
    }
  }

  lemma {:induction false} InQueueUpdate(q: seq<QueuedCall>, at: nat, item: QueuedCall)
    requires at < |q|
    ensures InQueue(q[at := item]) + multiset(q[at].waiters) == InQueue(q) + multiset(item.waiters)
    decreases at
  {
    var r := q[at := item];
    if at == 0 {
      assert r[1..] == q[1..];
    } else {
      var rest := q[1..];
      assert r[1..] == rest[at - 1 := item] && rest[at - 1] == q[at] && r[0] == q[0];
      InQueueUpdate(rest, at - 1, item);
      Recombine(multiset(q[0].waiters), InQueue(rest), InQueue(r[1..]), multiset(q[at].waiters), multiset(item.waiters));
    }
  }

  lemma {:induction false} InQueueAppend(q: seq<QueuedCall>, item: QueuedCall)
    ensures InQueue(q + [item]) == InQueue(q) + multiset(item.waiters)
    decreases |q|
  {
    if q == [] {
      assert q + [item] == [item] && [item][1..] == [];
      assert InQueue([item]) == multiset(item.waiters) + InQueue([]);
    } else {
      assert (q + [item])[1..] == q[1..] + [item];
      InQueueAppend(q[1..], item);
    }
  }

  lemma {:induction false} InOutboxAppend(q: seq<QueuedEvent>, item: QueuedEvent)
    ensures InOutbox(q + [item]) == InOutbox(q) + multiset{item.waiter}
    decreases |q|
  {
    if q == [] {
      assert q + [item] == [item] && [item][1..] == [];
      assert InOutbox([item]) == multiset{item.waiter} + InOutbox([]);
    } else {
      assert (q + [item])[1..] == q[1..] + [item];
      InOutboxAppend(q[1..], item);
    }
  }

  /** Waiters in hand put into an item of the queue, those of the item it replaces taken in hand. */
  lemma Swap(c: Client, at: nat, item: QueuedCall, kept: multiset<nat>)
    requires at < |c.callQueue| && Balanced(c, kept)
    requires multiset(item.waiters) <= kept + multiset(c.callQueue[at].waiters)
    ensures Balanced(c.(callQueue := c.callQueue[at := item]), kept + multiset(c.callQueue[at].waiters) - multiset(item.waiters))
  {
    hide InQueue, InOutbox, Issued;
    var c' := c.(callQueue := c.callQueue[at := item]);
    InQueueUpdate(c.callQueue, at, item);
    SameFlight(c, c');
    var others := InFlight(c) + InOutbox(c.eventOutbox) + multiset(c.settled.Keys);
    assert Places(c) == InQueue(c.callQueue) + others && Places(c') == InQueue(c'.callQueue) + others;
    Exchange(InQueue(c.callQueue), InQueue(c'.callQueue), others, kept, multiset(c.callQueue[at].waiters), multiset(item.waiters),
             multiset(Issued(c.issued)));
  }

  lemma CoalesceKeeps(c: Client, at: nat, call: Call, waiter: nat)
    requires at < |c.callQueue| && Balanced(c, multiset([waiter]) + multiset{})
    ensures Balanced(Coalesce(c, at, call, waiter), multiset{}) && Grows(c, Coalesce(c, at, call, waiter))
  {
    hide Balanced, Grows, Settle, Places, Superseding;
    var existing := c.callQueue[at];
    var item := Superseding(existing, call, waiter);
    var swapped := c.(callQueue := c.callQueue[at := item]);
    if call.previous == ResolveWithNext {
      JoinWaiters(c, at, item, waiter, existing.waiters, call);
    } else {
      ReplaceWaiters(c, at, item, waiter, existing.waiters, call);
      var v := if call.previous == DropPrevious then Resolved(None) else Failed(INVALID_STATE);
      SettleBalanced(swapped, existing.waiters, v, multiset{});
      SettleFields(swapped, existing.waiters, v);
      SettleFields(c, existing.waiters, v);
      SettleSame(c, swapped, existing.waiters, v);
      GrowsBySettled(c, swapped, Settle(swapped, existing.waiters, v));
    }
  }

  lemma JoinWaiters(c: Client, at: nat, item: QueuedCall, waiter: nat, others: seq<nat>, call: Call)
    requires at < |c.callQueue| && Balanced(c, multiset([waiter]) + multiset{}) && others == c.callQueue[at].waiters
    requires item == Superseding(c.callQueue[at], call, waiter) && call.previous == ResolveWithNext
    ensures var c' := c.(callQueue := c.callQueue[at := item]); Balanced(c', multiset{}) && Grows(c, c')
  {
    hide Balanced;
    Swap(c, at, item, multiset([waiter]) + multiset{});
    assert multiset([waiter]) + multiset{} + multiset(others) - multiset(item.waiters) == multiset{};
  }

  lemma ReplaceWaiters(c: Client, at: nat, item: QueuedCall, waiter: nat, others: seq<nat>, call: Call)
    requires at < |c.callQueue| && Balanced(c, multiset([waiter]) + multiset{}) && others == c.callQueue[at].waiters
    requires item == Superseding(c.callQueue[at], call, waiter) && call.previous != ResolveWithNext
    ensures var c' := c.(callQueue := c.callQueue[at := item]); Balanced(c', multiset(others) + multiset{})
  {
    hide Balanced;
    Swap(c, at, item, multiset([waiter]) + multiset{});
    assert multiset([waiter]) + multiset{} + multiset(others) - multiset(item.waiters) == multiset(others) + multiset{};
  }

  lemma SettleSame(c: Client, c': Client, ws: seq<nat>, v: Verdict)
    requires c.settled == c'.settled
    ensures Settle(c, ws, v).settled == Settle(c', ws, v).settled
  {}

  lemma GrowsBySettled(c: Client, c1: Client, c': Client)
    requires Grows(c1, c') && c1.settled == c.settled && c1.issued == c.issued
    ensures Grows(c, c')
  {}

  lemma AppendKeeps(c: Client, cfg: Config, call: Call, waiter: nat)
    requires Balanced(c, multiset([waiter]) + multiset{})
    ensures Balanced(Append(c, cfg, call, waiter), multiset{}) && Grows(c, Append(c, cfg, call, waiter))
  {
    hide Balanced, Settle, Places;
    if |c.callQueue| < cfg.calls.maxSize {
      PutLast(c, c.callQueue, NewItem(call, waiter), waiter, multiset{});
    } else if cfg.calls.overflow == Refuse {
      SettleBalanced(c, [waiter], Failed(INVALID_STATE), multiset{});
    } else if cfg.calls.overflow == DropNewest {
      SettleBalanced(c, [waiter], Resolved(None), multiset{});
    } else if c.callQueue == [] {
      PutLast(c, [], NewItem(call, waiter), waiter, multiset{});
      assert [] + [NewItem(call, waiter)] == [NewItem(call, waiter)];
    } else {
      var oldest := c.callQueue[0];
      ShiftCall(c, multiset([waiter]) + multiset{});
      var rest := c.(callQueue := c.callQueue[1..]);
      assert multiset([waiter]) + multiset{} + multiset(oldest.waiters) == multiset([waiter]) + (multiset(oldest.waiters) + multiset{});
      PutLast(rest, c.callQueue[1..], NewItem(call, waiter), waiter, multiset(oldest.waiters) + multiset{});
      var full := c.(callQueue := c.callQueue[1..] + [NewItem(call, waiter)]);
      SettleBalanced(full, oldest.waiters, Resolved(None), multiset{});
    }
  }

  lemma ShiftCall(c: Client, inHand: multiset<nat>)
    requires Balanced(c, inHand) && c.callQueue != []
    ensures Balanced(c.(callQueue := c.callQueue[1..]), inHand + multiset(c.callQueue[0].waiters))
  {
    SameFlight(c, c.(callQueue := c.callQueue[1..]));
  }

  lemma PutLast(c: Client, q: seq<QueuedCall>, item: QueuedCall, waiter: nat, inHand: multiset<nat>)
    requires q == c.callQueue && Balanced(c, multiset([waiter]) + inHand) && item.waiters == [waiter]
    ensures Balanced(c.(callQueue := q + [item]), inHand) && Grows(c, c.(callQueue := q + [item]))
  {
    hide InQueue, InOutbox, Issued;
    InQueueAppend(q, item);
    SameFlight(c, c.(callQueue := q + [item]));
  }

  lemma EnqueueCallKeeps(c: Client, cfg: Config, call: Call, fault: Option<nat>)
    requires Balanced(c, multiset{})
    ensures Balanced(EnqueueCall(c, cfg, call, fault), multiset{}) && Grows(c, EnqueueCall(c, cfg, call, fault))
  {
    hide Balanced, Settle, Places, Flush, Coalesce, Append;
    IssueOne(c);
    var c1 := c.(issued := c.issued + 1);
    if c.state == Closed {
      SettleBalanced(c1, [c.issued], Failed(TRANSPORT_DISCONNECTED), multiset{});
    } else if call.coalesceKey.Some? && Find(c.callQueue, call.coalesceKey.value) < |c.callQueue| {
      var at := Find(c.callQueue, call.coalesceKey.value);
      CoalesceKeeps(c1, at, call, c.issued);
      FlushKeeps(Coalesce(c1, at, call, c.issued), fault);
    } else {
      AppendKeeps(c1, cfg, call, c.issued);
      if !TurnsAway(|c.callQueue|, cfg.calls) { FlushKeeps(Append(c1, cfg, call, c.issued), fault); }
    }
  }

  lemma PutEvent(c: Client, q: seq<QueuedEvent>, item: QueuedEvent, inHand: multiset<nat>)
    requires q == c.eventOutbox && Balanced(c, multiset([item.waiter]) + inHand)
    ensures Balanced(c.(eventOutbox := q + [item]), inHand) && Grows(c, c.(eventOutbox := q + [item]))
  {
    hide InQueue, InOutbox, Issued;
    InOutboxAppend(q, item);
    SameFlight(c, c.(eventOutbox := q + [item]));
    assert multiset([item.waiter]) == multiset{item.waiter};
  }

  lemma ShiftEvent(c: Client, inHand: multiset<nat>)
    requires Balanced(c, inHand) && c.eventOutbox != []
    ensures Balanced(c.(eventOutbox := c.eventOutbox[1..]), inHand + multiset([c.eventOutbox[0].waiter]))
  {
    SameFlight(c, c.(eventOutbox := c.eventOutbox[1..]));
    assert multiset([c.eventOutbox[0].waiter]) == multiset{c.eventOutbox[0].waiter};
  }

  /** A waiter told its verdict at once. */
  lemma TellNow(c: Client, v: Verdict)
    requires Balanced(c, multiset{})
    ensures var c' := Settle(c.(issued := c.issued + 1), [c.issued], v);
      Balanced(c', multiset{}) && Grows(c, c')
  {
    hide Balanced, Grows, Settle, Places;
    var c1 := c.(issued := c.issued + 1);
    IssueOne(c);
    SettleBalanced(c1, [c.issued], v, multiset{});
    Chain(c, c1, Settle(c1, [c.issued], v));
  }

  lemma EnqueueEventKeeps(c: Client, cfg: Config, event: string, payload: int, fault: Option<nat>)
    requires Balanced(c, multiset{})
    ensures Balanced(EnqueueEvent(c, cfg, event, payload, fault), multiset{}) && Grows(c, EnqueueEvent(c, cfg, event, payload, fault))
  {
    hide Balanced, Grows, Settle, Places, FlushOutbox, AppendEvent;
    if c.state == Closed {
      TellNow(c, Failed(TRANSPORT_DISCONNECTED));
    } else if !cfg.queueEvents && !CanSend(c) {
      TellNow(c, Failed(if c.state == Reconnecting then TRANSPORT_DISCONNECTED else INVALID_STATE));
    } else {
      var item := QueuedEvent(event, payload, c.issued);
      var c1 := c.(issued := c.issued + 1);
      IssueOne(c);
      AppendEventKeeps(c1, cfg, item);
      var c2 := AppendEvent(c1, cfg, item);
      Chain(c, c1, c2);
      ThenFlushOutbox(c, c2, fault);
    }
  }

  lemma AppendEventKeeps(c: Client, cfg: Config, item: QueuedEvent)
    requires Balanced(c, multiset([item.waiter]) + multiset{})
    ensures Balanced(AppendEvent(c, cfg, item), multiset{}) && Grows(c, AppendEvent(c, cfg, item))
  {
    hide Balanced, Grows, Settle, Places;
    if |c.eventOutbox| < cfg.events.maxSize {
      PutEvent(c, c.eventOutbox, item, multiset{});
    } else if cfg.events.overflow == Refuse {
      SettleBalanced(c, [item.waiter], Failed(INVALID_STATE), multiset{});
    } else if cfg.events.overflow == DropNewest {
      SettleBalanced(c, [item.waiter], Resolved(None), multiset{});
    } else if c.eventOutbox == [] {
      PutEvent(c, [], item, multiset{});
      assert [] + [item] == [item];
    } else {
      MakeRoom(c, item);
    }
  }

  lemma ThenFlushOutbox(c: Client, c1: Client, fault: Option<nat>)
    requires Balanced(c1, multiset{}) && Grows(c, c1)
    ensures Balanced(FlushOutbox(c1, fault), multiset{}) && Grows(c, FlushOutbox(c1, fault))
  {
    hide Balanced, Grows, FlushOutbox;
    FlushOutboxKeeps(c1, fault);
    Chain(c, c1, FlushOutbox(c1, fault));
  }

  lemma MakeRoom(c: Client, item: QueuedEvent)
    requires c.eventOutbox != [] && Balanced(c, multiset([item.waiter]) + multiset{})
    ensures var full := c.(eventOutbox := c.eventOutbox[1..] + [item]);
      var told := Settle(full, [c.eventOutbox[0].waiter], Resolved(None));
      Balanced(told, multiset{}) && Grows(c, told)
  {
    hide Balanced, Settle, Places;
    var oldest := multiset([c.eventOutbox[0].waiter]);
    var none: multiset<nat> := multiset{};
    ShiftEvent(c, multiset([item.waiter]) + none);
    assert multiset([item.waiter]) + none + oldest == multiset([item.waiter]) + (oldest + none);
    PutEvent(c.(eventOutbox := c.eventOutbox[1..]), c.eventOutbox[1..], item, oldest + none);
    SettleBalanced(c.(eventOutbox := c.eventOutbox[1..] + [item]), [c.eventOutbox[0].waiter], Resolved(None), none);
  }

  lemma ConnectionIrrelevant(c: Client, c': Client)
    requires Balanced(c, multiset{})
    requires c' == c.(state := c'.state, endpoint := c'.endpoint, coordinator := c'.coordinator, firstReady := c'.firstReady)
    ensures Balanced(c', multiset{}) && Grows(c, c')
  {
    EmittedIrrelevant(c, c', multiset{});
  }

  lemma FlushBothKeeps(c: Client, fault: Option<nat>)
    requires Balanced(c, multiset{})
    ensures Balanced(FlushBoth(c, fault), multiset{}) && Grows(c, FlushBoth(c, fault))
  {
    hide Balanced, Flush, FlushOutbox;
    FlushOutboxKeeps(c, fault);
    FlushKeeps(FlushOutbox(c, fault), fault);
  }

  /** Both queues emptied, their waiters told. */
  lemma DrainKeeps(c: Client, code: nat)
    requires Balanced(c, multiset{})
    ensures var c' := Drain(c, code);
      Balanced(c', multiset{}) && Grows(c, c') && c'.callQueue == [] && c'.eventOutbox == [] && c'.state == c.state
  {
    hide Balanced, RejectCalls, RejectEvents;
    RejectCallsKeeps(c, code);
    RejectEventsKeeps(RejectCalls(c, code), code);
  }

  lemma ThenFlushBoth(c: Client, c1: Client, fault: Option<nat>)
    requires Balanced(c1, multiset{}) && Grows(c, c1)
    ensures Balanced(FlushBoth(c1, fault), multiset{}) && Grows(c, FlushBoth(c1, fault))
  {
    hide Balanced, Grows, FlushBoth;
    FlushBothKeeps(c1, fault);
    Chain(c, c1, FlushBoth(c1, fault));
  }

  lemma DrainAndClose(c: Client, code: nat)
    requires Balanced(c, multiset{})
    ensures Balanced(SetState(Drain(c, code), Closed), multiset{}) && Grows(c, SetState(Drain(c, code), Closed))
  {
    hide Balanced, Grows, Drain;
    DrainKeeps(c, code);
    var c1 := Drain(c, code);
    ConnectionIrrelevant(c1, SetState(c1, Closed));
    Chain(c, c1, SetState(c1, Closed));
  }

  lemma CloseAndDrain(c: Client, code: nat)
    requires Balanced(c, multiset{})
    ensures Balanced(Drain(SetState(c, Closed), code), multiset{}) && Grows(c, Drain(SetState(c, Closed), code))
  {
    hide Balanced, Grows, Drain;
    var c1 := SetState(c, Closed);
    ConnectionIrrelevant(c, c1);
    DrainKeeps(c1, code);
    Chain(c, c1, Drain(c1, code));
  }

  lemma GiveUpKeeps(c: Client)
    requires Balanced(c, multiset{})
    ensures var c' := RejectEvents(SetState(RejectCalls(c, TRANSPORT_DISCONNECTED), Closed), TRANSPORT_DISCONNECTED);
      Balanced(c', multiset{}) && Grows(c, c')
  {
    hide Balanced, Grows, RejectCalls, RejectEvents;
    RejectCallsKeeps(c, TRANSPORT_DISCONNECTED);
    var c1 := RejectCalls(c, TRANSPORT_DISCONNECTED);
    var c2 := SetState(c1, Closed);
    ConnectionIrrelevant(c1, c2);
    RejectEventsKeeps(c2, TRANSPORT_DISCONNECTED);
    Chain(c, c1, c2);
    Chain(c, c2, RejectEvents(c2, TRANSPORT_DISCONNECTED));
  }

  /** Conservation: whatever happens, every waiter issued stays in exactly one place, and a verdict stays. */
  lemma StepKeeps(c: Client, cfg: Config, a: Act)
    requires Balanced(c, multiset{}) && Enabled(c, a)
    ensures Balanced(Step(c, cfg, a), multiset{}) && Grows(c, Step(c, cfg, a))
  {
    hide Balanced, Grows, Flush, FlushOutbox, RejectCalls, RejectEvents, EnqueueCall, EnqueueEvent, Finish, FlushBoth, Drain;
    match a
    case Connect(_) => ConnectionIrrelevant(c, Step(c, cfg, a));
    case OpenFailed => ConnectionIrrelevant(c, Step(c, cfg, a));
    case Spawned => ConnectionIrrelevant(c, Step(c, cfg, a));
    case EndpointClosed => ConnectionIrrelevant(c, Step(c, cfg, a));
    case EndpointReady(fault) =>
      var c1 := if c.firstReady then c.(firstReady := false) else SetState(c, Ready);
      ConnectionIrrelevant(c, c1);
      ThenFlushBoth(c, c1, fault);
    case Connected(fault) =>
      ConnectionIrrelevant(c, SetState(c, Ready));
      ThenFlushBoth(c, SetState(c, Ready), fault);
    case ReconnectFailed => GiveUpKeeps(c);
    case FatalHandshake(current, code) =>
      ConnectionIrrelevant(c, c);
      DrainAndClose(c, code);
    case HandshakeTimedOut(_, _) =>
      ConnectionIrrelevant(c, c);
      DrainAndClose(c, HANDSHAKE_TIMEOUT);
    case CloseNow => CloseAndDrain(c, TRANSPORT_DISCONNECTED);
    case QueueCall(call, fault) => EnqueueCallKeeps(c, cfg, call, fault);
    case QueueEvent(event, payload, fault) => EnqueueEventKeeps(c, cfg, event, payload, fault);
    case CallEnds(v, fault) => FinishKeeps(c, v, fault);
  }

  // ---------- The size of the queues, and the keys in them ----------

  ghost predicate UniqueKeys(q: seq<QueuedCall>) {
    forall i, j :: 0 <= i < j < |q| && q[i].coalesceKey.Some? ==> q[i].coalesceKey != q[j].coalesceKey
  }

  function AtLeastOne(maxSize: int): nat {
    if maxSize < 1 then 1 else maxSize
  }

  /** No longer than allowed, no key twice, and somebody waits for each call. */
  ghost predicate GoodQueue(q: seq<QueuedCall>, cfg: Config) {
    && |q| <= AtLeastOne(cfg.calls.maxSize)
    && UniqueKeys(q)
    && forall i :: 0 <= i < |q| ==> q[i].waiters != []
  }

  ghost predicate Bounded(c: Client, cfg: Config) {
    GoodQueue(c.callQueue, cfg) && |c.eventOutbox| <= AtLeastOne(cfg.events.maxSize)
  }

  /** A step that only takes from the front. */
  ghost predicate Shrinks(c: Client, c': Client) {
    && |c'.callQueue| <= |c.callQueue| && c'.callQueue == c.callQueue[|c.callQueue| - |c'.callQueue|..]
    && |c'.eventOutbox| <= |c.eventOutbox|
    && c'.state == c.state && c'.endpoint == c.endpoint
  }

  lemma {:induction false} FlushShrinks(c: Client, fault: Option<nat>)
    ensures Shrinks(c, Flush(c, fault))
    decreases |c.callQueue|
  {
    hide Settle;
    if !c.inFlight.Some? && CanSend(c) && c.callQueue != [] && fault.Some? {
      var rest := c.(callQueue := c.callQueue[1..]);
      SettleFields(rest, c.callQueue[0].waiters, Failed(fault.value));
      FlushShrinks(Settle(rest, c.callQueue[0].waiters, Failed(fault.value)), fault);
    }
  }

  lemma {:induction false} FlushOutboxShrinks(c: Client, fault: Option<nat>)
    ensures Shrinks(c, FlushOutbox(c, fault))
    decreases |c.eventOutbox|
  {
    hide Settle;
    if CanSend(c) && c.eventOutbox != [] {
      var item := c.eventOutbox[0];
      var rest := c.(eventOutbox := c.eventOutbox[1..]);
      var next := if fault.Some? then rest else rest.(emitted := c.emitted + [(item.event, item.payload)]);
      var v := if fault.Some? then Failed(fault.value) else Resolved(None);
      SettleFields(next, [item.waiter], v);
      FlushOutboxShrinks(Settle(next, [item.waiter], v), fault);
    }
  }

  lemma {:induction false} RejectCallsEmpties(c: Client, code: nat)
    ensures var c' := RejectCalls(c, code); c' == c.(callQueue := [], settled := c'.settled)
    decreases |c.callQueue|
  {
    hide Settle;
    if c.callQueue != [] {
      var rest := c.(callQueue := c.callQueue[1..]);
      SettleFields(rest, c.callQueue[0].waiters, Failed(code));
      RejectCallsEmpties(Settle(rest, c.callQueue[0].waiters, Failed(code)), code);
    }
  }

  lemma {:induction false} RejectEventsEmpties(c: Client, code: nat)
    ensures var c' := RejectEvents(c, code); c' == c.(eventOutbox := [], settled := c'.settled)
    decreases |c.eventOutbox|
  {
    hide Settle;
    if c.eventOutbox != [] {
      var rest := c.(eventOutbox := c.eventOutbox[1..]);
      SettleFields(rest, [c.eventOutbox[0].waiter], Failed(code));
      RejectEventsEmpties(Settle(rest, [c.eventOutbox[0].waiter], Failed(code)), code);
    }
  }

  lemma DrainEmpties(c: Client, code: nat)
    ensures var c' := Drain(c, code); c' == c.(callQueue := [], eventOutbox := [], settled := c'.settled)
  {
    hide RejectCalls, RejectEvents;
    RejectCallsEmpties(c, code);
    RejectEventsEmpties(RejectCalls(c, code), code);
  }

  lemma ShrinksBounded(c: Client, c': Client, cfg: Config)
    requires Bounded(c, cfg) && Shrinks(c, c')
    ensures Bounded(c', cfg)
  {}

  lemma EnqueueCallBounded(c: Client, cfg: Config, call: Call, fault: Option<nat>)
    requires Bounded(c, cfg)
    ensures Bounded(EnqueueCall(c, cfg, call, fault), cfg)
  {
    hide Flush, Settle, Shrinks, Verdicts;
    var waiter := c.issued;
    var c1 := c.(issued := c.issued + 1);
    if c.state == Closed {
      SettleFields(c1, [waiter], Failed(TRANSPORT_DISCONNECTED));
    } else if call.coalesceKey.Some? && Find(c.callQueue, call.coalesceKey.value) < |c.callQueue| {
      var c2 := Coalesce(c1, Find(c.callQueue, call.coalesceKey.value), call, waiter);
      SettleFields(c1, c.callQueue[Find(c.callQueue, call.coalesceKey.value)].waiters, Resolved(None));
      SettleFields(c1, c.callQueue[Find(c.callQueue, call.coalesceKey.value)].waiters, Failed(INVALID_STATE));
      FlushShrinks(c2, fault);
      ShrinksBounded(c2, Flush(c2, fault), cfg);
    } else {
      var c2 := Append(c1, cfg, call, waiter);
      AppendBounded(c1, cfg, call, waiter);
      assert Bounded(c2, cfg);
      FlushShrinks(c2, fault);
      ShrinksBounded(c2, Flush(c2, fault), cfg);
    }
  }

  lemma AppendBounded(c: Client, cfg: Config, call: Call, waiter: nat)
    requires Bounded(c, cfg)
    requires call.coalesceKey.Some? ==> forall i :: 0 <= i < |c.callQueue| ==> c.callQueue[i].coalesceKey != call.coalesceKey
    ensures Bounded(Append(c, cfg, call, waiter), cfg)
  {
    hide Settle, GoodQueue;
    var item := NewItem(call, waiter);
    SettleFields(c, [waiter], Failed(INVALID_STATE));
    SettleFields(c, [waiter], Resolved(None));
    GoodQueueSize(c.callQueue, cfg);
    if |c.callQueue| < cfg.calls.maxSize {
      GoodQueueAppend(c.callQueue, item, cfg);
    } else if c.callQueue == [] {
      GoodQueueAppend([], item, cfg);
      assert [] + [item] == [item];
    } else {
      GoodQueueTail(c.callQueue, cfg);
      GoodQueueAppend(c.callQueue[1..], item, cfg);
      SettleFields(c.(callQueue := c.callQueue[1..] + [item]), c.callQueue[0].waiters, Resolved(None));
    }
  }

  lemma GoodQueueSize(q: seq<QueuedCall>, cfg: Config)
    requires GoodQueue(q, cfg)
    ensures |q| <= AtLeastOne(cfg.calls.maxSize) && GoodQueue([], cfg)
  {}

  lemma GoodQueueAppend(q: seq<QueuedCall>, item: QueuedCall, cfg: Config)
    requires GoodQueue(q, cfg) && |q| < AtLeastOne(cfg.calls.maxSize) && item.waiters != []
    requires item.coalesceKey.Some? ==> forall i :: 0 <= i < |q| ==> q[i].coalesceKey != item.coalesceKey
    ensures GoodQueue(q + [item], cfg)
  {}

  lemma GoodQueueTail(q: seq<QueuedCall>, cfg: Config)
    requires q != [] && GoodQueue(q, cfg)
    ensures GoodQueue(q[1..], cfg)
  {}

  lemma EnqueueEventBounded(c: Client, cfg: Config, event: string, payload: int, fault: Option<nat>)
    requires Bounded(c, cfg)
    ensures Bounded(EnqueueEvent(c, cfg, event, payload, fault), cfg)
  {
    hide FlushOutbox, Settle, Shrinks, GoodQueue, AppendEvent;
    var c1 := c.(issued := c.issued + 1);
    SettleFields(c1, [c.issued], Failed(TRANSPORT_DISCONNECTED));
    SettleFields(c1, [c.issued], Failed(INVALID_STATE));
    var c2 := AppendEvent(c1, cfg, QueuedEvent(event, payload, c.issued));
    AppendEventBounded(c1, cfg, QueuedEvent(event, payload, c.issued));
    FlushOutboxShrinks(c2, fault);
    ShrinksBounded(c2, FlushOutbox(c2, fault), cfg);
  }

  lemma AppendEventBounded(c: Client, cfg: Config, item: QueuedEvent)
    requires Bounded(c, cfg)
    ensures Bounded(AppendEvent(c, cfg, item), cfg)
  {
    hide Settle, GoodQueue;
    SettleFields(c, [item.waiter], Failed(INVALID_STATE));
    SettleFields(c, [item.waiter], Resolved(None));
    if c.eventOutbox != [] {
      SettleFields(c.(eventOutbox := c.eventOutbox[1..] + [item]), [c.eventOutbox[0].waiter], Resolved(None));
    }
  }

  lemma FlushBothBounded(c: Client, cfg: Config, fault: Option<nat>)
    requires Bounded(c, cfg)
    ensures Bounded(FlushBoth(c, fault), cfg)
  {
    hide Flush, FlushOutbox, Shrinks, Bounded;
    FlushOutboxShrinks(c, fault);
    ShrinksBounded(c, FlushOutbox(c, fault), cfg);
    FlushShrinks(FlushOutbox(c, fault), fault);
    ShrinksBounded(FlushOutbox(c, fault), FlushBoth(c, fault), cfg);
  }

  /** The queues never grow past the larger of one and their limit, and no key is queued twice. */
  lemma StepBounded(c: Client, cfg: Config, a: Act)
    requires Bounded(c, cfg) && Enabled(c, a)
    ensures Bounded(Step(c, cfg, a), cfg)
  {
    hide Flush, FlushOutbox, RejectCalls, RejectEvents, EnqueueCall, EnqueueEvent, FlushBoth, Drain, Shrinks, GoodQueue, Settle;
    GoodQueueSize(c.callQueue, cfg);
    match a
    case EndpointReady(fault) => FlushBothBounded(if c.firstReady then c.(firstReady := false) else SetState(c, Ready), cfg, fault);
    case Connected(fault) => FlushBothBounded(SetState(c, Ready), cfg, fault);
    case ReconnectFailed =>
      RejectCallsEmpties(c, TRANSPORT_DISCONNECTED);
      RejectEventsEmpties(SetState(RejectCalls(c, TRANSPORT_DISCONNECTED), Closed), TRANSPORT_DISCONNECTED);
    case FatalHandshake(_, code) => DrainEmpties(c, code);
    case HandshakeTimedOut(_, _) => DrainEmpties(c, HANDSHAKE_TIMEOUT);
    case CloseNow => DrainEmpties(SetState(c, Closed), TRANSPORT_DISCONNECTED);
    case QueueCall(call, fault) => EnqueueCallBounded(c, cfg, call, fault);
    case QueueEvent(event, payload, fault) => EnqueueEventBounded(c, cfg, event, payload, fault);
    case CallEnds(v, fault) =>
      var c1 := Settle(c.(inFlight := None), c.inFlight.value.waiters, v);
      SettleFields(c.(inFlight := None), c.inFlight.value.waiters, v);
      FlushShrinks(c1, fault);
      ShrinksBounded(c1, Flush(c1, fault), cfg);
    case _ =>
  }

  /** The bound of one is reached: with no room at all, dropping the oldest still queues the newest. */
  lemma ZeroLimitQueuesOne(c: Client, cfg: Config, call: Call, fault: Option<nat>)
    requires cfg.calls.maxSize <= 0 && cfg.calls.overflow == DropOldest
    requires c.state != Closed && !CanSend(c) && c.callQueue == []
    ensures EnqueueCall(c, cfg, call, fault).callQueue == [NewItem(call, c.issued)]
  {}

  // ---------- Every run ----------

  ghost predicate IsRun(c: Client, cfg: Config, acts: seq<Act>)
    decreases |acts|
  {
    acts == [] || (Enabled(c, acts[0]) && IsRun(Step(c, cfg, acts[0]), cfg, acts[1..]))
  }

  function After(c: Client, cfg: Config, acts: seq<Act>): Client
    requires IsRun(c, cfg, acts)
    decreases |acts|
  {
    if acts == [] then c else After(Step(c, cfg, acts[0]), cfg, acts[1..])
  }

  lemma {:induction false} RunKeeps(c: Client, cfg: Config, acts: seq<Act>)
    requires Balanced(c, multiset{}) && Bounded(c, cfg) && IsRun(c, cfg, acts)
    ensures Balanced(After(c, cfg, acts), multiset{}) && Bounded(After(c, cfg, acts), cfg) && Grows(c, After(c, cfg, acts))
    decreases |acts|
  {
    hide Balanced, Bounded, Grows, Step, Enabled;
    if acts == [] {
      assert Grows(c, c) by { SameGrows(c); }
    } else {
      var c1 := Step(c, cfg, acts[0]);
      StepKeeps(c, cfg, acts[0]);
      StepBounded(c, cfg, acts[0]);
      RunKeeps(c1, cfg, acts[1..]);
      Chain(c, c1, After(c, cfg, acts));
    }
  }

  lemma SameGrows(c: Client)
    ensures Grows(c, c)
  {}

  function Count(c: Client, w: nat): nat {
    InQueue(c.callQueue)[w] + InFlight(c)[w] + InOutbox(c.eventOutbox)[w] + if w in c.settled then 1 else 0
  }

  lemma CountIs(c: Client, w: nat)
    requires Balanced(c, multiset{})
    ensures Count(c, w) == if w < c.issued then 1 else 0
  {
    hide InQueue, InFlight, InOutbox;
    var all: multiset<nat> := Places(c) + multiset{};
    assert all[w] == multiset(Issued(c.issued))[w];
  }

  /** From the start, over any run of enqueueing, coalescing, overflow, flushing, failing and closing: each
      waiter issued is in exactly one place, counting repetitions, and the queues keep to their limits. */
  lemma EveryRun(cfg: Config, acts: seq<Act>, w: nat)
    requires IsRun(NEW, cfg, acts)
    ensures var c := After(NEW, cfg, acts);
      Count(c, w) == (if w < c.issued then 1 else 0) && Bounded(c, cfg)
  {
    hide Step, Enabled, Count;
    assert Balanced(NEW, multiset{});
    RunKeeps(NEW, cfg, acts);
    CountIs(After(NEW, cfg, acts), w);
  }

  // ---------- Draining ----------

  /** close, reconnection given up, a fatal handshake error, and a handshake timeout without reconnection. */
  predicate Drains(c: Client, a: Act) {
    match a
    case CloseNow => true
    case ReconnectFailed => true
    case FatalHandshake(current, _) => current && c.state != Closed
    case HandshakeTimedOut(current, endpointReady) => current && !endpointReady && c.state != Closed && !c.coordinator
    case _ => false
  }

  lemma DrainingEmpties(c: Client, cfg: Config, a: Act)
    requires Enabled(c, a) && Drains(c, a)
    ensures var c' := Step(c, cfg, a);
      c'.state == Closed && c'.callQueue == [] && c'.eventOutbox == [] && c'.inFlight == c.inFlight
  {
    hide RejectCalls, RejectEvents, Drain;
    match a
    case CloseNow => DrainEmpties(SetState(c, Closed), TRANSPORT_DISCONNECTED);
    case ReconnectFailed =>
      RejectCallsEmpties(c, TRANSPORT_DISCONNECTED);
      RejectEventsEmpties(SetState(RejectCalls(c, TRANSPORT_DISCONNECTED), Closed), TRANSPORT_DISCONNECTED);
    case FatalHandshake(_, code) => DrainEmpties(c, code);
    case HandshakeTimedOut(_, _) => DrainEmpties(c, HANDSHAKE_TIMEOUT);
  }

  /** Each of these leaves the client closed and both queues empty; every waiter issued has its verdict,
      unless it waits for the call in flight. */
  lemma DrainPaths(c: Client, cfg: Config, a: Act, w: nat)
    requires Balanced(c, multiset{}) && Enabled(c, a) && Drains(c, a)
    ensures var c' := Step(c, cfg, a);
      && c'.state == Closed && c'.callQueue == [] && c'.eventOutbox == [] && c'.inFlight == c.inFlight
      && (w < c.issued ==> w in c'.settled || w in InFlight(c))
  {
    hide Balanced, InFlight, Step;
    StepKeeps(c, cfg, a);
    CountIs(Step(c, cfg, a), w);
    DrainingEmpties(c, cfg, a);
    SameFlight(c, Step(c, cfg, a));
  }

  /** A closed client takes nothing in, so what is empty stays empty. */
  lemma ClosedStaysEmpty(c: Client, cfg: Config, a: Act)
    requires c.state == Closed && c.callQueue == [] && c.eventOutbox == [] && Enabled(c, a)
    ensures var c' := Step(c, cfg, a); c'.state == Closed && c'.callQueue == [] && c'.eventOutbox == []
  {
    hide Settle;
    if a.CallEnds? {
      SettleFields(c.(inFlight := None), c.inFlight.value.waiters, a.verdict);
    }
    SettleFields(c.(issued := c.issued + 1), [c.issued], Failed(TRANSPORT_DISCONNECTED));
  }

  predicate Vacant(c: Client) {
    c.callQueue == [] && c.eventOutbox == []
  }

  /** Every waiter issued has its verdict, or waits for the call in flight. */
  ghost predicate Answered(c: Client) {
    forall w: nat :: w < c.issued ==> w in c.settled || w in InFlight(c)
  }

  lemma AnsweredIff(c: Client, cfg: Config)
    requires Balanced(c, multiset{}) && Bounded(c, cfg)
    ensures Answered(c) <==> Vacant(c)
  {
    hide Balanced, InFlight, UniqueKeys;
    if c.callQueue != [] {
      var w := c.callQueue[0].waiters[0];
      CountIs(c, w);
      assert InQueue(c.callQueue)[w] > 0;
      assert w < c.issued && w !in c.settled && w !in InFlight(c);
    } else if c.eventOutbox != [] {
      var w := c.eventOutbox[0].waiter;
      CountIs(c, w);
      assert InOutbox(c.eventOutbox)[w] > 0;
      assert w < c.issued && w !in c.settled && w !in InFlight(c);
    } else {
      forall w: nat | w < c.issued ensures w in c.settled || w in InFlight(c) { CountIs(c, w); }
    }
  }

  /** An endpoint that closes after the first ready, when there is no reconnection. */
  predicate ClosesUndrained(c: Client, a: Act) {
    a.EndpointClosed? && c.state != Closed && !c.coordinator && !c.firstReady
  }

  /** These five are the ways to close. */
  lemma ClosesWhen(c: Client, cfg: Config, a: Act)
    requires c.state != Closed && Enabled(c, a)
    ensures Step(c, cfg, a).state == Closed <==> Drains(c, a) || ClosesUndrained(c, a)
  {
    hide Flush, FlushOutbox, RejectCalls, RejectEvents, EnqueueCall, EnqueueEvent, FlushBoth, Drain, Settle;
    match a
    case EndpointReady(fault) => FlushBothState(if c.firstReady then c.(firstReady := false) else SetState(c, Ready), fault);
    case Connected(fault) => FlushBothState(SetState(c, Ready), fault);
    case ReconnectFailed =>
      RejectCallsEmpties(c, TRANSPORT_DISCONNECTED);
      RejectEventsEmpties(SetState(RejectCalls(c, TRANSPORT_DISCONNECTED), Closed), TRANSPORT_DISCONNECTED);
    case FatalHandshake(_, code) => DrainEmpties(c, code);
    case HandshakeTimedOut(_, _) => DrainEmpties(c, HANDSHAKE_TIMEOUT);
    case CloseNow => DrainEmpties(SetState(c, Closed), TRANSPORT_DISCONNECTED);
    case QueueCall(call, fault) => EnqueueCallState(c, cfg, call, fault);
    case QueueEvent(event, payload, fault) => EnqueueEventState(c, cfg, event, payload, fault);
    case CallEnds(v, fault) =>
      SettleFields(c.(inFlight := None), c.inFlight.value.waiters, v);
      FlushShrinks(Settle(c.(inFlight := None), c.inFlight.value.waiters, v), fault);
    case _ =>
  }

  lemma FlushBothState(c: Client, fault: Option<nat>)
    ensures FlushBoth(c, fault).state == c.state
  {
    hide Flush, FlushOutbox;
    FlushOutboxShrinks(c, fault);
    FlushShrinks(FlushOutbox(c, fault), fault);
  }

  lemma EnqueueCallState(c: Client, cfg: Config, call: Call, fault: Option<nat>)
    ensures EnqueueCall(c, cfg, call, fault).state == c.state
  {
    hide Flush, Find, Append, Coalesce;
    var waiter := c.issued;
    var c1 := c.(issued := c.issued + 1);
    AppendState(c1, cfg, call, waiter);
    FlushShrinks(Append(c1, cfg, call, waiter), fault);
    if call.coalesceKey.Some? && Find(c.callQueue, call.coalesceKey.value) < |c.callQueue| {
      CoalesceState(c1, Find(c.callQueue, call.coalesceKey.value), call, waiter);
      FlushShrinks(Coalesce(c1, Find(c.callQueue, call.coalesceKey.value), call, waiter), fault);
    }
  }

  lemma AppendState(c: Client, cfg: Config, call: Call, waiter: nat)
    ensures Append(c, cfg, call, waiter).state == c.state
  {}

  lemma CoalesceState(c: Client, at: nat, call: Call, waiter: nat)
    requires at < |c.callQueue|
    ensures Coalesce(c, at, call, waiter).state == c.state
  {}

  lemma EnqueueEventState(c: Client, cfg: Config, event: string, payload: int, fault: Option<nat>)
    ensures EnqueueEvent(c, cfg, event, payload, fault).state == c.state
  {
    hide FlushOutbox;
    FlushOutboxShrinks(AppendEvent(c.(issued := c.issued + 1), cfg, QueuedEvent(event, payload, c.issued)), fault);
  }

  /** However a client comes to close, its waiters are all answered and its queues empty, except when it is an
      endpoint's closing that closes it and something was queued. */
  lemma AnsweredOnClosing(c: Client, cfg: Config, a: Act)
    requires Balanced(c, multiset{}) && Bounded(c, cfg) && c.state != Closed && Enabled(c, a)
    requires Step(c, cfg, a).state == Closed
    ensures var c' := Step(c, cfg, a);
      && (Vacant(c') <==> !a.EndpointClosed? || Vacant(c))
      && (Answered(c') <==> !a.EndpointClosed? || Vacant(c))
  {
    hide Balanced, Bounded, Answered, Drain, RejectCalls, RejectEvents;
    ClosesWhen(c, cfg, a);
    StepKeeps(c, cfg, a);
    StepBounded(c, cfg, a);
    AnsweredIff(Step(c, cfg, a), cfg);
    if Drains(c, a) { DrainPaths(c, cfg, a, 0); }
  }

  /** Closed with something left in a queue. */
  predicate Stranded(c: Client) {
    c.state == Closed && !Vacant(c)
  }

  predicate Strands(c: Client, a: Act) {
    ClosesUndrained(c, a) && !Vacant(c)
  }

  lemma StrandedStep(c: Client, cfg: Config, a: Act)
    requires Enabled(c, a) && (Stranded(c) ==> !c.coordinator)
    ensures var c' := Step(c, cfg, a);
      (Stranded(c') <==> Strands(c, a) || (Stranded(c) && a != CloseNow)) && (Stranded(c') ==> !c'.coordinator)
  {
    hide Drain, RejectCalls, RejectEvents, Step, Balanced, InFlight;
    if c.state == Closed {
      if a == CloseNow { CloseEmpties(c, cfg); }
      else if Vacant(c) { ClosedStaysEmpty(c, cfg, a); }
      else { OnlyCloseReaches(c, cfg, a); }
    } else {
      ClosesWhen(c, cfg, a);
      if Drains(c, a) { DrainingEmpties(c, cfg, a); }
      else if ClosesUndrained(c, a) { EndpointCloseKeepsQueues(c, cfg); }
    }
  }

  lemma CloseEmpties(c: Client, cfg: Config)
    ensures Vacant(Step(c, cfg, CloseNow))
  {
    hide Drain;
    DrainEmpties(SetState(c, Closed), TRANSPORT_DISCONNECTED);
  }

  lemma EndpointCloseKeepsQueues(c: Client, cfg: Config)
    requires ClosesUndrained(c, EndpointClosed)
    ensures Step(c, cfg, EndpointClosed) == c.(endpoint := false, state := Closed)
  {}

  /** Somewhere in the run an endpoint's closing closed the client with something queued, and close() was not
      called after that. */
  ghost predicate LeftStranded(c: Client, cfg: Config, acts: seq<Act>)
    requires IsRun(c, cfg, acts)
  {
    exists k :: 0 <= k < |acts| && StrandsAt(c, cfg, acts, k) && CloseNow !in acts[k + 1..]
  }

  ghost predicate StrandsAt(c: Client, cfg: Config, acts: seq<Act>, k: nat)
    requires k < |acts|
  {
    IsRun(c, cfg, acts[..k]) && Strands(After(c, cfg, acts[..k]), acts[k])
  }

  lemma StrandsLater(c: Client, cfg: Config, acts: seq<Act>, k: nat)
    requires IsRun(c, cfg, acts) && 0 < k < |acts|
    ensures StrandsAt(c, cfg, acts, k) <==> StrandsAt(Step(c, cfg, acts[0]), cfg, acts[1..], k - 1)
  {
    hide Step, Strands, Enabled;
    assert acts[..k][1..] == acts[1..][..k - 1] && acts[..k][0] == acts[0] && acts[1..][k - 1] == acts[k];
  }

  lemma LeftStrandedStep(c: Client, cfg: Config, acts: seq<Act>)
    requires IsRun(c, cfg, acts) && acts != []
    ensures LeftStranded(c, cfg, acts) <==>
      (Strands(c, acts[0]) && CloseNow !in acts[1..]) || LeftStranded(Step(c, cfg, acts[0]), cfg, acts[1..])
  {
    hide Step, Strands, StrandsAt, Enabled;
    var c1 := Step(c, cfg, acts[0]);
    assert StrandsAt(c, cfg, acts, 0) <==> Strands(c, acts[0]) by { FirstStrands(c, cfg, acts); }
    if LeftStranded(c, cfg, acts) {
      var k :| 0 <= k < |acts| && StrandsAt(c, cfg, acts, k) && CloseNow !in acts[k + 1..];
      if k > 0 {
        StrandsLater(c, cfg, acts, k);
        assert acts[1..][k - 1 + 1..] == acts[k + 1..];
      }
    }
    if LeftStranded(c1, cfg, acts[1..]) {
      var k :| 0 <= k < |acts[1..]| && StrandsAt(c1, cfg, acts[1..], k) && CloseNow !in acts[1..][k + 1..];
      StrandsLater(c, cfg, acts, k + 1);
      assert acts[1..][k + 1..] == acts[k + 1 + 1..];
      assert StrandsAt(c, cfg, acts, k + 1);
    }
  }

  lemma FirstStrands(c: Client, cfg: Config, acts: seq<Act>)
    requires acts != []
    ensures StrandsAt(c, cfg, acts, 0) <==> Strands(c, acts[0])
  {
    hide Strands;
    assert acts[..0] == [];
  }

  lemma {:induction false} StrandedRun(c: Client, cfg: Config, acts: seq<Act>)
    requires IsRun(c, cfg, acts) && (Stranded(c) ==> !c.coordinator)
    ensures Stranded(After(c, cfg, acts)) <==> LeftStranded(c, cfg, acts) || (Stranded(c) && CloseNow !in acts)
    decreases |acts|
  {
    hide Step, Strands, StrandsAt, Enabled, Stranded, LeftStranded;
    if acts == [] {
      NothingLeft(c, cfg);
    } else {
      assert acts == [acts[0]] + acts[1..];
      StrandedStep(c, cfg, acts[0]);
      StrandedRun(Step(c, cfg, acts[0]), cfg, acts[1..]);
      LeftStrandedStep(c, cfg, acts);
    }
  }

  lemma NothingLeft(c: Client, cfg: Config)
    ensures !LeftStranded(c, cfg, [])
  {}

  /** From the start, over any run that ends closed: some waiter is left without an answer if and only if an
      endpoint's closing closed the client without reconnection, something was queued then, and close() was not
      called since. */
  lemma UnansweredExactlyWhen(cfg: Config, acts: seq<Act>)
    requires IsRun(NEW, cfg, acts) && After(NEW, cfg, acts).state == Closed
    ensures !Answered(After(NEW, cfg, acts)) <==> LeftStranded(NEW, cfg, acts)
  {
    hide Step, Enabled, Answered, LeftStranded, Balanced, Bounded, After, IsRun;
    assert Balanced(NEW, multiset{}) && Bounded(NEW, cfg) by { NewIsGood(cfg); }
    RunKeeps(NEW, cfg, acts);
    AnsweredIff(After(NEW, cfg, acts), cfg);
    StrandedRun(NEW, cfg, acts);
  }

  lemma NewIsGood(cfg: Config)
    ensures Balanced(NEW, multiset{}) && Bounded(NEW, cfg)
  {}

  lemma OnlyCloseReaches(c: Client, cfg: Config, a: Act)
    requires c.state == Closed && !c.coordinator && Enabled(c, a) && a != CloseNow
    ensures var c' := Step(c, cfg, a);
      c'.state == Closed && !c'.coordinator && c'.callQueue == c.callQueue && c'.eventOutbox == c.eventOutbox
  {
    hide Settle;
    if a.CallEnds? {
      SettleFields(c.(inFlight := None), c.inFlight.value.waiters, a.verdict);
    }
    SettleFields(c.(issued := c.issued + 1), [c.issued], Failed(TRANSPORT_DISCONNECTED));
  }

  // ---------- Flushing keeps the order ----------

  function SentOf(q: seq<QueuedCall>): (r: seq<Sent>)
    ensures |r| == |q|
  {
    seq(|q|, i requires 0 <= i < |q| => Sent(q[i].methodName, q[i].params, q[i].timeoutMs))
  }

  function Endings(vs: seq<Verdict>): (r: seq<Act>)
    ensures |r| == |vs|
  {
    seq(|vs|, i requires 0 <= i < |vs| => CallEnds(vs[i], None))
  }

  lemma OneEnding(c: Client, cfg: Config, v: Verdict)
    requires CanSend(c) && c.inFlight.Some?
    ensures var c' := Step(c, cfg, CallEnds(v, None));
      if c.callQueue == [] then c'.inFlight == None && c'.sent == c.sent && c'.callQueue == []
      else
        && CanSend(c') && c'.inFlight == Some(c.callQueue[0]) && c'.callQueue == c.callQueue[1..]
        && c'.sent == c.sent + SentOf(c.callQueue[..1])
  {
    hide Settle;
    SettleFields(c.(inFlight := None), c.inFlight.value.waiters, v);
  }

  /** A ready client whose calls end one after another, however they end, sends the queue in its order. */
  lemma {:induction false} FlushSendsInOrder(c: Client, cfg: Config, vs: seq<Verdict>)
    requires CanSend(c) && c.inFlight.Some? && |vs| == |c.callQueue| + 1
    ensures IsRun(c, cfg, Endings(vs))
    ensures var c' := After(c, cfg, Endings(vs));
      c'.sent == c.sent + SentOf(c.callQueue) && c'.callQueue == [] && c'.inFlight == None
    decreases |vs|
  {
    hide Step, CanSend;
    var a := CallEnds(vs[0], None);
    assert Endings(vs)[0] == a && Endings(vs)[1..] == Endings(vs[1..]);
    OneEnding(c, cfg, vs[0]);
    if c.callQueue == [] {
      assert Endings(vs[1..]) == [] && SentOf(c.callQueue) == [];
    } else {
      FlushSendsInOrder(Step(c, cfg, a), cfg, vs[1..]);
      assert SentOf(c.callQueue) == SentOf(c.callQueue[..1]) + SentOf(c.callQueue[1..]);
    }
  }
}
