/** The client object: its queues, its waiters and its connection state (src/sdk/client.ts). */
module ClientDelivery {
  import opened Bytes
  import opened ClientQueue

  lemma NobodyTold(settled: map<nat, Verdict>, ws: seq<nat>, v: Verdict)
    requires ws == []
    ensures settled + Verdicts(ws, v) == settled
  {}

  lemma OneMoreTold(settled: map<nat, Verdict>, ws: seq<nat>, n: nat, v: Verdict)
    requires n < |ws|
    ensures settled + Verdicts(ws[..n + 1], v) == (settled + Verdicts(ws[..n], v))[ws[n] := v]
  {
    assert ws[..n + 1] == ws[..n] + [ws[n]];
  }

  /** Settling does not look at the queue. */
  lemma SettleApart(c: Client, q: seq<QueuedCall>, r: seq<QueuedCall>, ws: seq<nat>, v: Verdict)
    ensures Settle(c.(callQueue := q), ws, v).(callQueue := r) == Settle(c.(callQueue := r), ws, v)
  {}

  lemma SettleApartEvents(c: Client, q: seq<QueuedEvent>, r: seq<QueuedEvent>, ws: seq<nat>, v: Verdict)
    ensures Settle(c.(eventOutbox := q), ws, v).(eventOutbox := r) == Settle(c.(eventOutbox := r), ws, v)
  {}

  class AxtpClient {
    const config: Config
    var state: ClientState
    var endpoint: bool
    var coordinator: bool
    var firstReady: bool
    var callQueue: seq<QueuedCall>
    var inFlight: Option<QueuedCall>
    var eventOutbox: seq<QueuedEvent>
    var sent: seq<Sent>
    var emitted: seq<(string, int)>
    var settled: map<nat, Verdict>
    var issued: nat

    ghost function View(): Client
      reads this
    {
      Client(state, endpoint, coordinator, firstReady, callQueue, inFlight, eventOutbox, sent, emitted, settled, issued)
    }

    constructor (config: Config)
      ensures View() == NEW && this.config == config
    {
      this.config := config;
      state, endpoint, coordinator, firstReady := Idle, false, false, true;
      callQueue, inFlight, eventOutbox, sent, emitted, settled, issued := [], None, [], [], [], map[], 0;
    }

    method ChangeState(s: ClientState)
      modifies this`state
      ensures View() == SetState(old(View()), s)
    {
      if state == s || state == Closed { return; }
      state := s;
    }

    method IssueWaiter() returns (waiter: nat)
      modifies this`issued
      ensures waiter == old(issued) && View() == old(View()).(issued := old(issued) + 1)
    {
      waiter := issued;
      issued := issued + 1;
    }

    /** Tells each waiter of an item, one after another. */
    method Tell(waiters: seq<nat>, v: Verdict)
      modifies this`settled
      ensures View() == Settle(old(View()), waiters, v)
    {
      hide Verdicts;
      NobodyTold(settled, waiters[..0], v);
      for n := 0 to |waiters|
        invariant settled == old(settled) + Verdicts(waiters[..n], v)
      {
        OneMoreTold(old(settled), waiters, n, v);
        settled := settled[waiters[n] := v];
      }
      assert waiters[..|waiters|] == waiters;
    }

    method EnqueueCallNow(call: Call, fault: Option<nat>) returns (waiter: nat)
      modifies this
      ensures View() == EnqueueCall(old(View()), config, call, fault) && waiter == old(issued)
    {
      hide Settle, Flush, Append, Coalesce;
      waiter := IssueWaiter();
      if state == Closed {
        Tell([waiter], Failed(TRANSPORT_DISCONNECTED));
        return;
      }
      if call.coalesceKey.Some? {
        var at := FindKey(call.coalesceKey.value);
        if at < |callQueue| {
          Supersede(at, call, waiter);
          FlushCallQueue(fault);
          return;
        }
      }
      var full := |callQueue| >= config.calls.maxSize;
      AppendCall(call, waiter);
      if full && config.calls.overflow != DropOldest { return; }
      FlushCallQueue(fault);
    }

    method FindKey(key: string) returns (at: nat)
      ensures at == Find(callQueue, key)
    {
      at := 0;
      while at < |callQueue| && callQueue[at].coalesceKey != Some(key)
        invariant at <= |callQueue|
        invariant Find(callQueue, key) == at + Find(callQueue[at..], key)
      {
        assert callQueue[at..][1..] == callQueue[at + 1..];
        at := at + 1;
      }
    }

    /** The new call takes over the place, and the earlier waiters with it or not. */
    method Supersede(at: nat, call: Call, waiter: nat)
      requires at < |callQueue|
      modifies this`callQueue, this`settled
      ensures View() == Coalesce(old(View()), at, call, waiter)
    {
      hide Settle;
      var existing := callQueue[at];
      var waiters := [waiter];
      if call.previous == ResolveWithNext {
        waiters := existing.waiters + waiters;
      } else if call.previous == DropPrevious {
        Tell(existing.waiters, Resolved(None));
        SettleFields(old(View()), existing.waiters, Resolved(None));
      } else {
        Tell(existing.waiters, Failed(INVALID_STATE));
        SettleFields(old(View()), existing.waiters, Failed(INVALID_STATE));
      }
      callQueue := callQueue[at := QueuedCall(call.methodName, call.params, call.timeoutMs, existing.coalesceKey, waiters)];
    }

    method AppendCall(call: Call, waiter: nat)
      modifies this`callQueue, this`settled
      ensures View() == Append(old(View()), config, call, waiter)
    {
      hide Settle;
      if |callQueue| >= config.calls.maxSize {
        if config.calls.overflow == Refuse {
          Tell([waiter], Failed(INVALID_STATE));
          return;
        }
        if config.calls.overflow == DropNewest {
          Tell([waiter], Resolved(None));
          return;
        }
        if callQueue != [] {
          var dropped := callQueue[0];
          callQueue := callQueue[1..];
          Tell(dropped.waiters, Resolved(None));
          SettleApart(old(View()), callQueue, callQueue + [NewItem(call, waiter)], dropped.waiters, Resolved(None));
        }
      }
      callQueue := callQueue + [QueuedCall(call.methodName, call.params, call.timeoutMs, call.coalesceKey, [waiter])];
    }

    /** Sends until something is in flight, or the queue is empty, or the client is not ready. */
    method FlushCallQueue(fault: Option<nat>)
      modifies this`callQueue, this`inFlight, this`sent, this`settled
      ensures View() == Flush(old(View()), fault)
    {
      hide Settle;
      if inFlight.Some? { return; }
      while state == Ready && endpoint && callQueue != []
        invariant inFlight == None
        invariant Flush(View(), fault) == Flush(old(View()), fault)
        decreases |callQueue|
      {
        var item := callQueue[0];
        callQueue := callQueue[1..];
        if fault.Some? {
          ghost var rest := View();
          Tell(item.waiters, Failed(fault.value));
          SettleFields(rest, item.waiters, Failed(fault.value));
        } else {
          sent := sent + [Sent(item.methodName, item.params, item.timeoutMs)];
          inFlight := Some(item);
          return;
        }
      }
    }

    method CallEnded(v: Verdict, fault: Option<nat>)
      modifies this`callQueue, this`inFlight, this`sent, this`settled
      ensures View() == Finish(old(View()), v, fault)
    {
      hide Settle, Flush;
      if inFlight == None { return; }
      var item := inFlight.value;
      inFlight := None;
      Tell(item.waiters, v);
      FlushCallQueue(fault);
    }

    method RejectCallQueue(code: nat)
      modifies this`callQueue, this`settled
      ensures View() == RejectCalls(old(View()), code)
    {
      hide Settle;
      while callQueue != []
        invariant RejectCalls(View(), code) == RejectCalls(old(View()), code)
        decreases |callQueue|
      {
        var item := callQueue[0];
        callQueue := callQueue[1..];
        ghost var rest := View();
        Tell(item.waiters, Failed(code));
        SettleFields(rest, item.waiters, Failed(code));
      }
    }

    method RejectOutbox(code: nat)
      modifies this`eventOutbox, this`settled
      ensures View() == RejectEvents(old(View()), code)
    {
      hide Settle;
      while eventOutbox != []
        invariant RejectEvents(View(), code) == RejectEvents(old(View()), code)
        decreases |eventOutbox|
      {
        var item := eventOutbox[0];
        eventOutbox := eventOutbox[1..];
        ghost var rest := View();
        Tell([item.waiter], Failed(code));
        SettleFields(rest, [item.waiter], Failed(code));
      }
    }

    method FlushEventOutbox(fault: Option<nat>)
      modifies this`eventOutbox, this`emitted, this`settled
      ensures View() == FlushOutbox(old(View()), fault)
    {
      hide Settle;
      while state == Ready && endpoint && eventOutbox != []
        invariant FlushOutbox(View(), fault) == FlushOutbox(old(View()), fault)
        decreases |eventOutbox|
      {
        var item := eventOutbox[0];
        eventOutbox := eventOutbox[1..];
        if fault == None { emitted := emitted + [(item.event, item.payload)]; }
        ghost var rest := View();
        var v := if fault.Some? then Failed(fault.value) else Resolved(None);
        Tell([item.waiter], v);
        SettleFields(rest, [item.waiter], v);
      }
    }

    method EnqueueEventNow(event: string, payload: int, fault: Option<nat>) returns (waiter: nat)
      modifies this
      ensures View() == EnqueueEvent(old(View()), config, event, payload, fault) && waiter == old(issued)
    {
      hide Settle, FlushOutbox, AppendEvent;
      waiter := IssueWaiter();
      if state == Closed {
        Tell([waiter], Failed(TRANSPORT_DISCONNECTED));
        return;
      }
      if !config.queueEvents && !(state == Ready && endpoint) {
        Tell([waiter], Failed(if state == Reconnecting then TRANSPORT_DISCONNECTED else INVALID_STATE));
        return;
      }
      var full := |eventOutbox| >= config.events.maxSize;
      AppendOne(QueuedEvent(event, payload, waiter));
      if full && config.events.overflow != DropOldest { return; }
      FlushEventOutbox(fault);
    }

    method AppendOne(item: QueuedEvent)
      modifies this`eventOutbox, this`settled
      ensures View() == AppendEvent(old(View()), config, item)
    {
      hide Settle;
      if |eventOutbox| >= config.events.maxSize {
        if config.events.overflow == Refuse {
          Tell([item.waiter], Failed(INVALID_STATE));
          return;
        }
        if config.events.overflow == DropNewest {
          Tell([item.waiter], Resolved(None));
          return;
        }
        if eventOutbox != [] {
          var dropped := eventOutbox[0];
          eventOutbox := eventOutbox[1..];
          Tell([dropped.waiter], Resolved(None));
          SettleApartEvents(old(View()), eventOutbox, eventOutbox + [item], [dropped.waiter], Resolved(None));
        }
      }
      assert [] + [item] == [item];
      eventOutbox := eventOutbox + [item];
    }

    // ----- Coming and going -----

    method OnEndpointReady(fault: Option<nat>)
      modifies this
      ensures View() == Step(old(View()), config, EndpointReady(fault))
    {
      hide Flush, FlushOutbox, EnqueueCall, EnqueueEvent, Finish, Drain, RejectCalls, RejectEvents;
      if firstReady { firstReady := false; } else { ChangeState(Ready); }
      FlushEventOutbox(fault);
      FlushCallQueue(fault);
    }

    method OnEndpointClose()
      modifies this
      ensures View() == Step(old(View()), config, EndpointClosed)
    {
      hide Flush, FlushOutbox, EnqueueCall, EnqueueEvent, Finish, Drain, RejectCalls, RejectEvents, FlushBoth;
      if state == Closed { return; }
      endpoint := false;
      if firstReady {
        if coordinator { ChangeState(Reconnecting); }
      } else if coordinator {
        ChangeState(Reconnecting);
      } else {
        ChangeState(Closed);
      }
    }

    method HandleReconnectFailed()
      modifies this
      ensures View() == Step(old(View()), config, ReconnectFailed)
    {
      hide Flush, FlushOutbox, EnqueueCall, EnqueueEvent, Finish, Drain, RejectCalls, RejectEvents, FlushBoth;
      RejectCallQueue(TRANSPORT_DISCONNECTED);
      ChangeState(Closed);
      RejectOutbox(TRANSPORT_DISCONNECTED);
    }

    method OnFatalHandshakeError(current: bool, code: nat)
      modifies this
      ensures View() == Step(old(View()), config, FatalHandshake(current, code))
    {
      hide Flush, FlushOutbox, EnqueueCall, EnqueueEvent, Finish, RejectCalls, RejectEvents, FlushBoth;
      if !current || state == Closed { return; }
      RejectCallQueue(code);
      RejectOutbox(code);
      ChangeState(Closed);
    }

    method HandshakeTimerFired(current: bool, endpointReady: bool)
      modifies this
      ensures View() == Step(old(View()), config, HandshakeTimedOut(current, endpointReady))
    {
      hide Flush, FlushOutbox, EnqueueCall, EnqueueEvent, Finish, RejectCalls, RejectEvents, FlushBoth;
      if !current || endpointReady || state == Closed { return; }
      if !coordinator {
        RejectCallQueue(HANDSHAKE_TIMEOUT);
        RejectOutbox(HANDSHAKE_TIMEOUT);
        ChangeState(Closed);
      }
    }

    method Close()
      modifies this
      ensures View() == Step(old(View()), config, CloseNow)
    {
      hide Flush, FlushOutbox, EnqueueCall, EnqueueEvent, Finish, RejectCalls, RejectEvents, FlushBoth;
      ChangeState(Closed);
      RejectCallQueue(TRANSPORT_DISCONNECTED);
      RejectOutbox(TRANSPORT_DISCONNECTED);
    }
  }
}
