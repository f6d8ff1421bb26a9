/** What coalescing in the client's call queue comes to (src/sdk/client.ts). */
module Coalescing {
  import opened Bytes
  import opened ClientQueue

  /** A client that neither sends nor refuses: it only queues. */
  predicate Offline(c: Client) {
    c.state != Closed && !CanSend(c)
  }

  function EnqueueAll(c: Client, cfg: Config, history: seq<Call>): Client {
    if history == [] then c
    else EnqueueCall(EnqueueAll(c, cfg, history[..|history| - 1]), cfg, history[|history| - 1], None)
  }

  // ---------- The specification, by places in the history ----------

  /** The call opens a place in the queue: it has no key, or no call before it has its key. */
  ghost predicate Leads(h: seq<Call>, i: nat)
    requires i < |h|
  {
    h[i].coalesceKey == None || forall j :: 0 <= j < i ==> h[j].coalesceKey != h[i].coalesceKey
  }

  ghost function Leaders(h: seq<Call>): (r: seq<nat>)
    ensures forall k :: 0 <= k < |r| ==> r[k] < |h|
  {
    if h == [] then []
    else
      var n := |h| - 1;
      Leaders(h[..n]) + if Leads(h, n) then [n] else []
  }

  /** The last call with a key. */
  function Latest(h: seq<Call>, key: string, default: nat): (i: nat)
    requires default < |h|
    ensures i < |h|
  {
    var n := |h| - 1;
    if h[n].coalesceKey == Some(key) then n
    else if default < n then Latest(h[..n], key, default)
    else default
  }

  /** The waiters of a key: all since the last call that did not keep the earlier ones. */
  function WaitersOf(h: seq<Call>, first: nat, key: string): seq<nat> {
    if h == [] then []
    else
      var n := |h| - 1;
      if h[n].coalesceKey != Some(key) then WaitersOf(h[..n], first, key)
      else if h[n].previous == ResolveWithNext then WaitersOf(h[..n], first, key) + [first + n]
      else [first + n]
  }

  /** What stands in the place that a call opened. */
  function Shown(h: seq<Call>, first: nat, i: nat): QueuedCall
    requires i < |h|
  {
    if h[i].coalesceKey == None then QueuedCall(h[i].methodName, h[i].params, h[i].timeoutMs, None, [first + i])
    else
      var l := Latest(h, h[i].coalesceKey.value, i);
      QueuedCall(h[l].methodName, h[l].params, h[l].timeoutMs, h[i].coalesceKey, WaitersOf(h, first, h[i].coalesceKey.value))
  }

  ghost function Coalesced(h: seq<Call>, first: nat): (q: seq<QueuedCall>)
    ensures |q| == |Leaders(h)|
  {
    seq(|Leaders(h)|, k requires 0 <= k < |Leaders(h)| => Shown(h, first, Leaders(h)[k]))
  }

  // ---------- One more call ----------

  lemma ShownElsewhere(h: seq<Call>, c: Call, first: nat, i: nat)
    requires i < |h| && (h[i].coalesceKey == None || h[i].coalesceKey != c.coalesceKey)
    ensures Shown(h + [c], first, i) == Shown(h, first, i)
  {
    assert (h + [c])[..|h|] == h;
  }

  lemma {:induction false} HasLeader(h: seq<Call>, key: string) returns (k: nat)
    requires exists i :: 0 <= i < |h| && h[i].coalesceKey == Some(key)
    ensures k < |Leaders(h)| && h[Leaders(h)[k]].coalesceKey == Some(key)
  {
    var n := |h| - 1;
    if exists i :: 0 <= i < n && h[..n][i].coalesceKey == Some(key) {
      k := HasLeader(h[..n], key);
    } else {
      assert forall i :: 0 <= i < n ==> h[..n][i] == h[i];
      k := |Leaders(h[..n])|;
    }
  }

  /** Leaders with keys have different keys. */
  lemma {:induction false} LeadersDiffer(h: seq<Call>, k: nat, l: nat)
    requires k < l < |Leaders(h)| && h[Leaders(h)[l]].coalesceKey.Some?
    ensures h[Leaders(h)[k]].coalesceKey != h[Leaders(h)[l]].coalesceKey
  {
    var n := |h| - 1;
    if l < |Leaders(h[..n])| {
      LeadersDiffer(h[..n], k, l);
    } else {
      assert Leaders(h)[l] == n && Leaders(h)[k] == Leaders(h[..n])[k] < n;
    }
  }

  lemma {:induction false} NoWaiters(h: seq<Call>, first: nat, key: string)
    requires forall i :: 0 <= i < |h| ==> h[i].coalesceKey != Some(key)
    ensures WaitersOf(h, first, key) == []
  {
    if h != [] { NoWaiters(h[..|h| - 1], first, key); }
  }

  /** A call that opens a place. */
  lemma CoalescedNew(h: seq<Call>, c: Call, first: nat)
    requires Leads(h + [c], |h|)
    ensures Coalesced(h + [c], first) == Coalesced(h, first) + [NewItem(c, first + |h|)]
  {
    var g := h + [c];
    assert g[..|h|] == h;
    assert Leaders(g) == Leaders(h) + [|h|];
    forall k | 0 <= k < |Leaders(h)| ensures Shown(g, first, Leaders(h)[k]) == Shown(h, first, Leaders(h)[k]) {
      assert g[Leaders(h)[k]] == h[Leaders(h)[k]];
      ShownElsewhere(h, c, first, Leaders(h)[k]);
    }
    assert Shown(g, first, |h|) == NewItem(c, first + |h|) by {
      if c.coalesceKey.Some? {
        assert forall i :: 0 <= i < |h| ==> g[i].coalesceKey != Some(c.coalesceKey.value);
        NoWaiters(h, first, c.coalesceKey.value);
      }
    }
  }

  lemma ShownAgain(h: seq<Call>, c: Call, first: nat, i: nat)
    requires i < |h| && h[i].coalesceKey == c.coalesceKey && c.coalesceKey.Some?
    ensures Shown(h + [c], first, i) == Superseding(Shown(h, first, i), c, first + |h|)
  {
    assert (h + [c])[..|h|] == h;
  }

  lemma LeadersAgain(h: seq<Call>, c: Call, i: nat)
    requires i < |h| && h[i].coalesceKey == c.coalesceKey && c.coalesceKey.Some?
    ensures Leaders(h + [c]) == Leaders(h)
  {
    var g := h + [c];
    assert g[..|h|] == h;
    assert !Leads(g, |h|) by { assert g[i].coalesceKey == g[|h|].coalesceKey; }
  }

  /** A call with a key that already has a place. */
  lemma CoalescedAgain(h: seq<Call>, c: Call, first: nat, k: nat)
    requires c.coalesceKey.Some? && k < |Leaders(h)| && h[Leaders(h)[k]].coalesceKey == c.coalesceKey
    ensures Coalesced(h + [c], first) == Coalesced(h, first)[k := Superseding(Coalesced(h, first)[k], c, first + |h|)]
  {
    hide Shown, Superseding, Leaders;
    LeadersAgain(h, c, Leaders(h)[k]);
    ShownAgain(h, c, first, Leaders(h)[k]);
    forall l | 0 <= l < |Leaders(h)| && l != k ensures Shown(h + [c], first, Leaders(h)[l]) == Shown(h, first, Leaders(h)[l]) {
      if l < k { LeadersDiffer(h, l, k); } else if h[Leaders(h)[l]].coalesceKey.Some? { LeadersDiffer(h, k, l); }
      ShownElsewhere(h, c, first, Leaders(h)[l]);
    }
  }

  lemma FlushOffline(c: Client, fault: Option<nat>)
    requires !CanSend(c)
    ensures Flush(c, fault) == c
  {}

  /** Coalescing refines its specification: while a client only queues and its limit is not reached, the queue
      holds, for each key at the place of its first call and for each call without a key at its own, the
      latest method, parameters and timeout, with the waiters that the latest calls have kept. */
  lemma {:induction false} QueueIsCoalesced(c: Client, cfg: Config, h: seq<Call>)
    requires Offline(c) && c.callQueue == [] && |Leaders(h)| <= cfg.calls.maxSize
    ensures var c' := EnqueueAll(c, cfg, h);
      && c'.callQueue == Coalesced(h, c.issued) && c'.issued == c.issued + |h|
      && Offline(c') && c'.inFlight == c.inFlight && c'.sent == c.sent
  {
    if h == [] {
      assert Coalesced(h, c.issued) == [];
    } else {
      var n := |h| - 1;
      var g, call := h[..n], h[n];
      assert h == g + [call];
      assert |Leaders(g)| <= |Leaders(h)|;
      QueueIsCoalesced(c, cfg, g);
      EnqueueOne(EnqueueAll(c, cfg, g), cfg, g, call, c.issued);
    }
  }

  lemma EnqueueOne(c: Client, cfg: Config, h: seq<Call>, call: Call, first: nat)
    requires Offline(c) && c.callQueue == Coalesced(h, first) && c.issued == first + |h| && |Leaders(h + [call])| <= cfg.calls.maxSize
    ensures var c' := EnqueueCall(c, cfg, call, None);
      && c'.callQueue == Coalesced(h + [call], first) && c'.issued == c.issued + 1
      && Offline(c') && c'.inFlight == c.inFlight && c'.sent == c.sent
  {
    hide Settle, Coalesced, Flush, Superseding, Leaders;
    var c1 := c.(issued := c.issued + 1);
    var g := h + [call];
    if call.coalesceKey.Some? && Find(c.callQueue, call.coalesceKey.value) < |c.callQueue| {
      var k := Find(c.callQueue, call.coalesceKey.value);
      KeyAt(h, first, k);
      CoalescedAgain(h, call, first, k);
      SettleFields(c1, c.callQueue[k].waiters, Resolved(None));
      SettleFields(c1, c.callQueue[k].waiters, Failed(INVALID_STATE));
      FlushOffline(Coalesce(c1, k, call, c.issued), None);
    } else {
      assert Leads(g, |h|) by { NotFound(c.callQueue, h, call, first); }
      LeadersGrow(h, call);
      CoalescedNew(h, call, first);
      FlushOffline(Append(c1, cfg, call, c.issued), None);
    }
  }

  lemma KeyAt(h: seq<Call>, first: nat, k: nat)
    requires k < |Coalesced(h, first)|
    ensures k < |Leaders(h)| && h[Leaders(h)[k]].coalesceKey == Coalesced(h, first)[k].coalesceKey
  {}

  lemma LeadersGrow(h: seq<Call>, call: Call)
    requires Leads(h + [call], |h|)
    ensures |Leaders(h + [call])| == |Leaders(h)| + 1
  {
    assert (h + [call])[..|h|] == h;
  }

  lemma NotFound(q: seq<QueuedCall>, h: seq<Call>, call: Call, first: nat)
    requires q == Coalesced(h, first) && (call.coalesceKey.Some? ==> Find(q, call.coalesceKey.value) == |q|)
    ensures Leads(h + [call], |h|)
  {
    hide Leaders, Coalesced;
    if call.coalesceKey.Some? {
      var key := call.coalesceKey.value;
      forall j | 0 <= j < |h| ensures h[j].coalesceKey != Some(key) {
        if h[j].coalesceKey == Some(key) {
          var k := HasLeader(h, key);
          CoalescedSize(h, first);
          KeyAt(h, first, k);
          assert false;
        }
      }
    }
  }

  lemma CoalescedSize(h: seq<Call>, first: nat)
    ensures |Coalesced(h, first)| == |Leaders(h)|
  {}

  /** No key stands in the queue twice. */
  lemma CoalescedKeysUnique(h: seq<Call>, first: nat)
    ensures UniqueKeys(Coalesced(h, first))
  {
    var q := Coalesced(h, first);
    forall i, j | 0 <= i < j < |q| && q[i].coalesceKey.Some? ensures q[i].coalesceKey != q[j].coalesceKey {
      KeyAt(h, first, i);
      KeyAt(h, first, j);
      if q[j].coalesceKey.Some? { LeadersDiffer(h, i, j); }
    }
  }
}
