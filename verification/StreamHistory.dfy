/** What a stream hears and counts, told from the history of the registry alone (src/endpoint/streamRegistry.ts). */
module StreamHistory {
  import opened Bytes
  import opened StreamRegistry

  // ---------- Read off the history ----------

  /** The act that opened the stream now open under an id: its adoption, if nothing has closed it since. */
  function Opening(acts: seq<Act>, id: nat): (k: Option<nat>)
    ensures k.Some? ==> k.value < |acts| && acts[k.value] == AdoptAct(id) && id != 0
  {
    if acts == [] then None
    else
      var n := |acts| - 1;
      var before := Opening(acts[..n], id);
      match acts[n]
      case AdoptAct(i) => if i == id && id != 0 && before == None then Some(n) else before
      case CloseAct(i) => if i == id then None else before
      case AbortAct(_) => None
      case _ => before
  }

  /** How many streams were adopted; the serial of a stream is how many were before it. */
  function Adoptions(acts: seq<Act>): nat {
    if acts == [] then 0
    else
      var n := |acts| - 1;
      Adoptions(acts[..n]) + if acts[n].AdoptAct? && Opening(acts, acts[n].id) == Some(n) then 1 else 0
  }

  /** Its callbacks were taken over since. */
  predicate Attached(acts: seq<Act>, id: nat, since: nat) {
    exists j :: since < j < |acts| && acts[j] == AttachAct(id)
  }

  predicate Listening(acts: seq<Act>, id: nat) {
    Opening(acts, id).Some? && Attached(acts, id, Opening(acts, id).value)
  }

  function SerialOf(acts: seq<Act>, id: nat): nat
    requires Opening(acts, id).Some?
  {
    Adoptions(acts[..Opening(acts, id).value])
  }

  /** The data that arrived under an id since an act. */
  function Arrived(acts: seq<Act>, id: nat, since: nat): seq<seq<int>> {
    if |acts| <= since + 1 then []
    else
      var n := |acts| - 1;
      Arrived(acts[..n], id, since) + if acts[n].DataAct? && acts[n].id == id then [acts[n].data] else []
  }

  function Total(chunks: seq<seq<int>>): nat {
    if chunks == [] then 0 else Total(chunks[..|chunks| - 1]) + |chunks[|chunks| - 1]|
  }

  /** What the streams were told, in order: a listening stream hears its data and its close. */
  function Said(acts: seq<Act>): seq<Callback> {
    if acts == [] then []
    else
      var n := |acts| - 1;
      var h := acts[..n];
      Said(h) +
      match acts[n]
      case DataAct(id, data) => if Listening(h, id) then [OnChunk(SerialOf(h, id), data)] else []
      case CloseAct(id) => Goodbye(h, id)
      case AbortAct(order) => Goodbyes(h, order)
      case _ => []
  }

  function Goodbye(acts: seq<Act>, id: nat): seq<Callback> {
    if Listening(acts, id) then [OnClose(SerialOf(acts, id))] else []
  }

  /** Each id of an order once. */
  function Goodbyes(acts: seq<Act>, order: seq<nat>): seq<Callback> {
    if order == [] then []
    else
      var n := |order| - 1;
      Goodbyes(acts, order[..n]) + if order[n] in order[..n] then [] else Goodbye(acts, order[n])
  }

  // ---------- The registry keeps to it ----------

  ghost predicate EntryFollows(s: State, acts: seq<Act>, id: nat) {
    && (id in s.streams <==> Opening(acts, id).Some?)
    && (id in s.streams ==>
          var k := Opening(acts, id).value;
          s.streams[id] == Entry(Adoptions(acts[..k]), |Arrived(acts, id, k)|, Total(Arrived(acts, id, k)), Attached(acts, id, k)))
  }

  ghost predicate Follows(s: State, acts: seq<Act>) {
    && s.adopted == Adoptions(acts) && s.log == Said(acts)
    && forall id :: EntryFollows(s, acts, id)
  }

  lemma Snoc(h: seq<Act>, a: Act)
    ensures (h + [a])[..|h|] == h && |h + [a]| - 1 == |h| && (h + [a])[|h|] == a
  {}

  lemma AttachedSnoc(h: seq<Act>, a: Act, id: nat, since: nat)
    ensures Attached(h + [a], id, since) <==> Attached(h, id, since) || (since < |h| && a == AttachAct(id))
  {
    Snoc(h, a);
    var all := h + [a];
    if j :| since < j < |h| && h[j] == AttachAct(id) { assert all[j] == AttachAct(id); }
    if since < |h| && a == AttachAct(id) { assert all[|h|] == AttachAct(id); }
  }

  lemma ArrivedSnoc(h: seq<Act>, a: Act, id: nat, since: nat)
    requires since < |h|
    ensures Arrived(h + [a], id, since) == if a.DataAct? && a.id == id then Arrived(h, id, since) + [a.data] else Arrived(h, id, since)
  {
    Snoc(h, a);
  }

  lemma OpeningSnoc(h: seq<Act>, a: Act, id: nat)
    requires Opening(h, id).Some? && (a.CloseAct? ==> a.id != id) && !a.AbortAct?
    ensures Opening(h + [a], id) == Opening(h, id)
    ensures var k := Opening(h, id).value; (h + [a])[..k] == h[..k]
  {
    Snoc(h, a);
  }

  lemma TotalSnoc(chunks: seq<seq<int>>, data: seq<int>)
    ensures Total(chunks + [data]) == Total(chunks) + |data|
  {
    assert (chunks + [data])[..|chunks|] == chunks;
  }

  /** An id that an act does not concern. */
  lemma OthersFollow(s: State, h: seq<Act>, a: Act, s': State, id: nat)
    requires EntryFollows(s, h, id) && !a.AbortAct?
    requires a.AdoptAct? || a.AttachAct? || a.DataAct? || a.CloseAct? ==> a.id != id
    requires (id in s'.streams <==> id in s.streams) && (id in s.streams ==> s'.streams[id] == s.streams[id])
    ensures EntryFollows(s', h + [a], id)
  {
    hide Adoptions, Total;
    Snoc(h, a);
    var k := Opening(h, id);
    if k.Some? {
      AttachedSnoc(h, a, id, k.value);
      ArrivedSnoc(h, a, id, k.value);
      OpeningSnoc(h, a, id);
    }
  }

  lemma AdoptFollows(s: State, h: seq<Act>, id: nat)
    requires Follows(s, h)
    ensures Follows(Adopt(s, id).0, h + [AdoptAct(id)])
  {
    hide EntryFollows;
    var a := AdoptAct(id);
    var s' := Adopt(s, id).0;
    Snoc(h, a);
    assert EntryFollows(s, h, id);
    assert EntryFollows(s', h + [a], id) by { AdoptedFollows(s, h, id); }
    forall i ensures EntryFollows(s', h + [a], i) {
      assert EntryFollows(s, h, i);
      if i != id { OthersFollow(s, h, a, s', i); }
    }
    OpenMeans(s, h, id);
  }

  lemma OpenMeans(s: State, h: seq<Act>, id: nat)
    requires EntryFollows(s, h, id)
    ensures id in s.streams <==> Opening(h, id).Some?
    ensures id in s.streams ==> s.streams[id].serial == SerialOf(h, id) && (s.streams[id].handled <==> Listening(h, id))
  {}

  lemma AdoptedFollows(s: State, h: seq<Act>, id: nat)
    requires EntryFollows(s, h, id) && s.adopted == Adoptions(h)
    ensures EntryFollows(Adopt(s, id).0, h + [AdoptAct(id)], id)
  {
    var a := AdoptAct(id);
    Snoc(h, a);
    var k := Opening(h, id);
    if k.Some? {
      AttachedSnoc(h, a, id, k.value);
      ArrivedSnoc(h, a, id, k.value);
      OpeningSnoc(h, a, id);
    }
  }

  lemma AttachFollows(s: State, h: seq<Act>, id: nat)
    requires Follows(s, h)
    ensures Follows(Attach(s, id), h + [AttachAct(id)])
  {
    hide EntryFollows;
    var a := AttachAct(id);
    Snoc(h, a);
    assert EntryFollows(s, h, id);
    assert EntryFollows(Attach(s, id), h + [a], id) by { AttachedFollows(s, h, id); }
    forall i ensures EntryFollows(Attach(s, id), h + [a], i) {
      assert EntryFollows(s, h, i);
      if i != id { OthersFollow(s, h, a, Attach(s, id), i); }
    }
  }

  lemma AttachedFollows(s: State, h: seq<Act>, id: nat)
    requires EntryFollows(s, h, id)
    ensures EntryFollows(Attach(s, id), h + [AttachAct(id)], id)
  {
    hide Adoptions, Total;
    var a := AttachAct(id);
    Snoc(h, a);
    var k := Opening(h, id);
    if k.Some? {
      AttachedSnoc(h, a, id, k.value);
      ArrivedSnoc(h, a, id, k.value);
      OpeningSnoc(h, a, id);
    }
  }

  lemma DataFollows(s: State, h: seq<Act>, id: nat, data: seq<int>)
    requires Follows(s, h)
    ensures Follows(OnData(s, id, data), h + [DataAct(id, data)])
  {
    hide EntryFollows;
    var a := DataAct(id, data);
    var s' := OnData(s, id, data);
    Snoc(h, a);
    assert EntryFollows(s, h, id);
    OpenMeans(s, h, id);
    assert EntryFollows(s', h + [a], id) by { CountedFollows(s, h, id, data); }
    forall i ensures EntryFollows(s', h + [a], i) {
      assert EntryFollows(s, h, i);
      if i != id { OthersFollow(s, h, a, s', i); }
    }
    assert s.log + [] == s.log;
  }

  lemma CountedFollows(s: State, h: seq<Act>, id: nat, data: seq<int>)
    requires EntryFollows(s, h, id)
    ensures EntryFollows(OnData(s, id, data), h + [DataAct(id, data)], id)
  {
    hide Adoptions, Total;
    var a := DataAct(id, data);
    Snoc(h, a);
    var k := Opening(h, id);
    if k.Some? {
      AttachedSnoc(h, a, id, k.value);
      ArrivedSnoc(h, a, id, k.value);
      OpeningSnoc(h, a, id);
      TotalSnoc(Arrived(h, id, k.value), data);
    }
  }

  lemma CloseFollows(s: State, h: seq<Act>, id: nat)
    requires Follows(s, h)
    ensures Follows(Close(s, id), h + [CloseAct(id)])
  {
    hide EntryFollows;
    var a := CloseAct(id);
    var s' := Close(s, id);
    Snoc(h, a);
    assert EntryFollows(s, h, id);
    OpenMeans(s, h, id);
    assert EntryFollows(s', h + [a], id) by { ClosedFollows(s', h, a, id); }
    forall i ensures EntryFollows(s', h + [a], i) {
      assert EntryFollows(s, h, i);
      if i != id { OthersFollow(s, h, a, s', i); }
    }
    assert s.log + [] == s.log;
  }

  lemma ClosedFollows(s: State, h: seq<Act>, a: Act, id: nat)
    requires id !in s.streams && (a == CloseAct(id) || a.AbortAct?)
    ensures EntryFollows(s, h + [a], id)
  {
    Snoc(h, a);
  }

  /** The closing of many streams, one after another. */
  lemma {:induction false} FarewellsAre(s: State, h: seq<Act>, order: seq<nat>)
    requires Follows(s, h)
    ensures Farewells(s.streams, order) == Goodbyes(h, order)
    decreases |order|
  {
    hide EntryFollows, Farewell, Said, Adoptions;
    if order == [] {
      FarewellsOfNone(s.streams);
    } else {
      var n := |order| - 1;
      var id := order[n];
      assert order == order[..n] + [id];
      FarewellsAre(s, h, order[..n]);
      FarewellIs(s, h, id);
      if id in order[..n] { FarewellsAgain(s.streams, order[..n], id); } else { FarewellsOneMore(s.streams, order[..n], id); }
    }
  }

  lemma FarewellIs(s: State, h: seq<Act>, id: nat)
    requires Follows(s, h)
    ensures Farewell(s.streams, id) == Goodbye(h, id)
  {
    hide EntryFollows, Said, Adoptions;
    assert EntryFollows(s, h, id);
    OpenMeans(s, h, id);
    if id !in s.streams { assert !Listening(h, id); }
  }

  lemma {:induction false} FarewellsAgain(streams: map<nat, Entry>, order: seq<nat>, id: nat)
    requires id in order
    ensures Farewells(streams, order + [id]) == Farewells(streams, order)
    decreases |order|
  {
    hide Farewell;
    assert (order + [id])[1..] == order[1..] + [id] && (order + [id])[0] == order[0];
    if order[0] == id { FarewellsWithout(streams - {id}, order[1..], id); } else { FarewellsAgain(streams - {order[0]}, order[1..], id); }
  }

  lemma {:induction false} FarewellsWithout(streams: map<nat, Entry>, order: seq<nat>, id: nat)
    requires id !in streams
    ensures Farewells(streams, order + [id]) == Farewells(streams, order)
    decreases |order|
  {
    if order == [] {
      assert order + [id] == [id] && [id][1..] == [];
      FarewellsOfNone(streams - {id});
      FarewellsOfNone(streams);
      assert Farewells(streams, [id]) == Farewell(streams, id) + Farewells(streams - {id}, []);
    } else {
      assert (order + [id])[1..] == order[1..] + [id] && (order + [id])[0] == order[0];
      FarewellsWithout(streams - {order[0]}, order[1..], id);
    }
  }

  lemma AbortFollows(s: State, h: seq<Act>, order: seq<nat>)
    requires Follows(s, h) && forall id :: id in order <==> id in s.streams
    ensures Follows(AbortAll(s, order), h + [AbortAct(order)])
  {
    hide EntryFollows, AbortAll;
    var a := AbortAct(order);
    var s' := AbortAll(s, order);
    Snoc(h, a);
    AbortAllIs(s, order);
    FarewellsAre(s, h, order);
    forall i ensures EntryFollows(s', h + [a], i) { ClosedFollows(s', h, a, i); }
  }

  lemma AllocateFollows(s: State, h: seq<Act>, next: nat)
    requires Follows(s, h)
    ensures Follows(s.(nextStreamId := next), h + [AllocateAct])
  {
    hide EntryFollows;
    var s' := s.(nextStreamId := next);
    Snoc(h, AllocateAct);
    assert s.log + [] == s.log;
    forall i ensures EntryFollows(s', h + [AllocateAct], i) {
      assert EntryFollows(s, h, i);
      OthersFollow(s, h, AllocateAct, s', i);
    }
  }

  lemma StepFollows(s: State, h: seq<Act>, a: Act, s': State)
    requires Follows(s, h) && Possible(s, a, s')
    ensures Follows(s', h + [a])
  {
    hide Follows, Adopt, Attach, OnData, Close, AbortAll, FirstFree;
    match a
    case AllocateAct => AllocateFollows(s, h, s'.nextStreamId);
    case AdoptAct(id) => AdoptFollows(s, h, id);
    case AttachAct(id) => AttachFollows(s, h, id);
    case DataAct(id, data) => DataFollows(s, h, id, data);
    case CloseAct(id) => CloseFollows(s, h, id);
    case AbortAct(order) => AbortFollows(s, h, order);
  }

  /** Over any run: the streams open, their serials, counters and handlers are those of the history, and what was told
      is what the history says, each in its place. */
  lemma {:induction false} HistoryIsKept(states: seq<State>, acts: seq<Act>, n: nat)
    requires IsTrace(states, acts) && n <= |acts|
    ensures Follows(states[n], acts[..n])
  {
    hide Follows, Possible;
    if n == 0 {
      NothingYet();
    } else {
      HistoryIsKept(states, acts, n - 1);
      StepFollows(states[n - 1], acts[..n - 1], acts[n - 1], states[n]);
      assert acts[..n] == acts[..n - 1] + [acts[n - 1]];
    }
  }

  lemma NothingYet()
    ensures Follows(EMPTY, [])
  {}

  /** An id can be adopted exactly when it is not zero and nothing is open under it. */
  lemma AdoptionIff(states: seq<State>, acts: seq<Act>, n: nat, id: nat)
    requires IsTrace(states, acts) && n <= |acts|
    ensures Adopt(states[n], id).1 ==
      if id == 0 then Refused(0x0505)
      else if Opening(acts[..n], id).Some? then Refused(0x0507)
      else Adopted(Adoptions(acts[..n]))
  {
    hide Possible, Opening, Adoptions, Said;
    HistoryIsKept(states, acts, n);
    assert EntryFollows(states[n], acts[..n], id);
  }

  // ---------- One stream ----------

  function ChunksTold(log: seq<Callback>, serial: nat): seq<seq<int>> {
    if log == [] then []
    else
      var last := log[|log| - 1];
      ChunksTold(log[..|log| - 1], serial) + if last.OnChunk? && last.serial == serial then [last.data] else []
  }

  /** The data that arrived under an id while the stream adopted by act k was open and listening. */
  function HeardBy(acts: seq<Act>, id: nat, k: nat): seq<seq<int>> {
    if acts == [] then []
    else
      var n := |acts| - 1;
      var h := acts[..n];
      HeardBy(h, id, k) +
        if acts[n].DataAct? && acts[n].id == id && Opening(h, id) == Some(k) && Attached(h, id, k) then [acts[n].data] else []
  }

  lemma ToldSnoc(log: seq<Callback>, more: seq<Callback>, serial: nat)
    requires |more| <= 1
    ensures ChunksTold(log + more, serial) ==
      ChunksTold(log, serial) + if more != [] && more[0].OnChunk? && more[0].serial == serial then [more[0].data] else []
  {
    if more == [] {
      assert log + more == log;
    } else {
      assert (log + more)[..|log|] == log;
    }
  }

  lemma {:induction false} NoChunks(log: seq<Callback>, more: seq<Callback>, serial: nat)
    requires forall i :: 0 <= i < |more| ==> more[i].OnClose? || more[i].serial != serial
    ensures ChunksTold(log + more, serial) == ChunksTold(log, serial)
    decreases |more|
  {
    if more == [] {
      assert log + more == log;
    } else {
      var n := |more| - 1;
      NoChunks(log, more[..n], serial);
      assert (log + more)[..|log + more| - 1] == log + more[..n];
    }
  }

  lemma {:induction false} GoodbyesClose(acts: seq<Act>, order: seq<nat>)
    ensures forall i :: 0 <= i < |Goodbyes(acts, order)| ==> Goodbyes(acts, order)[i].OnClose?
  {
    hide Listening, Adoptions;
    if order != [] { GoodbyesClose(acts, order[..|order| - 1]); }
  }

  /** What is open was opened by a successful adoption. */
  lemma {:induction false} OpenedThen(acts: seq<Act>, id: nat)
    requires Opening(acts, id).Some?
    ensures var k := Opening(acts, id).value; Opening(acts[..k + 1], id) == Some(k)
  {
    var n := |acts| - 1;
    var k := Opening(acts, id).value;
    if k < n {
      OpenedThen(acts[..n], id);
      assert acts[..n][..k + 1] == acts[..k + 1];
    } else {
      assert acts[..k + 1] == acts;
    }
  }

  lemma {:induction false} AdoptionsGrow(acts: seq<Act>, n: nat)
    requires n <= |acts|
    ensures Adoptions(acts[..n]) <= Adoptions(acts)
    decreases |acts|
  {
    hide Opening;
    if n == |acts| {
      assert acts[..n] == acts;
    } else {
      AdoptionsGrow(acts[..|acts| - 1], n);
      assert acts[..|acts| - 1][..n] == acts[..n];
    }
  }

  /** Different adoptions give different serials. */
  lemma SerialsDiffer(acts: seq<Act>, i: nat, j: nat)
    requires i < |acts| && acts[i].AdoptAct? && Opening(acts[..i + 1], acts[i].id) == Some(i) && i < j <= |acts|
    ensures Adoptions(acts[..i]) < Adoptions(acts[..j])
  {
    hide Opening;
    assert acts[..i + 1][..i] == acts[..i];
    AdoptionsGrow(acts[..j], i + 1);
    assert acts[..j][..i + 1] == acts[..i + 1];
  }

  lemma SameSerialSameStream(acts: seq<Act>, n: nat, id: nat, k: nat, i: nat)
    requires k < n <= |acts| && acts[k] == AdoptAct(id) && Opening(acts[..k + 1], id) == Some(k)
    requires Opening(acts[..n], i).Some?
    ensures SerialOf(acts[..n], i) == Adoptions(acts[..k]) <==> Opening(acts[..n], i) == Some(k)
    ensures Opening(acts[..n], i) == Some(k) ==> i == id
  {
    hide Opening, Adoptions;
    var m := Opening(acts[..n], i).value;
    OpenedThen(acts[..n], i);
    assert acts[..n][..m + 1] == acts[..m + 1] && acts[..n][..m] == acts[..m];
    if m < k { SerialsDiffer(acts, m, k); }
    if k < m { SerialsDiffer(acts, k, m); }
  }

  lemma {:induction false} SerialsBelow(acts: seq<Act>, i: nat)
    requires i < |Said(acts)|
    ensures Said(acts)[i].serial < Adoptions(acts)
  {
    hide Opening, Listening, Adoptions;
    var n := |acts| - 1;
    var h := acts[..n];
    AdoptionsGrow(acts, n);
    if i < |Said(h)| {
      SerialsBelow(h, i);
    } else {
      match acts[n] {
        case DataAct(id, _) => SerialBelow(h, id);
        case CloseAct(id) => SerialBelow(h, id);
        case AbortAct(order) => GoodbyesBelow(h, order, i - |Said(h)|);
      }
    }
  }

  lemma SerialBelow(h: seq<Act>, id: nat)
    ensures Listening(h, id) ==> SerialOf(h, id) < Adoptions(h)
  {
    hide Adoptions;
    if Opening(h, id).Some? {
      var k := Opening(h, id).value;
      OpenedThen(h, id);
      SerialsDiffer(h, k, |h|);
      assert h[..|h|] == h;
    }
  }

  lemma {:induction false} GoodbyesBelow(h: seq<Act>, order: seq<nat>, i: nat)
    requires i < |Goodbyes(h, order)|
    ensures Goodbyes(h, order)[i].serial < Adoptions(h)
  {
    hide Adoptions, Listening, Opening;
    var n := |order| - 1;
    if i < |Goodbyes(h, order[..n])| { GoodbyesBelow(h, order[..n], i); } else { SerialBelow(h, order[n]); }
  }

  lemma {:induction false} Unheard(acts: seq<Act>, id: nat, k: nat)
    requires |acts| <= k + 1
    ensures HeardBy(acts, id, k) == []
  {
    hide Attached;
    if acts != [] { Unheard(acts[..|acts| - 1], id, k); }
  }

  /** What one more act adds to the chunks told to a stream. */
  lemma ChunkStep(h: seq<Act>, a: Act, id: nat, k: nat, serial: nat)
    requires a.DataAct? && Opening(h, a.id).Some? ==>
      (SerialOf(h, a.id) == serial <==> Opening(h, a.id) == Some(k)) && (Opening(h, a.id) == Some(k) ==> a.id == id)
    ensures ChunksTold(Said(h + [a]), serial) == ChunksTold(Said(h), serial) +
      if a.DataAct? && a.id == id && Opening(h, id) == Some(k) && Attached(h, id, k) then [a.data] else []
  {
    hide Opening, Adoptions, Attached, Goodbyes, ChunksTold;
    Snoc(h, a);
    match a
    case DataAct(i, data) => ToldSnoc(Said(h), if Listening(h, i) then [OnChunk(SerialOf(h, i), data)] else [], serial);
    case CloseAct(i) => NoChunks(Said(h), Goodbye(h, i), serial);
    case AbortAct(order) =>
      GoodbyesClose(h, order);
      NoChunks(Said(h), Goodbyes(h, order), serial);
    case _ => NoChunks(Said(h), [], serial);
  }

  lemma SaidAtAdoption(h: seq<Act>, id: nat)
    ensures Said(h + [AdoptAct(id)]) == Said(h)
  {
    Snoc(h, AdoptAct(id));
    assert Said(h) + [] == Said(h);
  }

  lemma NoChunkYet(acts: seq<Act>, id: nat, k: nat)
    requires k < |acts| && acts[k] == AdoptAct(id)
    ensures ChunksTold(Said(acts[..k + 1]), Adoptions(acts[..k])) == []
  {
    hide Opening, Adoptions, Said;
    var h := acts[..k];
    forall i | 0 <= i < |Said(h)| ensures Said(h)[i].serial != Adoptions(h) { SerialsBelow(h, i); }
    NoChunks([], Said(h), Adoptions(h));
    assert acts[..k + 1] == h + [AdoptAct(id)];
    SaidAtAdoption(h, id);
    assert [] + Said(h) == Said(h);
  }

  /** The chunks told to a stream are exactly the data that arrived under its id while it was open and listening. */
  lemma {:induction false} ChunksAreArrivals(acts: seq<Act>, id: nat, k: nat, n: nat)
    requires k < n <= |acts| && acts[k] == AdoptAct(id) && Opening(acts[..k + 1], id) == Some(k)
    ensures ChunksTold(Said(acts[..n]), Adoptions(acts[..k])) == HeardBy(acts[..n], id, k)
    decreases n
  {
    hide Opening, Adoptions, Attached, Said, ChunksTold;
    if n == k + 1 {
      Unheard(acts[..n], id, k);
      NoChunkYet(acts, id, k);
    } else {
      var h, a := acts[..n - 1], acts[n - 1];
      assert acts[..n] == h + [a] && acts[..n][..n - 1] == h;
      ChunksAreArrivals(acts, id, k, n - 1);
      if a.DataAct? && Opening(h, a.id).Some? { SameSerialSameStream(acts, n - 1, id, k, a.id); }
      ChunkStep(h, a, id, k, Adoptions(acts[..k]));
    }
  }

  /** So over any run: a stream hears the data that arrived under its id while it was open with a handler, in order,
      and nothing else; and while it is open its counters are the number and the total length of all that arrived. */
  lemma StreamHearsItsData(states: seq<State>, acts: seq<Act>, id: nat, k: nat, n: nat)
    requires IsTrace(states, acts) && k < n <= |acts|
    requires acts[k] == AdoptAct(id) && Opening(acts[..k + 1], id) == Some(k)
    ensures ChunksTold(states[n].log, states[k].adopted) == HeardBy(acts[..n], id, k)
    ensures Opening(acts[..n], id) == Some(k) ==>
      && id in states[n].streams && states[n].streams[id].serial == states[k].adopted
      && states[n].streams[id].chunks == |Arrived(acts[..n], id, k)|
      && states[n].streams[id].bytes == Total(Arrived(acts[..n], id, k))
  {
    hide Opening, Adoptions, Attached, Possible, HeardBy, ChunksTold, Said, Arrived, Total;
    HistoryIsKept(states, acts, n);
    HistoryIsKept(states, acts, k);
    ChunksAreArrivals(acts, id, k, n);
    assert EntryFollows(states[n], acts[..n], id);
    assert acts[..n][..k] == acts[..k];
  }
}
