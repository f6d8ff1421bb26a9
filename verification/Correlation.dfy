/** Calls, the peer that answers them, and the channels between (src/core/core.ts, src/broker/broker.ts). */
module Correlation {
  import opened Bytes
  import opened PendingCalls

  /** A request or response on its way: the id it carries, and which call it really belongs to. */
  datatype Tagged = Tagged(id: nat, origin: nat)

  datatype Reply = Reply(tag: Tagged, answer: int)

  datatype System = System(
    caller: State,
    requests: seq<Tagged>,
    working: set<Tagged>,
    replies: seq<Reply>,
    answers: map<nat, int>)

  const START := System(EMPTY, [], {}, [], map[])

  /** A call is made; the peer takes a request up; one of its handlers finishes, in any order; a response
      arrives, early or late; a timer goes off; the connection is given up. */
  datatype Event =
    | Make(sendThrows: bool)
    | TakeUp
    | Finish(tag: Tagged, answer: int)
    | Arrive
    | GoOff(call: nat)
    | GiveUp(code: nat)

  predicate Enabled(w: System, e: Event) {
    match e
    case Make(_) => true
    case TakeUp => w.requests != []
    case Finish(tag, _) => tag in w.working
    case Arrive => w.replies != []
    case GoOff(call) => call in w.caller.timers
    case GiveUp(_) => true
  }

  function Next(w: System, e: Event): System
    requires Enabled(w, e)
  {
    match e
    case Make(sendThrows) =>
      w.(caller := Request(w.caller, sendThrows),
         requests := if sendThrows then w.requests else w.requests + [Tagged(w.caller.nextRequestId, w.caller.calls)])
    case TakeUp => w.(requests := w.requests[1..], working := w.working + {w.requests[0]})
    case Finish(tag, answer) =>
      w.(working := w.working - {tag}, replies := w.replies + [Reply(tag, answer)], answers := w.answers[tag.origin := answer])
    case Arrive =>
      var r := w.replies[0];
      w.(replies := w.replies[1..], caller := Resolve(w.caller, r.tag.id, r.tag.origin, r.answer))
    case GoOff(call) => w.(caller := TimerFires(w.caller, call))
    case GiveUp(code) => w.(caller := RejectAll(w.caller, code))
  }

  // ---------- What is still about ----------

  ghost predicate Stamped(t: Tagged, calls: nat) {
    t.origin < calls && t.id == IdOf(t.origin)
  }

  ghost predicate RepliedTo(w: System, r: Reply) {
    && Stamped(r.tag, w.caller.calls)
    && r.tag.origin in w.answers && w.answers[r.tag.origin] == r.answer
  }

  /** Every request and response carries the id of its call, each call has at most one of them, and each
      response carries the answer the peer gave to that call. */
  ghost predicate Honest(w: System) {
    && (forall i :: 0 <= i < |w.requests| ==> Stamped(w.requests[i], w.caller.calls) && w.requests[i].origin !in w.answers)
    && (forall t :: t in w.working ==> Stamped(t, w.caller.calls) && t.origin !in w.answers)
    && (forall i :: 0 <= i < |w.replies| ==> RepliedTo(w, w.replies[i]))
    && (forall i, j :: 0 <= i < j < |w.requests| ==> w.requests[i].origin != w.requests[j].origin)
    && (forall i, t :: 0 <= i < |w.requests| && t in w.working ==> w.requests[i].origin != t.origin)
    && (forall o :: o in w.answers ==> o < w.caller.calls)
    && Told(w)
  }

  /** Every answer handed to a call is one the peer gave to the call that the response belongs to. */
  ghost predicate Told(w: System) {
    forall c :: c in w.caller.settled && w.caller.settled[c].Answered? ==>
      var o := w.caller.settled[c]; o.origin in w.answers && w.answers[o.origin] == o.answer
  }

  /** The call is pending, or a message about it has yet to be read. */
  ghost predicate About(w: System, c: nat) {
    || (exists id :: id in w.caller.pending && w.caller.pending[id] == c)
    || (exists i :: 0 <= i < |w.requests| && w.requests[i].origin == c)
    || (exists t :: t in w.working && t.origin == c)
    || (exists i :: 0 <= i < |w.replies| && w.replies[i].tag.origin == c)
  }

  /** Nothing about a call is left by the time its id comes round again. */
  ghost predicate Recent(w: System) {
    forall c: nat :: About(w, c) ==> c + MAX_REQUEST_ID >= w.caller.calls
  }

  /** No call is made while anything is left of the call 2^32 - 1 calls before it, or of an older one. */
  ghost predicate InTime(w: System, e: Event) {
    e.Make? ==> forall c: nat :: About(w, c) ==> w.caller.calls - c < MAX_REQUEST_ID
  }

  /** Every answer handed to a call is the peer's answer to that very call. */
  ghost predicate OwnAnswers(w: System) {
    forall c :: c in w.caller.settled && w.caller.settled[c].Answered? ==>
      (w.caller.settled[c].origin == c && c in w.answers && w.answers[c] == w.caller.settled[c].answer)
  }

  ghost predicate Good(w: System) {
    Inv(w.caller) && Honest(w) && OwnAnswers(w) && Recent(w)
  }

  lemma HonestStep(w: System, e: Event)
    requires Inv(w.caller) && Honest(w) && Enabled(w, e)
    ensures Honest(Next(w, e))
  {
    hide IdOf, Resolve, TimerFires, RejectAll, Told, Inv;
    ToldStep(w, e);
    match e
    case Make(_) => NextIdIs(w.caller);
    case TakeUp =>
    case Finish(_, _) =>
    case Arrive =>
      var r := w.replies[0];
      KeepsCount(w.caller, Response(r.tag.id, r.tag.origin, r.answer));
    case GoOff(call) => KeepsCount(w.caller, Timeout(call));
    case GiveUp(code) => KeepsCount(w.caller, Disconnect(code));
  }

  lemma NextIdIs(s: State)
    requires Inv(s)
    ensures s.nextRequestId == IdOf(s.calls)
  {}

  lemma ToldStep(w: System, e: Event)
    requires Inv(w.caller) && Honest(w) && Enabled(w, e)
    ensures Told(Next(w, e))
  {
    hide IdOf, NextId;
    if e.Arrive? { assert RepliedTo(w, w.replies[0]); }
  }

  lemma KeepsCount(s: State, a: Act)
    requires Possible(s, a) && !a.Call?
    ensures Step(s, a).calls == s.calls
  {}

  /** A response arrives while another call is pending under its id. */
  predicate Astray(w: System, e: Event)
    requires Enabled(w, e)
  {
    e.Arrive? && var t := w.replies[0].tag; t.id in w.caller.pending && w.caller.pending[t.id] != t.origin
  }

  /** A step hands a call an answer that is not its own if and only if a response arrives while another call is
      pending under its id; that call is then a multiple of 2^32 - 1 calls apart. What went wrong stays wrong. */
  lemma OwnAnswersIff(w: System, e: Event)
    requires Inv(w.caller) && Honest(w) && Enabled(w, e)
    ensures OwnAnswers(Next(w, e)) <==> OwnAnswers(w) && !Astray(w, e)
    ensures Astray(w, e) ==> var t := w.replies[0].tag; (w.caller.pending[t.id] - t.origin) % MAX_REQUEST_ID == 0
  {
    hide IdOf, Inv, Next, Told, OwnAnswers;
    HonestStep(w, e);
    OwnMeans(w);
    OwnMeans(Next(w, e));
    AnsweredStep(w, e);
    if Astray(w, e) { AstrayDistance(w); }
  }

  lemma AstrayDistance(w: System)
    requires Inv(w.caller) && Honest(w) && Enabled(w, Arrive) && w.replies[0].tag.id in w.caller.pending
    ensures var t := w.replies[0].tag; (w.caller.pending[t.id] - t.origin) % MAX_REQUEST_ID == 0
  {
    hide IdOf;
    SameIdIff(w.caller.pending[w.replies[0].tag.id], w.replies[0].tag.origin);
  }

  /** Every answered call has an answer that was meant for it. */
  ghost predicate OwnOrigins(settled: map<nat, Outcome>) {
    forall c :: c in settled && settled[c].Answered? ==> settled[c].origin == c
  }

  lemma OwnMeans(w: System)
    requires Told(w)
    ensures OwnAnswers(w) <==> OwnOrigins(w.caller.settled)
  {}

  /** Only an arriving response answers a call, and no answer is taken back. */
  lemma AnsweredStep(w: System, e: Event)
    requires Inv(w.caller) && Enabled(w, e)
    ensures var s, s' := w.caller.settled, Next(w, e).caller.settled;
      OwnOrigins(s') <==> OwnOrigins(s) && !Astray(w, e)
  {
    hide IdOf, NextId;
    var s, s' := w.caller.settled, Next(w, e).caller.settled;
    if ActOf(w, e).Some? { StepKeeps(w.caller, ActOf(w, e).value); }
    assert forall c :: c in s ==> c in s' && s'[c] == s[c];
    if e.Arrive? && w.replies[0].tag.id in w.caller.pending {
      var t := w.replies[0].tag;
      var c0 := w.caller.pending[t.id];
      assert s' == s[c0 := Answered(t.origin, w.replies[0].answer)] && c0 !in s;
      assert s'[c0].origin == t.origin;
    } else {
      assert forall c :: c in s' && s'[c].Answered? ==> c in s;
    }
  }

  function ActOf(w: System, e: Event): Option<Act>
    requires Enabled(w, e)
  {
    match e
    case Make(sendThrows) => Some(Call(sendThrows))
    case Arrive => Some(Response(w.replies[0].tag.id, w.replies[0].tag.origin, w.replies[0].answer))
    case GoOff(call) => Some(Timeout(call))
    case GiveUp(code) => Some(Disconnect(code))
    case _ => None
  }

  lemma AboutStep(w: System, e: Event, c: nat)
    requires Enabled(w, e) && Inv(w.caller) && About(Next(w, e), c)
    ensures About(w, c) || (e.Make? && c == w.caller.calls)
  {
    hide IdOf, NextId, Inv;
    match e
    case Make(_) =>
    case TakeUp =>
    case Finish(_, _) =>
    case Arrive => ItemsShrink(w.caller, Response(w.replies[0].tag.id, w.replies[0].tag.origin, w.replies[0].answer), c);
    case GoOff(call) => ItemsShrink(w.caller, Timeout(call), c);
    case GiveUp(code) => ItemsShrink(w.caller, Disconnect(code), c);
  }

  lemma ItemsShrink(s: State, a: Act, c: nat)
    requires Possible(s, a) && !a.Call?
    ensures (exists id :: id in Step(s, a).pending && Step(s, a).pending[id] == c) ==> exists id :: id in s.pending && s.pending[id] == c
  {}

  lemma RecentStep(w: System, e: Event)
    requires Enabled(w, e) && Inv(w.caller) && Recent(w) && InTime(w, e)
    ensures Recent(Next(w, e))
  {
    hide About, IdOf, NextId, Inv;
    forall c: nat | About(Next(w, e), c) ensures c + MAX_REQUEST_ID >= Next(w, e).caller.calls {
      AboutStep(w, e, c);
      CountStep(w, e);
    }
  }

  lemma CountStep(w: System, e: Event)
    requires Enabled(w, e)
    ensures Next(w, e).caller.calls == w.caller.calls + if e.Make? then 1 else 0
  {
    hide IdOf, NextId;
  }

  /** The response at the head is, if anyone's, the response of the call it settles. */
  lemma ReplyIsOwn(w: System)
    requires Good(w) && w.replies != [] && w.replies[0].tag.id in w.caller.pending
    ensures w.caller.pending[w.replies[0].tag.id] == w.replies[0].tag.origin
  {
    hide IdOf;
    var t := w.replies[0].tag;
    var c := w.caller.pending[t.id];
    assert About(w, c) && About(w, t.origin);
    NearIdsDiffer(c, t.origin);
  }

  lemma OwnAnswersStep(w: System, e: Event)
    requires Good(w) && Enabled(w, e)
    ensures OwnAnswers(Next(w, e))
  {
    hide IdOf, NextId, About, Recent, Honest, Inv, OwnAnswers;
    OwnAnswersIff(w, e);
    if e.Arrive? && w.replies[0].tag.id in w.caller.pending { ReplyIsOwn(w); }
  }

  lemma GoodStep(w: System, e: Event)
    requires Good(w) && Enabled(w, e) && InTime(w, e)
    ensures Good(Next(w, e)) && (ActOf(w, e).Some? ==> Possible(w.caller, ActOf(w, e).value) && Fresh(w.caller, ActOf(w, e).value))
    ensures Conserved(w.caller) ==> Conserved(Next(w, e).caller)
  {
    hide Inv, Honest, OwnAnswers, Recent, InTime, Conserved, Fresh;
    HonestStep(w, e);
    OwnAnswersStep(w, e);
    RecentStep(w, e);
    var a := ActOf(w, e);
    if a.Some? {
      StepKeeps(w.caller, a.value);
      FreshInTime(w, e);
      if Conserved(w.caller) { ConservedIff(w.caller, a.value); }
    }
  }

  lemma FreshInTime(w: System, e: Event)
    requires Good(w) && Enabled(w, e) && InTime(w, e) && ActOf(w, e).Some?
    ensures Fresh(w.caller, ActOf(w, e).value)
  {
    hide IdOf, NextId;
    if e.Make? && w.caller.nextRequestId in w.caller.pending {
      var c := w.caller.pending[w.caller.nextRequestId];
      assert About(w, c);
      NearIdsDiffer(w.caller.calls, c);
    }
  }

  ghost predicate IsHistory(w: System, es: seq<Event>)
    decreases |es|
  {
    es == [] || (Enabled(w, es[0]) && IsHistory(Next(w, es[0]), es[1..]))
  }

  function Later(w: System, es: seq<Event>): System
    requires IsHistory(w, es)
    decreases |es|
  {
    if es == [] then w else Later(Next(w, es[0]), es[1..])
  }

  /** Every call of the history is made in time. */
  ghost predicate Punctual(w: System, es: seq<Event>)
    requires IsHistory(w, es)
    decreases |es|
  {
    es == [] || (InTime(w, es[0]) && Punctual(Next(w, es[0]), es[1..]))
  }

  predicate NoneAstray(w: System, es: seq<Event>)
    requires IsHistory(w, es)
    decreases |es|
  {
    es == [] || (!Astray(w, es[0]) && NoneAstray(Next(w, es[0]), es[1..]))
  }

  lemma {:induction false} HistoryIsGood(w: System, es: seq<Event>)
    requires Good(w) && Conserved(w.caller) && IsHistory(w, es) && Punctual(w, es)
    ensures Good(Later(w, es)) && Conserved(Later(w, es).caller)
    decreases |es|
  {
    hide Good, Conserved, Next, Enabled, InTime;
    if es != [] {
      GoodStep(w, es[0]);
      HistoryIsGood(Next(w, es[0]), es[1..]);
    }
  }

  lemma {:induction false} HistoryAnswers(w: System, es: seq<Event>)
    requires Inv(w.caller) && Honest(w) && IsHistory(w, es)
    ensures OwnAnswers(Later(w, es)) <==> OwnAnswers(w) && NoneAstray(w, es)
    decreases |es|
  {
    hide Inv, Honest, OwnAnswers, Next, Enabled, Astray;
    if es != [] {
      OwnAnswersIff(w, es[0]);
      HonestStep(w, es[0]);
      if ActOf(w, es[0]).Some? { ActIsPossible(w, es[0]); StepKeeps(w.caller, ActOf(w, es[0]).value); }
      CallerSteps(w, es[0]);
      HistoryAnswers(Next(w, es[0]), es[1..]);
    }
  }

  lemma ActIsPossible(w: System, e: Event)
    requires Enabled(w, e) && ActOf(w, e).Some?
    ensures Possible(w.caller, ActOf(w, e).value)
  {}

  lemma CallerSteps(w: System, e: Event)
    requires Enabled(w, e)
    ensures ActOf(w, e).Some? ==> Next(w, e).caller == (ActIsPossible(w, e); Step(w.caller, ActOf(w, e).value))
    ensures ActOf(w, e).None? ==> Next(w, e).caller == w.caller
  {
    hide Request, Resolve, TimerFires, RejectAll;
  }

  /** Correlation: whatever order handlers finish in, however late responses come, whichever timers go off
      and whenever the connection is given up, each call that got an answer got the peer's answer to that
      call, and every call is pending or settled, as long as no call is made while anything is left of one
      2^32 - 1 calls before it. */
  lemma AnswersGoHome(es: seq<Event>)
    requires IsHistory(START, es) && Punctual(START, es)
    ensures OwnAnswers(Later(START, es)) && Conserved(Later(START, es).caller)
  {
    hide Next, Enabled, InTime;
    assert EMPTY.timers == EMPTY.pending.Values;
    HistoryIsGood(START, es);
  }

  /** Over any history at all: every answered call got the peer's answer to that very call if and only if no
      response arrived while another call was pending under its id. */
  lemma AnswersGoHomeIff(es: seq<Event>)
    requires IsHistory(START, es)
    ensures OwnAnswers(Later(START, es)) <==> NoneAstray(START, es)
  {
    hide Next, Enabled, Astray;
    HistoryAnswers(START, es);
  }

  /** Without the time limit this happens: a response that comes after its call was given up and 2^32 - 1
      further calls were made settles the call that now bears the id. */
  lemma LateAnswerGoesAstray(w: System, c: nat)
    requires Inv(w.caller) && Honest(w) && w.replies != []
    requires IdOf(c) in w.caller.pending && w.caller.pending[IdOf(c)] == c
    requires c == w.replies[0].tag.origin + MAX_REQUEST_ID
    ensures !OwnAnswers(Next(w, Arrive))
  {
    hide IdOf;
    SameIdIff(c, w.replies[0].tag.origin);
    OwnAnswersIff(w, Arrive);
  }
}
