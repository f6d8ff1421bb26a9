/** What each outbound call comes to, and why (src/core/pendingCalls.ts). Told from the table before the act. */
module PendingOutcomes {
  import opened Bytes
  import opened PendingCalls

  /** The id that the n-th call travels under: 1, 2, and so on, and after 2^32 - 1 calls 1 again. */
  function TravelId(call: nat): nat {
    1 + call % 0xFFFF_FFFF
  }

  predicate Waits(s: State, call: nat) {
    exists id :: id in s.pending && s.pending[id] == call
  }

  /** The outcome that an act gives a call: sending threw; a response came under the id it is pending under; its own timer
      went off while an entry stood under its id; or the connection was given up while it was pending. */
  function OutcomeOf(s: State, a: Act, call: nat): Option<Outcome> {
    match a
    case Call(sendThrows) => if sendThrows && call == s.calls then Some(SendFailed) else None
    case Response(id, origin, answer) => if id in s.pending && s.pending[id] == call then Some(Answered(origin, answer)) else None
    case Timeout(timer) => if timer == call && TravelId(call) in s.pending then Some(TimedOut) else None
    case Disconnect(code) => if Waits(s, call) then Some(Rejected(code)) else None
  }

  function Lookup(s: State, call: nat): Option<Outcome> {
    if call in s.settled then Some(s.settled[call]) else None
  }

  function Either(a: Option<Outcome>, b: Option<Outcome>): Option<Outcome> {
    if a.Some? then a else b
  }

  /** One act settles exactly the calls it gives an outcome, and what is settled stays. */
  lemma StepOutcome(s: State, a: Act, call: nat)
    requires Inv(s) && Possible(s, a)
    ensures Lookup(Step(s, a), call) == Either(Lookup(s, call), OutcomeOf(s, a, call))
  {
    hide NextId;
    assert TravelId(call) == IdOf(call);
    hide IdOf, TravelId;
    StepKeeps(s, a);
    assert Waits(s, call) <==> call in s.pending.Values;
  }

  /** The entries and timers after an act. */
  lemma StepEntries(s: State, a: Act)
    requires Inv(s) && Possible(s, a)
    ensures var s' := Step(s, a);
      && s'.calls == s.calls + (if a.Call? then 1 else 0)
      && s'.pending == (match a
           case Call(sendThrows) =>
             if sendThrows then s.pending - {TravelId(s.calls)} else s.pending[TravelId(s.calls) := s.calls]
           case Response(id, _, _) => s.pending - {id}
           case Timeout(timer) => s.pending - {TravelId(timer)}
           case Disconnect(_) => map[])
      && s'.timers == (match a
           case Call(sendThrows) => if sendThrows then s.timers else s.timers + {s.calls}
           case Response(id, _, _) => if id in s.pending then s.timers - {s.pending[id]} else s.timers
           case Timeout(timer) => s.timers - {timer}
           case Disconnect(_) => s.timers - s.pending.Values)
  {
    hide NextId;
    TravelIdIs(s.calls);
    if a.Timeout? { TravelIdIs(a.call); }
    hide IdOf, TravelId;
  }

  lemma TravelIdIs(call: nat)
    ensures TravelId(call) == IdOf(call)
  {}

  /** The first outcome a run gives a call. */
  function FirstOutcome(s: State, acts: seq<Act>, call: nat): Option<Outcome>
    requires IsRun(s, acts)
    decreases |acts|
  {
    if acts == [] then None else Either(OutcomeOf(s, acts[0], call), FirstOutcome(Step(s, acts[0]), acts[1..], call))
  }

  lemma {:induction false} RunOutcomes(s: State, acts: seq<Act>, call: nat)
    requires Inv(s) && IsRun(s, acts)
    ensures Lookup(After(s, acts), call) == Either(Lookup(s, call), FirstOutcome(s, acts, call))
    decreases |acts|
  {
    hide Inv, Step, Possible, OutcomeOf, Lookup;
    if acts != [] {
      StepOutcome(s, acts[0], call);
      StepKeeps(s, acts[0]);
      RunOutcomes(Step(s, acts[0]), acts[1..], call);
    }
  }

  /** Over any run from the empty table: what a call comes to is the first outcome an act gave it, for a cause of its own. */
  lemma EveryCallsOutcome(acts: seq<Act>, call: nat)
    requires IsRun(EMPTY, acts)
    ensures Lookup(After(EMPTY, acts), call) == FirstOutcome(EMPTY, acts, call)
  {
    hide Step, Possible, OutcomeOf;
    EmptyIsGood();
    RunOutcomes(EMPTY, acts, call);
  }
}
