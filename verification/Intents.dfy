/** One recovery per incident (`processIntent` in src/agents/rescueAgent.js): calls share a running recovery, and
    a finished one answers every later call. */
module Intents {
  import opened Units
  import opened RescueAgent

  /** A recovery, by the number of the call that started it: running, resolved but not yet cleared from the
      in-flight table, or over. */
  datatype Stage = Running | Resolved | Over

  datatype Recovery = Recovery(incidentId: Text, stage: Stage, outcome: Option<Outcome>)

  /** What a call gets: the cached envelope, or the promise of a recovery. */
  datatype Answer = Cached(envelope: Envelope) | Promised(recovery: nat)

  datatype State = State(
    cached: map<Text, Envelope>,
    inFlight: map<Text, nat>,
    recoveries: seq<Recovery>)

  const EMPTY := State(map[], map[], [])

  datatype Step =
    | Call(incidentId: Text)
    | Resolve(recovery: nat, outcome: Outcome)
    | Clear(recovery: nat)

  predicate Final(o: Outcome) {
    o.Returned? && (o.envelope.Selected? || o.envelope.NoViableOffer?)
  }

  function Answered(s: State, id: Text): Answer {
    if id in s.cached then Cached(s.cached[id])
    else if id in s.inFlight then Promised(s.inFlight[id])
    else Promised(|s.recoveries|)
  }

  function Called(s: State, id: Text): State {
    if id in s.cached || id in s.inFlight then s
    else s.(inFlight := s.inFlight[id := |s.recoveries|], recoveries := s.recoveries + [Recovery(id, Running, None)])
  }

  function Next(s: State, step: Step): State {
    match step
    case Call(id) => Called(s, id)
    case Resolve(k, outcome) =>
      if k < |s.recoveries| && s.recoveries[k].stage == Running then
        var id := s.recoveries[k].incidentId;
        s.(recoveries := s.recoveries[k := Recovery(id, Resolved, Some(outcome))],
           cached := if Final(outcome) then s.cached[id := outcome.envelope] else s.cached)
      else s
    case Clear(k) =>
      if k < |s.recoveries| && s.recoveries[k].stage == Resolved then
        s.(recoveries := s.recoveries[k := s.recoveries[k].(stage := Over)], inFlight := s.inFlight - {s.recoveries[k].incidentId})
      else s
  }

  function Run(steps: seq<Step>): State {
    if steps == [] then EMPTY else Next(Run(steps[..|steps| - 1]), steps[|steps| - 1])
  }

  class Agent {
    var cached: map<Text, Envelope>
    var inFlight: map<Text, nat>
    var recoveries: seq<Recovery>

    function Abstract(): State
      reads this
    {
      State(cached, inFlight, recoveries)
    }

    constructor ()
      ensures Abstract() == EMPTY
    {
      cached, inFlight, recoveries := map[], map[], [];
    }

    method ProcessIntent(incidentId: Text) returns (answer: Answer)
      modifies this
      ensures answer == Answered(old(Abstract()), incidentId)
      ensures Abstract() == Next(old(Abstract()), Call(incidentId))
    {
      if incidentId in cached {
        return Cached(cached[incidentId]);
      }
      if incidentId in inFlight {
        return Promised(inFlight[incidentId]);
      }
      var running := |recoveries|;
      recoveries := recoveries + [Recovery(incidentId, Running, None)];
      inFlight := inFlight[incidentId := running];
      return Promised(running);
    }

    /** The `then` of a recovery. */
    method Then(k: nat, outcome: Outcome)
      requires k < |recoveries| && recoveries[k].stage == Running
      modifies this
      ensures Abstract() == Next(old(Abstract()), Resolve(k, outcome))
    {
      var id := recoveries[k].incidentId;
      recoveries := recoveries[k := Recovery(id, Resolved, Some(outcome))];
      if Final(outcome) {
        cached := cached[id := outcome.envelope];
      }
    }

    /** The `finally` of a recovery. */
    method Finally(k: nat)
      requires k < |recoveries| && recoveries[k].stage == Resolved
      modifies this
      ensures Abstract() == Next(old(Abstract()), Clear(k))
    {
      inFlight := inFlight - {recoveries[k].incidentId};
      recoveries := recoveries[k := recoveries[k].(stage := Over)];
    }
  }

  // ---- What every interleaving keeps -------------------------------------------------------------

  predicate Open(s: State, k: nat)
    requires k < |s.recoveries|
  {
    s.recoveries[k].stage != Over
  }

  predicate Ended(s: State, k: nat)
    requires k < |s.recoveries|
  {
    s.recoveries[k].outcome.Some? && Final(s.recoveries[k].outcome.value)
  }

  ghost predicate Inv(s: State) {
    && (forall id :: id in s.inFlight ==> s.inFlight[id] < |s.recoveries| && s.recoveries[s.inFlight[id]].incidentId == id)
    && (forall k :: 0 <= k < |s.recoveries| ==> s.recoveries[k].outcome.None? == (s.recoveries[k].stage == Running))
    && (forall k :: 0 <= k < |s.recoveries| && Open(s, k) ==>
          s.recoveries[k].incidentId in s.inFlight && s.inFlight[s.recoveries[k].incidentId] == k)
    && (forall k :: 0 <= k < |s.recoveries| && Ended(s, k) ==>
          && s.recoveries[k].incidentId in s.cached
          && s.recoveries[k].outcome.value.envelope == s.cached[s.recoveries[k].incidentId])
    && (forall k :: 0 <= k < |s.recoveries| && (Open(s, k) || Ended(s, k)) ==> Alone(s, k))
  }

  /** Every other recovery of the incident is an earlier one that is over. */
  ghost predicate Alone(s: State, k: nat)
    requires k < |s.recoveries|
  {
    forall j :: 0 <= j < |s.recoveries| && j != k && s.recoveries[j].incidentId == s.recoveries[k].incidentId ==>
      j < k && s.recoveries[j].stage == Over
  }

  lemma CallKeeps(s: State, id: Text)
    requires Inv(s)
    ensures Inv(Called(s, id))
  {
    var t := Called(s, id);
    forall k | 0 <= k < |t.recoveries| && (Open(t, k) || Ended(t, k)) ensures Alone(t, k) {
      if k < |s.recoveries| {
        assert Alone(s, k);
      }
    }
  }

  lemma ResolveKeeps(s: State, k: nat, outcome: Outcome)
    requires Inv(s) && k < |s.recoveries| && s.recoveries[k].stage == Running
    ensures Inv(Next(s, Resolve(k, outcome)))
  {
    var t := Next(s, Resolve(k, outcome));
    assert Alone(s, k);
    forall j | 0 <= j < |t.recoveries| && (Open(t, j) || Ended(t, j)) ensures Alone(t, j) {
      assert j != k ==> Alone(s, j);
    }
  }

  lemma ClearKeeps(s: State, k: nat)
    requires Inv(s) && k < |s.recoveries| && s.recoveries[k].stage == Resolved
    ensures Inv(Next(s, Clear(k)))
  {
    var t := Next(s, Clear(k));
    assert Alone(s, k);
    forall j | 0 <= j < |t.recoveries| && (Open(t, j) || Ended(t, j)) ensures Alone(t, j) {
      assert Alone(s, j);
    }
  }

  lemma StepKeeps(s: State, step: Step)
    requires Inv(s)
    ensures Inv(Next(s, step))
  {
    match step
    case Call(id) => CallKeeps(s, id);
    case Resolve(k, outcome) => if k < |s.recoveries| && s.recoveries[k].stage == Running { ResolveKeeps(s, k, outcome); }
    case Clear(k) => if k < |s.recoveries| && s.recoveries[k].stage == Resolved { ClearKeeps(s, k); }
  }

  lemma {:induction false} EveryRunKeeps(steps: seq<Step>)
    ensures Inv(Run(steps))
  {
    if steps != [] {
      EveryRunKeeps(steps[..|steps| - 1]);
      StepKeeps(Run(steps[..|steps| - 1]), steps[|steps| - 1]);
    }
  }

  /** At any moment at most one recovery of an incident is under way, and over a whole run at most one ends with
      an envelope that is kept: SELECTED or NO_VIABLE_OFFER. */
  lemma OneRecoveryPerIncident(steps: seq<Step>, j: nat, k: nat)
    requires j < k < |Run(steps).recoveries| && Run(steps).recoveries[j].incidentId == Run(steps).recoveries[k].incidentId
    ensures !(Open(Run(steps), j) && Open(Run(steps), k))
    ensures !Ended(Run(steps), j)
  {
    EveryRunKeeps(steps);
  }

  lemma StepKeepsCache(s: State, step: Step, id: Text)
    requires Inv(s) && id in s.cached
    requires forall k :: 0 <= k < |s.recoveries| && s.recoveries[k].incidentId == id ==> s.recoveries[k].stage != Running
    ensures var t := Next(s, step);
            && id in t.cached && t.cached[id] == s.cached[id]
            && forall k :: 0 <= k < |t.recoveries| && t.recoveries[k].incidentId == id ==> t.recoveries[k].stage != Running
  {}

  function After(s: State, steps: seq<Step>): State {
    if steps == [] then s else Next(After(s, steps[..|steps| - 1]), steps[|steps| - 1])
  }

  predicate EndedFor(s: State, j: nat, id: Text) {
    j < |s.recoveries| && s.recoveries[j].incidentId == id && Ended(s, j)
  }

  /** Every cached envelope is that of a recovery that ended with it. */
  ghost predicate CachedAtRest(s: State) {
    forall id :: id in s.cached ==> exists j :: EndedFor(s, j, id)
  }

  lemma EndedStays(s: State, step: Step, j: nat, id: Text)
    requires Inv(s) && EndedFor(s, j, id)
    ensures EndedFor(Next(s, step), j, id)
  {}

  lemma StepKeepsAtRest(s: State, step: Step)
    requires Inv(s) && CachedAtRest(s)
    ensures CachedAtRest(Next(s, step))
  {
    var t := Next(s, step);
    forall id | id in t.cached ensures exists j :: EndedFor(t, j, id) {
      if id in s.cached {
        var j :| EndedFor(s, j, id);
        EndedStays(s, step, j, id);
      } else {
        assert EndedFor(t, step.recovery, id);
      }
    }
  }

  lemma {:induction false} EveryRunIsAtRest(steps: seq<Step>)
    ensures CachedAtRest(Run(steps))
  {
    if steps != [] {
      EveryRunKeeps(steps[..|steps| - 1]);
      EveryRunIsAtRest(steps[..|steps| - 1]);
      StepKeepsAtRest(Run(steps[..|steps| - 1]), steps[|steps| - 1]);
    }
  }

  /** Once an envelope is cached every later call gets that same envelope, whatever happens in between, and no
      recovery of the incident is ever started again. */
  lemma CachedForGood(steps: seq<Step>, more: seq<Step>, id: Text)
    requires id in Run(steps).cached
    ensures Answered(After(Run(steps), more), id) == Cached(Run(steps).cached[id])
  {
    var s := Run(steps);
    EveryRunKeeps(steps);
    EveryRunIsAtRest(steps);
    var j :| EndedFor(s, j, id);
    assert Alone(s, j);
    StaysCached(s, more, id);
  }

  lemma {:induction false} StaysCached(s: State, more: seq<Step>, id: Text)
    requires Inv(s) && id in s.cached
    requires forall k :: 0 <= k < |s.recoveries| && s.recoveries[k].incidentId == id ==> s.recoveries[k].stage != Running
    ensures var t := After(s, more);
            && Inv(t) && id in t.cached && t.cached[id] == s.cached[id]
            && forall k :: 0 <= k < |t.recoveries| && t.recoveries[k].incidentId == id ==> t.recoveries[k].stage != Running
  {
    if more != [] {
      StaysCached(s, more[..|more| - 1], id);
      StepKeeps(After(s, more[..|more| - 1]), more[|more| - 1]);
      StepKeepsCache(After(s, more[..|more| - 1]), more[|more| - 1], id);
    }
  }

  /** What is not kept is repeated: after a recovery that threw, or found nothing to do, has been cleared, the next
      call starts another one. */
  lemma UnfinishedIsRetried(s: State, k: nat, outcome: Outcome)
    requires Inv(s) && k < |s.recoveries| && s.recoveries[k].stage == Running && !Final(outcome)
    requires s.recoveries[k].incidentId !in s.cached
    ensures var t := Next(Next(s, Resolve(k, outcome)), Clear(k));
            Answered(t, s.recoveries[k].incidentId) == Promised(|t.recoveries|)
  {}

  /** Whatever is in flight has not been cleared. */
  ghost predicate FlightsOpen(s: State) {
    forall id :: id in s.inFlight ==>
      s.inFlight[id] < |s.recoveries| && s.recoveries[s.inFlight[id]].incidentId == id && s.recoveries[s.inFlight[id]].stage != Over
  }

  lemma StepKeepsFlights(s: State, step: Step)
    requires Inv(s) && FlightsOpen(s)
    ensures FlightsOpen(Next(s, step))
  {}

  lemma {:induction false} EveryRunKeepsFlights(steps: seq<Step>)
    ensures FlightsOpen(Run(steps))
  {
    if steps != [] {
      EveryRunKeeps(steps[..|steps| - 1]);
      EveryRunKeepsFlights(steps[..|steps| - 1]);
      StepKeepsFlights(Run(steps[..|steps| - 1]), steps[|steps| - 1]);
    }
  }

  /** An open recovery of this incident. */
  predicate OpenFor(s: State, k: nat, id: Text) {
    k < |s.recoveries| && s.recoveries[k].incidentId == id && Open(s, k)
  }

  /** What a call gets, in every run: the envelope of the recovery of its incident that ended with one, if there is
      such; else the one that is open, if there is such; else a new one, which it starts. */
  lemma WhatACallGets(steps: seq<Step>, id: Text)
    ensures var s := Run(steps);
            match Answered(s, id)
            case Cached(e) => exists j: nat :: EndedFor(s, j, id) && s.recoveries[j].outcome.value.envelope == e
            case Promised(k) =>
              && (forall j: nat :: !EndedFor(s, j, id))
              && (OpenFor(s, k, id) <==> Called(s, id) == s)
              && (Called(s, id) != s ==>
                    && (forall j: nat :: !OpenFor(s, j, id))
                    && k == |s.recoveries| && Called(s, id).recoveries == s.recoveries + [Recovery(id, Running, None)])
  {
    var s := Run(steps);
    EveryRunKeeps(steps);
    EveryRunKeepsFlights(steps);
    EveryRunIsAtRest(steps);
    if id in s.cached {
      var j :| EndedFor(s, j, id);
    } else if id !in s.inFlight {
      assert Called(s, id).recoveries != s.recoveries;
    }
  }
}
