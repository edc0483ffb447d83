/** The poll loop of the integration: which envelopes it hands to the pipeline, and what it remembers
    of them (src/sui/integration.js). */
module Polling {
  import opened Units
  import opened LedgerText
  import opened Events
  import opened TrustSteps
  import opened Integration
  import Service = TrustService

  /** What is noted of an incident that has been handed to the pipeline. */
  datatype Mark = Handled(result: Result) | Error

  type Marks = map<Text, Mark>

  datatype Pass = Pass(state: State, marks: Marks, handled: seq<Text>)

  /** One envelope of a pass. */
  function Visit(p: Pass, e: Envelope, op: Operator, now: nat): Pass {
    if e.incidentId in p.marks then p
    else
      var (state, result) := Process(p.state, e, op, now, Calm(now));
      if result == Threw then
        Pass(Emitted(state, NoteRow(INTEGRATION_SKIPPED, Some(e.incidentId), None, now)), p.marks[e.incidentId := Error], p.handled)
      else Pass(state, p.marks[e.incidentId := Handled(result)], p.handled + [e.incidentId])
  }

  function VisitAll(p: Pass, recoveries: seq<Envelope>, op: Operator, now: nat): Pass {
    if recoveries == [] then p
    else Visit(VisitAll(p, recoveries[..|recoveries| - 1], op, now), recoveries[|recoveries| - 1], op, now)
  }

  class Poller {
    const service: Service.TrustService
    /** `live.processed`, in memory. */
    var processed: Marks
    /** The state file. */
    var saved: Marks

    constructor (service: Service.TrustService, stateFile: Marks)
      ensures this.service == service && processed == stateFile && saved == stateFile
    {
      this.service := service;
      this.processed := stateFile;
      this.saved := stateFile;
    }

    /** The awaited end of a call: its transaction lands, it reports. */
    method AwaitEnd(i: nat, now: nat) returns (ok: bool)
      requires service.Valid() && i < |service.tasks|
      modifies service, service.ledger
      ensures service.Valid() && (service.Abstract(), ok) == Await(old(service.Abstract()), i, now, Still(now))
    {
      StillAwait(service.Abstract(), i, now);
      service.TransactionLands(i, now);
      ok := i < |service.tasks| && service.tasks[i].Landed?;
      if ok {
        service.Resume(i, now);
      }
    }

    /** One service call that has been started from `s`, awaited to its end. */
    method AwaitCall(ghost s: State, ghost step: Step, i: nat, now: nat) returns (ok: bool)
      requires service.Valid() && service.Abstract() == Next(s, step) && i == |s.tasks|
      modifies service, service.ledger
      ensures service.Valid() && (service.Abstract(), ok) == Call(s, step, now, Still(now))
    {
      ok := false;
      if |service.tasks| == i + 1 {
        ok := AwaitEnd(i, now);
      }
    }

    method CallCommit(e: Envelope, op: Operator, now: nat) returns (ok: bool)
      requires service.Valid() && e.selected.Some?
      modifies service, service.ledger
      ensures service.Valid() && (service.Abstract(), ok) == Call(old(service.Abstract()), CommitStep(e, op, now), now, Still(now))
    {
      ghost var before := service.Abstract();
      var waiting := |service.tasks|;
      service.Commit(Offer(e.incidentId, Some(e.selected.value.nonce), e.selected.value.built), op.authority, op.buyer, now);
      ok := AwaitCall(before, CommitStep(e, op, now), waiting, now);
    }

    method CallVerify(e: Envelope, now: nat) returns (ok: bool)
      requires service.Valid() && e.selected.Some?
      modifies service, service.ledger
      ensures service.Valid() && (service.Abstract(), ok) == Call(old(service.Abstract()), VerifyStep(e), now, Still(now))
    {
      ghost var before := service.Abstract();
      var waiting := |service.tasks|;
      service.VerifyDelivery(e.incidentId, e.selected.value.report);
      ok := AwaitCall(before, VerifyStep(e), waiting, now);
    }

    method CallSettle(e: Envelope, now: nat) returns (ok: bool)
      requires service.Valid()
      modifies service, service.ledger
      ensures service.Valid() && (service.Abstract(), ok) == Call(old(service.Abstract()), SettleStep(e, now), now, Still(now))
    {
      ghost var before := service.Abstract();
      var waiting := |service.tasks|;
      service.Activation(e.incidentId, Available, now);
      ok := AwaitCall(before, SettleStep(e, now), waiting, now);
    }

    /** `processEnvelope`, with nothing else running. */
    method ProcessEnvelope(e: Envelope, op: Operator, now: nat) returns (result: Result)
      requires service.Valid()
      modifies service, service.ledger
      ensures service.Valid() && (service.Abstract(), result) == Process(old(service.Abstract()), e, op, now, Calm(now))
    {
      if e.selected.None? {
        NoteIsProper();
        service.Append(NoteRow(INTEGRATION_SKIPPED, Some(e.incidentId), None, now));
        return Skipped;
      }
      var existing := service.ledger.Lookup(e.selected.value.nonce);
      if existing.Some? && Terminal(existing.value.status) {
        return AlreadyDone(existing.value.status);
      }
      var ok := CallCommit(e, op, now);
      if !ok && existing.None? {
        return Threw;
      }
      ok := CallVerify(e, now);
      if !ok {
        return Threw;
      }
      ok := CallSettle(e, now);
      return if ok then SettledNow else Threw;
    }

    /** The body of the loop: an envelope whose incident is not marked yet. */
    method VisitOne(e: Envelope, handled: seq<Text>, op: Operator, now: nat) returns (more: seq<Text>)
      requires service.Valid()
      modifies this`processed, service, service.ledger
      ensures service.Valid()
      ensures Pass(service.Abstract(), processed, more)
           == Visit(old(Pass(service.Abstract(), processed, handled)), e, op, now)
    {
      more := handled;
      if e.incidentId in processed {
        return;
      }
      var result := ProcessEnvelope(e, op, now);
      if result == Threw {
        NoteIsProper();
        service.Append(NoteRow(INTEGRATION_SKIPPED, Some(e.incidentId), None, now));
        processed := processed[e.incidentId := Error];
      } else {
        processed := processed[e.incidentId := Handled(result)];
        more := handled + [e.incidentId];
      }
    }

    /** The loop over the recoveries. */
    method VisitEach(recoveries: seq<Envelope>, op: Operator, now: nat) returns (handled: seq<Text>)
      requires service.Valid()
      modifies this`processed, service, service.ledger
      ensures service.Valid()
      ensures Pass(service.Abstract(), processed, handled)
           == VisitAll(old(Pass(service.Abstract(), processed, [])), recoveries, op, now)
    {
      ghost var start := Pass(service.Abstract(), processed, []);
      handled := [];
      var i := 0;
      while i < |recoveries|
        invariant i <= |recoveries| && service.Valid()
        invariant Pass(service.Abstract(), processed, handled) == VisitAll(start, recoveries[..i], op, now)
      {
        VisitOneMore(start, recoveries, i, op, now);
        handled := VisitOne(recoveries[i], handled, op, now);
        i := i + 1;
      }
      assert recoveries[..i] == recoveries;
    }

    /** `pollOnce`: the state file is rewritten only if some envelope did not throw. */
    method PollOnce(recoveries: seq<Envelope>, op: Operator, now: nat) returns (handled: seq<Text>)
      requires service.Valid()
      modifies this`processed, this`saved, service, service.ledger
      ensures service.Valid()
      ensures Pass(service.Abstract(), processed, handled)
           == VisitAll(old(Pass(service.Abstract(), processed, [])), recoveries, op, now)
      ensures saved == if handled == [] then old(saved) else processed
      ensures Loop(service.Abstract(), processed, saved)
           == AfterPass(old(Loop(service.Abstract(), processed, saved)), Batch(recoveries, now), op)
    {
      handled := VisitEach(recoveries, op, now);
      if |handled| > 0 {
        saved := processed;
      }
    }
  }

  /** Nothing happens meanwhile. */
  lemma StillAwait(started: State, i: nat, now: nat)
    ensures var landed := Next(started, Land(i, now));
            Await(started, i, now, Still(now)) ==
            if i < |landed.tasks| && landed.tasks[i].Landed? then (Finished(landed, i, now), true) else (landed, false)
  {
    var landed := Next(started, Land(i, now));
    assert Run(started, []) == started && Run(landed, []) == landed;
  }

  lemma NoteIsProper()
    ensures ProperKind(INTEGRATION_SKIPPED)
  {
    assert |INTEGRATION_SKIPPED.name| == 19 && |COMMITTED| == 9 && |SETTLED| == 7 && |REFUNDED| == 8;
    assert |RECLAIMED| == 9 && |DELIVERY_VERIFIED| == 17 && |CLAIM_VERIFIED| == 14;
  }

  lemma VisitOneMore(p: Pass, recoveries: seq<Envelope>, i: nat, op: Operator, now: nat)
    requires i < |recoveries|
    ensures VisitAll(p, recoveries[..i + 1], op, now) == Visit(VisitAll(p, recoveries[..i], op, now), recoveries[i], op, now)
  {
    assert recoveries[..i + 1][..i] == recoveries[..i];
  }

  // ---- What a pass does ---------------------------------------------------------------------------

  /** Every envelope of a pass is marked, and marks once made stay. */
  lemma {:induction false} PassMarksEverything(p: Pass, recoveries: seq<Envelope>, op: Operator, now: nat)
    ensures var q := VisitAll(p, recoveries, op, now);
            && (forall i :: 0 <= i < |recoveries| ==> recoveries[i].incidentId in q.marks)
            && (forall id :: id in p.marks ==> id in q.marks && q.marks[id] == p.marks[id])
  {
    if recoveries != [] {
      PassMarksEverything(p, recoveries[..|recoveries| - 1], op, now);
    }
  }

  lemma {:induction false} MarkedAreSkipped(p: Pass, recoveries: seq<Envelope>, op: Operator, now: nat)
    requires forall i :: 0 <= i < |recoveries| ==> recoveries[i].incidentId in p.marks
    ensures VisitAll(p, recoveries, op, now) == p
  {
    if recoveries != [] {
      MarkedAreSkipped(p, recoveries[..|recoveries| - 1], op, now);
    }
  }

  /** A second pass over the same envelopes, in the same process, touches neither ledger nor chain, whether
      the first settled them or failed. */
  lemma SecondPassIsIdle(p: Pass, recoveries: seq<Envelope>, op: Operator, now: nat, later: nat)
    ensures var q := VisitAll(p, recoveries, op, now); VisitAll(q, recoveries, op, later) == q
  {
    PassMarksEverything(p, recoveries, op, now);
    MarkedAreSkipped(VisitAll(p, recoveries, op, now), recoveries, op, later);
  }

  /** The incidents a pass handles are the newly marked ones that did not fail, each once. */
  lemma {:induction false} HandledAreTheNewSuccesses(p: Pass, recoveries: seq<Envelope>, op: Operator, now: nat)
    requires p.handled == []
    ensures var q := VisitAll(p, recoveries, op, now);
            && NewSuccesses(p, q)
            && (forall i, j :: 0 <= i < j < |q.handled| ==> q.handled[i] != q.handled[j])
  {
    if recoveries != [] {
      var init, last := recoveries[..|recoveries| - 1], recoveries[|recoveries| - 1];
      HandledAreTheNewSuccesses(p, init, op, now);
      PassMarksEverything(p, init, op, now);
      VisitAddsOne(p, VisitAll(p, init, op, now), last, op, now);
    }
  }

  ghost predicate NewSuccesses(p: Pass, q: Pass) {
    forall id :: id in q.handled <==> id in q.marks && id !in p.marks && q.marks[id].Handled?
  }

  lemma VisitAddsOne(p: Pass, q: Pass, e: Envelope, op: Operator, now: nat)
    requires NewSuccesses(p, q) && p.marks.Keys <= q.marks.Keys
    ensures NewSuccesses(p, Visit(q, e, op, now))
  {
    if e.incidentId !in q.marks {
      assert e.incidentId !in q.handled;
    }
  }

  /** A pass in which every new envelope threw leaves the state file as it was: the failure marks live in
      memory only, and a restart hands the same envelopes to the pipeline again. */
  lemma FailuresAreForgotten(p: Pass, recoveries: seq<Envelope>, op: Operator, now: nat)
    requires p.handled == []
    ensures var q := VisitAll(p, recoveries, op, now);
            q.handled == [] <==> forall id :: id in q.marks && id !in p.marks ==> q.marks[id] == Error
  {
    HandledAreTheNewSuccesses(p, recoveries, op, now);
    var q := VisitAll(p, recoveries, op, now);
    if q.handled != [] {
      assert q.handled[0] in q.handled;
    }
  }

  /** The marks after a pass are those before it and those of its envelopes. */
  lemma {:induction false} MarksAreVisited(p: Pass, recoveries: seq<Envelope>, op: Operator, now: nat, id: Text)
    requires id in VisitAll(p, recoveries, op, now).marks && id !in p.marks
    ensures exists i :: 0 <= i < |recoveries| && recoveries[i].incidentId == id
  {
    var n := |recoveries| - 1;
    if id in VisitAll(p, recoveries[..n], op, now).marks {
      MarksAreVisited(p, recoveries[..n], op, now, id);
    } else {
      assert recoveries[n].incidentId == id;
    }
  }

  // ---- What a crash of the poller forgets -----------------------------------------------------------

  /** The loop between two passes: what it remembers, and what is in the state file. */
  datatype Loop = Loop(state: State, marks: Marks, saved: Marks)

  datatype Batch = Batch(recoveries: seq<Envelope>, now: nat)

  function Polled(l: Loop, batch: Batch, op: Operator): Pass {
    VisitAll(Pass(l.state, l.marks, []), batch.recoveries, op, batch.now)
  }

  function AfterPass(l: Loop, batch: Batch, op: Operator): Loop {
    var q := Polled(l, batch, op);
    Loop(q.state, q.marks, if q.handled == [] then l.saved else q.marks)
  }

  /** A crash and the restart after it: the service starts again, and the marks are read from the state file. */
  function RestartedLoop(l: Loop): Loop {
    Loop(Restarted(l.state), l.saved, l.saved)
  }

  function AfterPasses(l: Loop, batches: seq<Batch>, op: Operator): Loop {
    if batches == [] then l else AfterPass(AfterPasses(l, batches[..|batches| - 1], op), batches[|batches| - 1], op)
  }

  /** The k-th pass handles some envelope without an error. */
  predicate HandlesSome(l: Loop, batches: seq<Batch>, op: Operator, k: nat)
    requires k < |batches|
  {
    Polled(AfterPasses(l, batches[..k], op), batches[k], op).handled != []
  }

  lemma PassKeepsMarks(l: Loop, batch: Batch, op: Operator)
    ensures l.marks.Keys <= AfterPass(l, batch, op).marks.Keys
    ensures forall id :: id in l.marks ==> AfterPass(l, batch, op).marks[id] == l.marks[id]
  {
    PassMarksEverything(Pass(l.state, l.marks, []), batch.recoveries, op, batch.now);
  }

  /** The k-th pass handles something, and the incident is marked by then. */
  predicate SavesAt(l: Loop, batches: seq<Batch>, op: Operator, id: Text, k: nat) {
    k < |batches| && HandlesSome(l, batches, op, k) && id in AfterPasses(l, batches[..k + 1], op).marks
  }

  ghost predicate SavedBy(l: Loop, batches: seq<Batch>, op: Operator, id: Text) {
    exists k: nat :: SavesAt(l, batches, op, id, k)
  }

  /** A mark is in the state file exactly when the pass that made it, or a later one, handled some envelope; a crash
      forgets the other marks (`RestartHandsBackIff`). */
  lemma MarkIsSavedIff(l: Loop, batches: seq<Batch>, op: Operator, id: Text)
    requires l.saved == l.marks
    ensures var d := AfterPasses(l, batches, op);
            && (id in d.saved <==> id in l.saved || SavedBy(l, batches, op, id))
            && (id in d.saved ==> id in d.marks && d.saved[id] == d.marks[id])
  {
    SavedAreMarked(l, batches, op, id);
    SavedIff(l, batches, op, id);
  }

  lemma {:induction false} SavedAreMarked(l: Loop, batches: seq<Batch>, op: Operator, id: Text)
    requires l.saved == l.marks
    ensures var d := AfterPasses(l, batches, op); id in d.saved ==> id in d.marks && d.saved[id] == d.marks[id]
  {
    if batches != [] {
      SavedAreMarked(l, batches[..|batches| - 1], op, id);
      LastPassSaves(AfterPasses(l, batches[..|batches| - 1], op), batches[|batches| - 1], op, id);
    }
  }

  lemma {:induction false} SavedIff(l: Loop, batches: seq<Batch>, op: Operator, id: Text)
    requires l.saved == l.marks
    ensures id in AfterPasses(l, batches, op).saved <==> id in l.saved || SavedBy(l, batches, op, id)
  {
    if batches != [] {
      var init, n := batches[..|batches| - 1], |batches| - 1;
      SavedIff(l, init, op, id);
      SavedAreMarked(l, init, op, id);
      EarlierSaves(l, batches, op, id);
      if id in l.marks {
        MarksGrow(l, batches, op, id);
      }
      LastSaves(l, batches, op, id);
      LastPassSaves(AfterPasses(l, init, op), batches[n], op, id);
    }
  }

  lemma LastPassSaves(l: Loop, batch: Batch, op: Operator, id: Text)
    requires id in l.saved ==> id in l.marks && l.saved[id] == l.marks[id]
    ensures var d := AfterPass(l, batch, op);
            && (id in d.saved <==> if Polled(l, batch, op).handled == [] then id in l.saved else id in d.marks)
            && (id in l.marks ==> id in d.marks) && (id in d.saved ==> id in d.marks && d.saved[id] == d.marks[id])
  {
    PassKeepsMarks(l, batch, op);
  }

  lemma {:induction false} MarksGrow(l: Loop, batches: seq<Batch>, op: Operator, id: Text)
    requires id in l.marks
    ensures id in AfterPasses(l, batches, op).marks
  {
    if batches != [] {
      MarksGrow(l, batches[..|batches| - 1], op, id);
      PassKeepsMarks(AfterPasses(l, batches[..|batches| - 1], op), batches[|batches| - 1], op);
    }
  }

  lemma Prefixes(l: Loop, batches: seq<Batch>, op: Operator, id: Text, n: nat, k: nat)
    requires k < n <= |batches|
    ensures SavesAt(l, batches[..n], op, id, k) == SavesAt(l, batches, op, id, k)
  {
    assert batches[..n][..k] == batches[..k];
    assert batches[..n][..k + 1] == batches[..k + 1];
  }

  lemma EarlierSaves(l: Loop, batches: seq<Batch>, op: Operator, id: Text)
    requires batches != []
    ensures var n := |batches| - 1;
            SavedBy(l, batches, op, id) <==> SavedBy(l, batches[..n], op, id) || SavesAt(l, batches, op, id, n)
  {
    var n := |batches| - 1;
    forall k: nat | k < n ensures SavesAt(l, batches[..n], op, id, k) == SavesAt(l, batches, op, id, k) {
      Prefixes(l, batches, op, id, n, k);
    }
  }

  lemma LastSaves(l: Loop, batches: seq<Batch>, op: Operator, id: Text)
    requires batches != []
    ensures var n := |batches| - 1;
            var before := AfterPasses(l, batches[..n], op);
            SavesAt(l, batches, op, id, n)
            <==> Polled(before, batches[n], op).handled != [] && id in AfterPass(before, batches[n], op).marks
  {
    assert batches[..|batches| - 1 + 1] == batches;
  }

  /** A pass hands the envelope of an incident that is not marked to the pipeline, at its first place among the recoveries. */
  lemma UnmarkedIsHandedOn(p: Pass, recoveries: seq<Envelope>, i: nat, op: Operator, now: nat)
    requires i < |recoveries| && recoveries[i].incidentId !in p.marks
    requires forall j :: 0 <= j < i ==> recoveries[j].incidentId != recoveries[i].incidentId
    ensures var e, q := recoveries[i], VisitAll(p, recoveries[..i], op, now);
            var r := Process(q.state, e, op, now, Calm(now)).1;
            && e.incidentId !in q.marks
            && VisitAll(p, recoveries[..i + 1], op, now).marks
               == q.marks[e.incidentId := if r == Threw then Error else Handled(r)]
  {
    var id := recoveries[i].incidentId;
    VisitOneMore(p, recoveries, i, op, now);
    if id in VisitAll(p, recoveries[..i], op, now).marks {
      MarksAreVisited(p, recoveries[..i], op, now, id);
    }
  }

  /** After a restart an envelope is handed to the pipeline again exactly when its incident is not in the state file. */
  lemma RestartHandsBackIff(l: Loop, e: Envelope, op: Operator, now: nat)
    ensures var r, q := RestartedLoop(l), Polled(RestartedLoop(l), Batch([e], now), op);
            var (state, result) := Process(r.state, e, op, now, Calm(now));
            if e.incidentId in l.saved then q == Pass(r.state, l.saved, [])
            else q.marks == l.saved[e.incidentId := if result == Threw then Error else Handled(result)]
                 && (result != Threw ==> q.state == state)
  {
    var r := RestartedLoop(l);
    var p := Pass(r.state, r.marks, []);
    assert [e][..0] == [] && [e][..1] == [e];
    VisitOneMore(p, [e], 0, op, now);
    assert VisitAll(p, [e], op, now) == Visit(p, e, op, now);
  }

  lemma UnbuildableThrows(s: State, e: Envelope, op: Operator, now: nat)
    requires e.selected.Some? && e.selected.value.built.None? && Find(s.registry, e.selected.value.nonce).None?
    ensures Process(s, e, op, now, Calm(now)).1 == Threw
  {}

  /** Such a failure: an envelope whose voucher does not build, alone in its pass. Its mark never reaches the state file. */
  lemma AFailureIsForgotten(s: State, saved: Marks, e: Envelope, op: Operator, now: nat)
    requires e.selected.Some? && e.selected.value.built.None? && Find(s.registry, e.selected.value.nonce).None?
    requires e.incidentId !in saved
    ensures var d := AfterPass(Loop(s, saved, saved), Batch([e], now), op);
            && e.incidentId in d.marks && d.marks[e.incidentId] == Error && d.saved == saved
            && e.incidentId !in RestartedLoop(d).marks
  {
    var p := Pass(s, saved, []);
    UnbuildableThrows(s, e, op, now);
    assert [e][..0] == [] && [e][..1] == [e];
    VisitOneMore(p, [e], 0, op, now);
    assert VisitAll(p, [e], op, now) == Visit(p, e, op, now);
  }
}
