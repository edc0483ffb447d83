/** The settlement pipeline over one result envelope (src/sui/integration.js): when a run of it settles, whatever
    lands on the chain meanwhile, and what a re-run can still do after a crash. */
module Integration {
  import opened Units
  import opened LedgerText
  import opened Events
  import opened TrustSteps
  import opened TrustSafety
  import opened TrustFinality
  import Delivery
  import Escrow

  /** A selected offer with its session report; `built` is what the voucher builder makes of it, None where it
      throws. */
  datatype Selected = Selected(nonce: Text, built: Option<Escrow.Voucher>, report: Report)

  datatype Operator = Operator(authority: Escrow.Authority, buyer: Text)

  /** `selected` is None when the envelope is not SELECTED or carries no offer. */
  datatype Envelope = Envelope(incidentId: Text, selected: Option<Selected>)

  datatype Result = Skipped | AlreadyDone(status: Kind) | SettledNow | Threw

  const INTEGRATION_SKIPPED: Kind := Kind.Note(Ascii("INTEGRATION_SKIPPED"))

  // ---- The pipeline ----------------------------------------------------------------------

  /** What happens while one call is awaited: steps of others before its transaction lands at time `at`, and
      after that until the method resumes. */
  datatype Air = Air(mid: seq<Step>, at: nat, late: seq<Step>)

  datatype Weather = Weather(commit: Air, verify: Air, settle: Air)

  function Still(now: nat): Air {
    Air([], now, [])
  }

  function Calm(now: nat): Weather {
    Weather(Still(now), Still(now), Still(now))
  }

  /** Transactions left under way by methods that are gone, and transactions of other people. */
  predicate Background(step: Step) {
    step.LandOrphan? || (step.Outside? && (step.tx.DepositTx? || step.tx.BuyerTx? || step.tx.ReclaimTx?))
  }

  predicate AllBackground(steps: seq<Step>) {
    forall i :: 0 <= i < |steps| ==> Background(steps[i])
  }

  predicate Mild(air: Air) {
    AllBackground(air.mid) && AllBackground(air.late)
  }

  predicate AllMild(w: Weather) {
    Mild(w.commit) && Mild(w.verify) && Mild(w.settle)
  }

  /** The rest of an awaited call: its transaction lands, it reports. */
  function Await(started: State, i: nat, now: nat, air: Air): (State, bool) {
    var landed := Next(Run(started, air.mid), Land(i, air.at));
    if i < |landed.tasks| && landed.tasks[i].Landed?
    then (Next(Run(landed, air.late), Finish(i, now)), true)
    else (landed, false)
  }

  /** One awaited service call; one that starts no method throws or returns at once. */
  function Call(s: State, step: Step, now: nat, air: Air): (State, bool) {
    var started := Next(s, step);
    if |started.tasks| == |s.tasks| + 1 then Await(started, |s.tasks|, now, air) else (started, false)
  }

  function CommitStep(e: Envelope, op: Operator, now: nat): Step
    requires e.selected.Some?
  {
    StartCommit(Offer(e.incidentId, Some(e.selected.value.nonce), e.selected.value.built), op.authority, op.buyer, now)
  }

  function VerifyStep(e: Envelope): Step
    requires e.selected.Some?
  {
    StartVerify(e.incidentId, e.selected.value.report)
  }

  function SettleStep(e: Envelope, now: nat): Step {
    StartActivation(e.incidentId, Available, now)
  }

  /** Commit unless the nonce is known, then verify, then settle; any call that throws ends it. */
  function Process(s: State, e: Envelope, op: Operator, now: nat, w: Weather): (State, Result) {
    if e.selected.None? then (Emitted(s, NoteRow(INTEGRATION_SKIPPED, Some(e.incidentId), None, now)), Skipped)
    else
      var existing := Find(Registered(s), e.selected.value.nonce);
      if existing.Some? && Terminal(existing.value.status) then (s, AlreadyDone(existing.value.status))
      else
        var (committed, ok) := Call(s, CommitStep(e, op, now), now, w.commit);
        if !ok && existing.None? then (committed, Threw)
        else
          var (verified, accepted) := Call(committed, VerifyStep(e), now, w.verify);
          if !accepted then (verified, Threw)
          else
            var (settled, paid) := Call(verified, SettleStep(e, now), now, w.settle);
            (settled, if paid then SettledNow else Threw)
  }

  /** A nonce that is closed in the registry costs nothing: no row, no transaction. */
  lemma ClosedNonceIsLeftAlone(s: State, e: Envelope, op: Operator, now: nat, w: Weather)
    requires Intact(s) && e.selected.Some? && Closed(s.rows, e.selected.value.nonce)
    ensures Process(s, e, op, now, w) == (s, AlreadyDone(StatusOf(s.rows, e.selected.value.nonce).value))
  {}

  /** An envelope is skipped exactly when nothing was selected; it then leaves a note under its incident and nothing else. */
  lemma SkippedIff(s: State, e: Envelope, op: Operator, now: nat, w: Weather)
    ensures Process(s, e, op, now, w).1 == Skipped <==> e.selected.None?
    ensures var t := Process(s, e, op, now, w).0;
            e.selected.None? ==> t.chain == s.chain && t.tasks == s.tasks && (s.tail == Complete ==> NoteAdded(s.rows, t.rows, e.incidentId))
  {}

  predicate NoteAdded(rows: seq<Row>, after: seq<Row>, incidentId: Text) {
    && |after| == |rows| + 1 && after[..|rows|] == rows
    && var row := after[|rows|];
       row.kind == INTEGRATION_SKIPPED && row.incidentId == Some(incidentId) && row.nonce.None? && row.data == NO_DATA
  }

  // ---- What stays true of one incident, whatever is done for it -------------------------------

  /** The nonce is open under the incident. */
  predicate OpenIn(reg: Registry, incidentId: Text, nonce: Text) {
    var e := Find(reg, nonce);
    e.Some? && e.value.status == Committed && e.value.incidentId == Some(incidentId)
  }

  /** Nothing but this nonce is open under the incident, and this nonce nowhere else. */
  ghost predicate OpensOnly(reg: Registry, incidentId: Text, nonce: Text) {
    && (forall m: Text :: OpenIn(reg, incidentId, m) ==> m == nonce)
    && (Find(reg, nonce).Some? && Find(reg, nonce).value.status == Committed ==> OpenIn(reg, incidentId, nonce))
  }

  /** A commit under way is for the incident exactly when it is for the nonce. */
  predicate OwnWork(w: Work, incidentId: Text, nonce: Text) {
    match w
    case Committing(v, _, _, _) => OwnPair(v.deal.incidentId, v.deal.nonce, incidentId, nonce)
    case Confirming(incident, n, _, _, _) => OwnPair(incident, n, incidentId, nonce)
    case _ => true
  }

  predicate OwnPair(incident: Text, n: Text, incidentId: Text, nonce: Text) {
    incident != [] && (incident == incidentId <==> n == nonce)
  }

  ghost predicate OwnTasks(tasks: seq<Task>, incidentId: Text, nonce: Text) {
    forall i :: 0 <= i < |tasks| && !tasks[i].Ended? ==> OwnWork(tasks[i].work, incidentId, nonce)
  }

  ghost predicate Steady(s: State, incidentId: Text, nonce: Text) {
    && Inv(s) && Intact(s) && incidentId != [] && nonce != []
    && OpensOnly(s.registry, incidentId, nonce) && OwnTasks(s.tasks, incidentId, nonce)
  }

  /** Anything that can be done, for this incident or another: any call of the service, any transaction landing,
      dropped or reporting, anything in the background, and a crash at any await. Only a second nonce for this
      incident, or a second incident for this nonce, is left out. */
  predicate OwnStep(s: State, step: Step, incidentId: Text, nonce: Text) {
    Proper(s, step) &&
    match step
    case StartCommit(offer, _, _, _) =>
      offer.built.Some? ==> OwnPair(offer.built.value.deal.incidentId, offer.built.value.deal.nonce, incidentId, nonce)
    case StartConfirm(incident, n, _, _, _) => OwnPair(incident, n, incidentId, nonce)
    case CrashInAppend(_, _) => false
    case _ => true
  }

  /** A row that commits no second nonce under the incident. */
  predicate OwnRow(row: Row, incidentId: Text, nonce: Text) {
    row.kind == Committed ==>
      row.nonce.Some? && row.incidentId.Some? && OwnPair(row.incidentId.value, row.nonce.value, incidentId, nonce)
  }

  lemma RegistryAfter(s: State, step: Step)
    requires Intact(s) && !step.CrashInAppend?
    ensures Next(s, step).registry
         == if Writes(s, step).Some? then Index(s.registry, Stamped(s, Writes(s, step).value)) else s.registry
  {
    if Starts(step) {
      StartsMoveFile(s, step);
    } else if !step.Crash? {
      OthersMoveFile(s, step);
    }
  }

  lemma WritesOwn(s: State, step: Step, incidentId: Text, nonce: Text)
    requires OwnTasks(s.tasks, incidentId, nonce) && OwnStep(s, step, incidentId, nonce) && Writes(s, step).Some?
    ensures OwnRow(Writes(s, step).value, incidentId, nonce)
  {
    if step.Finish? {
      assert OwnWork(s.tasks[step.task].work, incidentId, nonce);
    }
  }

  lemma QuietRow(reg: Registry, row: Row, incidentId: Text, m: Text)
    requires !Lifecycle(row.kind)
    ensures OpenIn(Index(reg, row), incidentId, m) == OpenIn(reg, incidentId, m)
    ensures Find(Index(reg, row), m).Some? == Find(reg, m).Some?
    ensures Find(reg, m).Some? ==> Find(Index(reg, row), m).value.status == Find(reg, m).value.status
  {
    FindIndex(reg, row, m);
  }

  lemma OwnRowKeeps(reg: Registry, row: Row, incidentId: Text, nonce: Text)
    requires OpensOnly(reg, incidentId, nonce) && OwnRow(row, incidentId, nonce) && incidentId != []
    ensures OpensOnly(Index(reg, row), incidentId, nonce)
  {
    FindIndex(reg, row, nonce);
    if !Lifecycle(row.kind) {
      QuietRow(reg, row, incidentId, nonce);
    }
    forall m: Text | OpenIn(Index(reg, row), incidentId, m) ensures m == nonce {
      OwnRowOpens(reg, row, incidentId, nonce, m);
    }
  }

  lemma OwnRowOpens(reg: Registry, row: Row, incidentId: Text, nonce: Text, m: Text)
    requires OwnRow(row, incidentId, nonce) && incidentId != [] && OpenIn(Index(reg, row), incidentId, m)
    ensures m == nonce || OpenIn(reg, incidentId, m)
  {
    if !Lifecycle(row.kind) {
      QuietRow(reg, row, incidentId, m);
    } else {
      FindIndex(reg, row, m);
    }
  }

  lemma OpenIsOwn(s: State, incidentId: Text, nonce: Text)
    requires OneEach(s.registry) && OpensOnly(s.registry, incidentId, nonce) && OpenCommitment(s, incidentId).Some?
    ensures OpenCommitment(s, incidentId).value.nonce == nonce
  {
    var e := OpenCommitment(s, incidentId).value;
    FindMember(s.registry, e);
    assert OpenIn(s.registry, incidentId, e.nonce);
  }

  /** The one open nonce is the one the service finds. */
  lemma OpenIsFound(s: State, incidentId: Text, nonce: Text)
    requires OneEach(s.registry) && OpensOnly(s.registry, incidentId, nonce) && OpenIn(s.registry, incidentId, nonce)
    ensures OpenCommitment(s, incidentId) == Find(s.registry, nonce)
  {
    assert Find(s.registry, nonce).value in OfIncident(s.registry, incidentId);
    OpenIsOwn(s, incidentId, nonce);
    FindMember(s.registry, OpenCommitment(s, incidentId).value);
  }

  /** A start adds at most one method, which belongs to the incident. */
  ghost predicate AddsOwn(tasks: seq<Task>, after: seq<Task>, incidentId: Text, nonce: Text) {
    after == tasks || exists w :: after == tasks + [Waiting(w)] && OwnWork(w, incidentId, nonce)
  }

  lemma StartsOwn(s: State, step: Step, incidentId: Text, nonce: Text)
    requires Starts(step) && OwnStep(s, step, incidentId, nonce)
    ensures AddsOwn(s.tasks, Next(s, step).tasks, incidentId, nonce)
  {
    if Next(s, step).tasks != s.tasks {
      var w := Next(s, step).tasks[|s.tasks|].work;
      assert Next(s, step).tasks == s.tasks + [Waiting(w)];
    }
  }

  lemma TasksStayOwn(s: State, step: Step, incidentId: Text, nonce: Text)
    requires OwnTasks(s.tasks, incidentId, nonce) && OwnStep(s, step, incidentId, nonce)
    ensures OwnTasks(Next(s, step).tasks, incidentId, nonce)
  {
    if Starts(step) {
      StartsOwn(s, step, incidentId, nonce);
    } else {
      OldTasksStayOwn(s, step, incidentId, nonce);
    }
  }

  lemma OldTasksStayOwn(s: State, step: Step, incidentId: Text, nonce: Text)
    requires !Starts(step) && OwnTasks(s.tasks, incidentId, nonce)
    ensures OwnTasks(Next(s, step).tasks, incidentId, nonce)
  {}

  lemma StepStaysSteady(s: State, step: Step, incidentId: Text, nonce: Text)
    requires Steady(s, incidentId, nonce) && OwnStep(s, step, incidentId, nonce)
    ensures Steady(Next(s, step), incidentId, nonce)
  {
    StepKeeps(s, step);
    StepStaysIntact(s, step);
    TasksStayOwn(s, step, incidentId, nonce);
    RegistryAfter(s, step);
    if Writes(s, step).Some? {
      WritesOwn(s, step, incidentId, nonce);
      OwnRowKeeps(s.registry, Stamped(s, Writes(s, step).value), incidentId, nonce);
    }
  }

  predicate OwnRun(s: State, steps: seq<Step>, incidentId: Text, nonce: Text) {
    steps != [] ==>
      var init := steps[..|steps| - 1];
      OwnRun(s, init, incidentId, nonce) && OwnStep(Run(s, init), steps[|steps| - 1], incidentId, nonce)
  }

  /** Whatever is done, in whatever order and however often, by overlapping runs of the pipeline and calls from
      elsewhere, and at whatever await it crashes, leaves a state from which the incident can be run again. */
  lemma {:induction false} RunStaysSteady(s: State, steps: seq<Step>, incidentId: Text, nonce: Text)
    requires Steady(s, incidentId, nonce) && OwnRun(s, steps, incidentId, nonce)
    ensures Steady(Run(s, steps), incidentId, nonce)
  {
    if steps != [] {
      var init := steps[..|steps| - 1];
      RunStaysSteady(s, init, incidentId, nonce);
      StepStaysSteady(Run(s, init), steps[|steps| - 1], incidentId, nonce);
    }
  }

  // ---- What the background does ----------------------------------------------------------

  /** Only the chain has moved on, and the transactions under way. */
  ghost predicate OnlyChainMoved(s: State, t: State) {
    t == s.(chain := t.chain, orphans := t.orphans) && Escrow.Extends(s.chain, t.chain)
  }

  lemma BackgroundStep(s: State, step: Step)
    requires Background(step)
    ensures OnlyChainMoved(s, Next(s, step))
  {
    StepExtends(s, step);
  }

  lemma {:induction false} BackgroundRun(s: State, steps: seq<Step>)
    requires AllBackground(steps)
    ensures OnlyChainMoved(s, Run(s, steps))
  {
    if steps != [] {
      var before := Run(s, steps[..|steps| - 1]);
      BackgroundRun(s, steps[..|steps| - 1]);
      BackgroundStep(before, steps[|steps| - 1]);
      ExtendsOn(s.chain, before.chain, Run(s, steps).chain);
    }
  }

  lemma ExtendsOn(a: Escrow.Chain, b: Escrow.Chain, c: Escrow.Chain)
    requires Escrow.Extends(a, b) && Escrow.Extends(b, c)
    ensures Escrow.Extends(a, c)
  {
    forall n | n in a.commitments ensures n in c.commitments && Escrow.Later(a.commitments[n], c.commitments[n]) {
      assert Escrow.Later(a.commitments[n], b.commitments[n]);
      assert Escrow.Later(b.commitments[n], c.commitments[n]);
    }
  }

  lemma {:induction false} BackgroundStaysSteady(s: State, steps: seq<Step>, incidentId: Text, nonce: Text)
    requires Steady(s, incidentId, nonce) && AllBackground(steps)
    ensures Steady(Run(s, steps), incidentId, nonce)
  {
    if steps != [] {
      BackgroundStaysSteady(s, steps[..|steps| - 1], incidentId, nonce);
      StepStaysSteady(Run(s, steps[..|steps| - 1]), steps[|steps| - 1], incidentId, nonce);
    }
  }

  // ---- One call at a time ----------------------------------------------------------------

  /** The chain that a call's transaction meets. */
  function WhenLanding(s: State, step: Step, air: Air): Escrow.Chain {
    Run(Next(s, step), air.mid).chain
  }

  lemma SameResult(s: State, t: State, w: Work, digest: nat, now: nat)
    requires s.registry == t.registry
    ensures ResultRow(s, w, digest, now) == ResultRow(t, w, digest, now)
  {}

  lemma FinishStores(s: State, i: nat, w: Work, digest: nat, now: nat)
    requires i < |s.tasks| && s.tasks[i] == Landed(w, digest)
    ensures var t := Next(s, Finish(i, now));
            SameFile(t, Emitted(s, ResultRow(s, w, digest, now))) && t.chain == s.chain
  {
    assert FinalRow(s, s.tasks[i], now) == Some(ResultRow(s, w, digest, now));
    EmittedSameFile(s.(tasks := s.tasks[i := Ended]), s, ResultRow(s, w, digest, now));
  }

  lemma LateFinish(s: State, i: nat, w: Work, digest: nat, now: nat, late: seq<Step>)
    requires i < |s.tasks| && s.tasks[i] == Landed(w, digest) && AllBackground(late)
    ensures var t := Next(Run(s, late), Finish(i, now));
            SameFile(t, Emitted(s, ResultRow(s, w, digest, now))) && Escrow.Extends(s.chain, t.chain)
  {
    BackgroundRun(s, late);
    var l := Run(s, late);
    FinishStores(l, i, w, digest, now);
    SameResult(l, s, w, digest, now);
    EmittedSameFile(l, s, ResultRow(s, w, digest, now));
  }

  lemma LandsOnMid(s: State, i: nat, w: Work, mid: seq<Step>, at: nat)
    requires i < |s.tasks| && s.tasks[i] == Waiting(w) && TxOf(w).Some? && AllBackground(mid)
    ensures var c, d := Run(s, mid).chain, Next(Run(s, mid), Land(i, at));
            && SameFile(d, s) && |d.tasks| == |s.tasks| && Escrow.Extends(s.chain, c)
            && match Escrow.Execute(c, TxOf(w).value, at)
               case Done(chain) => d.chain == chain && d.tasks[i] == Landed(w, |c.log|)
               case Abort(_) => d.chain == c && d.tasks[i] == Ended
  {
    BackgroundRun(s, mid);
  }

  /** What comes of a started method whose transaction meets chain `c` at time `at`: it reports exactly when the
      transaction does not abort. */
  ghost predicate Reported(t: State, ok: bool, started: State, w: Work, c: Escrow.Chain, at: nat, now: nat)
    requires TxOf(w).Some?
  {
    match Escrow.Execute(c, TxOf(w).value, at)
    case Done(chain) => ok && Escrow.Extends(chain, t.chain) && SameFile(t, Emitted(started, ResultRow(started, w, |c.log|, now)))
    case Abort(_) => !ok && t.chain == c && SameFile(t, started)
  }

  lemma AwaitOutcome(started: State, i: nat, w: Work, now: nat, air: Air)
    requires Mild(air) && i < |started.tasks| && started.tasks[i] == Waiting(w) && TxOf(w).Some?
    ensures var c, t := Run(started, air.mid).chain, Await(started, i, now, air);
            Escrow.Extends(started.chain, c) && Reported(t.0, t.1, started, w, c, air.at, now)
  {
    LandsOnMid(started, i, w, air.mid, air.at);
    var landed := Next(Run(started, air.mid), Land(i, air.at));
    if landed.tasks[i].Landed? {
      var digest := landed.tasks[i].digest;
      LateFinish(landed, i, w, digest, now, air.late);
      EmittedSameFile(landed, started, ResultRow(started, w, digest, now));
    }
  }

  /** What this method reports, if it is a commit, has a share and a fee that add up. */
  predicate SumsAt(s: State, i: nat) {
    i < |s.tasks| && !s.tasks[i].Ended? && s.tasks[i].work.Committing? ==> AddsUp(s.tasks[i].work.voucher)
  }

  predicate SumsIn(step: Step) {
    step.StartCommit? && step.offer.built.Some? ==> AddsUp(step.offer.built.value)
  }

  lemma StartedSums(s: State, step: Step)
    requires SumsIn(step)
    ensures SumsAt(Next(s, step), |s.tasks|)
  {}

  lemma LandedSums(s: State, i: nat, mid: seq<Step>, at: nat)
    requires SumsAt(s, i) && AllBackground(mid)
    ensures SumsAt(Next(Run(s, mid), Land(i, at)), i)
  {
    BackgroundRun(s, mid);
  }

  lemma LateSums(s: State, i: nat, now: nat, late: seq<Step>, incidentId: Text, nonce: Text)
    requires SumsAt(s, i) && i < |s.tasks| && s.tasks[i].Landed? && AllBackground(late)
    ensures OwnStep(Run(s, late), Finish(i, now), incidentId, nonce)
  {
    BackgroundRun(s, late);
    assert Run(s, late).tasks == s.tasks;
  }

  lemma AwaitStaysSteady(s: State, i: nat, now: nat, air: Air, incidentId: Text, nonce: Text)
    requires Steady(s, incidentId, nonce) && Mild(air) && SumsAt(s, i)
    ensures Steady(Await(s, i, now, air).0, incidentId, nonce)
  {
    BackgroundStaysSteady(s, air.mid, incidentId, nonce);
    StepStaysSteady(Run(s, air.mid), Land(i, air.at), incidentId, nonce);
    var landed := Next(Run(s, air.mid), Land(i, air.at));
    LandedSums(s, i, air.mid, air.at);
    if i < |landed.tasks| && landed.tasks[i].Landed? {
      LandedStaysSteady(landed, i, now, air, incidentId, nonce);
    }
  }

  lemma LandedStaysSteady(s: State, i: nat, now: nat, air: Air, incidentId: Text, nonce: Text)
    requires Steady(s, incidentId, nonce) && Mild(air) && i < |s.tasks| && s.tasks[i].Landed? && SumsAt(s, i)
    ensures Steady(Next(Run(s, air.late), Finish(i, now)), incidentId, nonce)
  {
    BackgroundStaysSteady(s, air.late, incidentId, nonce);
    LateSums(s, i, now, air.late, incidentId, nonce);
    StepStaysSteady(Run(s, air.late), Finish(i, now), incidentId, nonce);
  }

  lemma CallStaysSteady(s: State, step: Step, now: nat, air: Air, incidentId: Text, nonce: Text)
    requires Steady(s, incidentId, nonce) && OwnStep(s, step, incidentId, nonce) && Mild(air) && SumsIn(step)
    ensures Steady(Call(s, step, now, air).0, incidentId, nonce)
  {
    StepStaysSteady(s, step, incidentId, nonce);
    StartedSums(s, step);
    AwaitStaysSteady(Next(s, step), |s.tasks|, now, air, incidentId, nonce);
  }

  // ---- Committing, verifying and settling one envelope -------------------------------------------

  /** What the envelope says hangs together. */
  predicate Fits(e: Envelope) {
    && e.selected.Some? && e.selected.value.nonce != [] && e.incidentId != [] && e.selected.value.report.logDigest != []
    && (e.selected.value.built.Some? ==>
          var v := e.selected.value.built.value;
          v.deal.nonce == e.selected.value.nonce && v.deal.incidentId == e.incidentId && AddsUp(v))
  }

  /** The pipeline may be handed this envelope. */
  ghost predicate Ready(s: State, e: Envelope) {
    Fits(e) && Steady(s, e.incidentId, e.selected.value.nonce)
  }

  ghost predicate ReadyAndOpen(s: State, e: Envelope) {
    Ready(s, e) && OpenIn(s.registry, e.incidentId, e.selected.value.nonce)
  }

  lemma CommitSpawns(s: State, e: Envelope, op: Operator, now: nat)
    requires e.selected.Some? && e.selected.value.built.Some? && Find(s.registry, e.selected.value.nonce).None?
    ensures var v := e.selected.value.built.value;
            Next(s, CommitStep(e, op, now))
            == Spawn(Emitted(s, NoteRow(VERIFIED, Some(v.deal.incidentId), Some(v.deal.nonce), now)),
                     Committing(v, op.authority, op.buyer, |s.rows|))
  {}

  /** The entry carries the voucher's amounts and digest. */
  predicate OnRecord(entry: Option<Entry>, v: Escrow.Voucher) {
    && entry.Some? && entry.value.amount == Some(v.deal.amount) && entry.value.providerAmount == Some(v.share)
    && entry.value.platformFee == Some(v.deal.fee) && entry.value.voucherDigest == Some(v.deal.digest)
  }

  lemma CommittedEntry(reg: Registry, row: Row, incidentId: Text, nonce: Text)
    requires row.kind == Committed && row.nonce == Some(nonce) && nonce != []
    requires row.incidentId == Some(incidentId) && incidentId != []
    ensures OpenIn(Index(reg, row), incidentId, nonce)
    ensures var e := Find(Index(reg, row), nonce).value;
            && e.amount == row.data.amount && e.providerAmount == row.data.providerAmount
            && e.platformFee == row.data.platformFee && e.voucherDigest == row.data.voucherDigest
  {
    FindIndex(reg, row, nonce);
  }

  lemma CommitTold(t: State, ok: bool, started: State, w: Work, c: Escrow.Chain, at: nat, now: nat)
    requires w.Committing? && w.voucher.deal.nonce != [] && w.voucher.deal.incidentId != []
    requires Reported(t, ok, started, w, c, at, now)
    ensures ok == Escrow.Commit(c, w.voucher, w.authority, w.buyer, at).Done?
    ensures ok ==> && OpenIn(t.registry, w.voucher.deal.incidentId, w.voucher.deal.nonce)
                   && OnRecord(Find(t.registry, w.voucher.deal.nonce), w.voucher)
  {
    if ok {
      var row := Stamped(started, ResultRow(started, w, |c.log|, now));
      CommittedEntry(Replay(started.rows), row, w.voucher.deal.incidentId, w.voucher.deal.nonce);
    }
  }

  /** The commit of an unknown nonce registers it under its incident, with all its amounts, exactly when the chain takes it as it lands. */
  lemma CommitReported(s: State, e: Envelope, op: Operator, now: nat, air: Air)
    requires Ready(s, e) && Mild(air)
    requires Find(s.registry, e.selected.value.nonce).None? && e.selected.value.built.Some?
    ensures var v, step := e.selected.value.built.value, CommitStep(e, op, now);
            var t := Call(s, step, now, air);
            && t.1 == Escrow.Commit(WhenLanding(s, step, air), v, op.authority, op.buyer, air.at).Done?
            && Ready(t.0, e)
            && (t.1 ==> ReadyAndOpen(t.0, e) && OnRecord(Find(t.0.registry, v.deal.nonce), v))
  {
    CommitSpawns(s, e, op, now);
    var w := Committing(e.selected.value.built.value, op.authority, op.buyer, |s.rows|);
    var (t, ok) := Call(s, CommitStep(e, op, now), now, air);
    AwaitOutcome(Next(s, CommitStep(e, op, now)), |s.tasks|, w, now, air);
    CommitTold(t, ok, Next(s, CommitStep(e, op, now)), w, WhenLanding(s, CommitStep(e, op, now), air), air.at, now);
    CallStaysSteady(s, CommitStep(e, op, now), now, air, e.incidentId, e.selected.value.nonce);
  }

  /** A commit of a nonce that is known is a duplicate: a note, no transaction, and the entry as it was. Nor does an
      envelope whose voucher does not build get further than a note. */
  lemma CommitSendsNothing(s: State, e: Envelope, op: Operator, now: nat, air: Air)
    requires Ready(s, e) && Mild(air)
    requires Find(s.registry, e.selected.value.nonce).Some? || e.selected.value.built.None?
    ensures var n, t := e.selected.value.nonce, Call(s, CommitStep(e, op, now), now, air);
            && !t.1 && Ready(t.0, e) && t.0.chain == s.chain && t.0.tasks == s.tasks
            && Find(t.0.registry, n) == Find(s.registry, n)
  {
    var n, step := e.selected.value.nonce, CommitStep(e, op, now);
    CallStaysSteady(s, step, now, air, e.incidentId, n);
    RegistryAfter(s, step);
    NoteStays(s, step, n);
  }

  lemma NoteStays(s: State, step: Step, n: Text)
    requires Intact(s) && step.StartCommit? && (Known(s, step.offer.nonce).Some? || step.offer.built.None?)
    ensures Find(Next(s, step).registry, n) == Find(s.registry, n)
    ensures Next(s, step).tasks == s.tasks && Next(s, step).chain == s.chain
  {
    RegistryAfter(s, step);
    FindIndex(s.registry, Stamped(s, Writes(s, step).value), n);
  }

  /** What the delivery check makes of the report for a provider share; None where it throws. */
  function PenaltyFor(share: nat, report: Report): Option<nat> {
    var check := Delivery.CheckDelivery(report.promised, report.samples, report.tolerance);
    if check.Some? then Some(Delivery.Penalty(share, check.value.penaltyPct)) else None
  }

  /** The share on record for the envelope's nonce, and the penalty its report puts on it. */
  function PenaltyDue(s: State, e: Envelope): Option<nat>
    requires e.selected.Some?
  {
    var known := Find(s.registry, e.selected.value.nonce);
    if known.None? then None else PenaltyFor(known.value.providerAmount.GetOr(0), e.selected.value.report)
  }

  /** That penalty is what the report costs the share on record, in the sense of the delivery check: there is one exactly
      when the nonce is known and the report promises and samples something. */
  lemma PenaltyDueIff(s: State, e: Envelope, penalty: nat)
    requires e.selected.Some?
    ensures var known, report := Find(s.registry, e.selected.value.nonce), e.selected.value.report;
            PenaltyDue(s, e) == Some(penalty)
            <==> && known.Some? && report.promised > 0.0 && report.samples != []
                 && Delivery.Due(report.promised, report.samples, report.tolerance, known.value.providerAmount.GetOr(0), penalty)
  {
    var known, report := Find(s.registry, e.selected.value.nonce), e.selected.value.report;
    if known.Some? && report.promised > 0.0 && report.samples != [] {
      Delivery.PenaltyOfTheShortfall(report.promised, report.samples, report.tolerance, known.value.providerAmount.GetOr(0), penalty);
    }
  }

  predicate Open(c: Escrow.Chain, nonce: Text) {
    nonce in c.commitments && c.commitments[nonce].status == Escrow.StatusCommitted
  }

  /** The commitment is open, has no verdict yet, and the penalty leaves the provider something. */
  predicate AwaitsVerdict(c: Escrow.Chain, nonce: Text, penalty: Option<nat>) {
    && Open(c, nonce) && c.commitments[nonce].logDigest == []
    && penalty.Some? && penalty.value + c.commitments[nonce].deal.fee < c.commitments[nonce].deal.amount
  }

  /** The verdict that this envelope brings is on the chain. */
  predicate Judged(c: Escrow.Chain, e: Envelope, penalty: Option<nat>)
    requires e.selected.Some?
  {
    var n := e.selected.value.nonce;
    && n in c.commitments && c.commitments[n].logDigest == e.selected.value.report.logDigest
    && Some(c.commitments[n].penalty) == penalty
  }

  lemma VerifySpawns(s: State, e: Envelope)
    requires ReadyAndOpen(s, e)
    ensures var n := e.selected.value.nonce;
            Next(s, VerifyStep(e)) ==
            match PenaltyDue(s, e)
            case Some(penalty) => Spawn(s, Verifying(e.incidentId, n, e.selected.value.report.logDigest, penalty))
            case None => s
  {
    OpenIsFound(s, e.incidentId, e.selected.value.nonce);
  }

  /** The entry with a verdict on record. */
  function WithVerdict(entry: Option<Entry>, logDigest: Text, penalty: Option<nat>): Option<Entry> {
    if entry.Some? then Some(entry.value.(penaltyAmount := penalty, connectionLogHash := Some(logDigest))) else None
  }

  lemma VerdictKeepsEntry(reg: Registry, row: Row, incidentId: Text, nonce: Text)
    requires row.kind == DeliveryVerified && OpenIn(reg, incidentId, nonce)
    ensures OpenIn(Index(reg, row), incidentId, nonce)
    ensures row.nonce == Some(nonce) && nonce != [] && row.data.penaltyAmount.Some? && row.data.connectionLogHash.Some? ==>
      Find(Index(reg, row), nonce)
      == WithVerdict(Find(reg, nonce), row.data.connectionLogHash.value, row.data.penaltyAmount)
  {
    QuietRow(reg, row, incidentId, nonce);
    FindIndex(reg, row, nonce);
  }

  lemma JudgedStays(c: Escrow.Chain, d: Escrow.Chain, e: Envelope, penalty: Option<nat>)
    requires Fits(e) && Judged(c, e, penalty) && Escrow.Extends(c, d)
    ensures Judged(d, e, penalty)
  {
    assert Escrow.Later(c.commitments[e.selected.value.nonce], d.commitments[e.selected.value.nonce]);
  }

  lemma VerdictLands(c: Escrow.Chain, d: Escrow.Chain, e: Envelope, penalty: nat)
    requires Fits(e) && Escrow.Verify(c, e.selected.value.nonce, e.selected.value.report.logDigest, penalty).Done?
    requires Escrow.Extends(Escrow.Verify(c, e.selected.value.nonce, e.selected.value.report.logDigest, penalty).chain, d)
    ensures Judged(d, e, Some(penalty))
  {
    JudgedStays(Escrow.Verify(c, e.selected.value.nonce, e.selected.value.report.logDigest, penalty).chain, d, e, Some(penalty));
  }

  lemma VerifyTold(t: State, ok: bool, started: State, w: Work, e: Envelope, c: Escrow.Chain, at: nat, now: nat)
    requires Fits(e) && Intact(started) && OpenIn(started.registry, e.incidentId, e.selected.value.nonce)
    requires w.Verifying? && w.nonce == e.selected.value.nonce && w.logDigest == e.selected.value.report.logDigest
    requires Reported(t, ok, started, w, c, at, now)
    ensures ok == AwaitsVerdict(c, w.nonce, Some(w.penalty))
    ensures OpenIn(t.registry, e.incidentId, w.nonce) && (ok ==> Judged(t.chain, e, Some(w.penalty)))
    ensures ok ==> Find(t.registry, w.nonce) == WithVerdict(Find(started.registry, w.nonce), w.logDigest, Some(w.penalty))
  {
    if ok {
      VerdictLands(c, t.chain, e, w.penalty);
      VerdictKeepsEntry(Replay(started.rows), Stamped(started, ResultRow(started, w, |c.log|, now)), e.incidentId, w.nonce);
    }
  }

  lemma VerifyCall(s: State, e: Envelope, now: nat, air: Air, penalty: nat)
    requires ReadyAndOpen(s, e) && Mild(air) && PenaltyDue(s, e) == Some(penalty)
    ensures var n, t := e.selected.value.nonce, Call(s, VerifyStep(e), now, air);
            && t.1 == AwaitsVerdict(WhenLanding(s, VerifyStep(e), air), n, Some(penalty))
            && OpenIn(t.0.registry, e.incidentId, n)
            && (t.1 ==> Judged(t.0.chain, e, Some(penalty))
                        && Find(t.0.registry, n) == WithVerdict(Find(s.registry, n), e.selected.value.report.logDigest, Some(penalty)))
  {
    VerifySpawns(s, e);
    var w := Verifying(e.incidentId, e.selected.value.nonce, e.selected.value.report.logDigest, penalty);
    var (t, ok) := Call(s, VerifyStep(e), now, air);
    AwaitOutcome(Next(s, VerifyStep(e)), |s.tasks|, w, now, air);
    VerifyTold(t, ok, Next(s, VerifyStep(e)), w, e, WhenLanding(s, VerifyStep(e), air), air.at, now);
  }

  /** The verdict is reported, and goes on record with its hash and penalty, exactly when the check runs through and, as the
      transaction lands, the commitment still awaits one. */
  lemma VerifyReported(s: State, e: Envelope, now: nat, air: Air)
    requires ReadyAndOpen(s, e) && Mild(air)
    ensures var penalty, t := PenaltyDue(s, e), Call(s, VerifyStep(e), now, air);
            && t.1 == AwaitsVerdict(WhenLanding(s, VerifyStep(e), air), e.selected.value.nonce, penalty)
            && ReadyAndOpen(t.0, e)
            && (t.1 ==> Judged(t.0.chain, e, penalty)
                        && Find(t.0.registry, e.selected.value.nonce)
                        == WithVerdict(Find(s.registry, e.selected.value.nonce), e.selected.value.report.logDigest, penalty))
  {
    VerifySpawns(s, e);
    CallStaysSteady(s, VerifyStep(e), now, air, e.incidentId, e.selected.value.nonce);
    if PenaltyDue(s, e).Some? {
      VerifyCall(s, e, now, air, PenaltyDue(s, e).value);
    }
  }

  lemma SettleSpawns(s: State, e: Envelope, now: nat)
    requires ReadyAndOpen(s, e)
    ensures Next(s, SettleStep(e, now)) == Spawn(s, Settling(e.incidentId, Find(s.registry, e.selected.value.nonce).value))
  {
    OpenIsFound(s, e.incidentId, e.selected.value.nonce);
  }

  lemma SettledEntry(rows: seq<Row>, row: Row, nonce: Text)
    requires row.nonce == Some(nonce) && nonce != [] && row.kind == Settled
    ensures StatusOf(rows + [row], nonce) == Some(Settled)
  {
    RowOnStatus(rows, row, nonce);
  }

  lemma SettlesWhileOpen(c: Escrow.Chain, nonce: Text)
    requires Escrow.ChainOk(c)
    ensures Escrow.Settle(c, nonce).Done? <==> Open(c, nonce)
  {
    if Open(c, nonce) {
      Escrow.ClosingNeverLacksFunds(c, nonce);
    }
  }

  lemma WhenLandingIsOk(s: State, step: Step, air: Air, incidentId: Text, nonce: Text)
    requires Steady(s, incidentId, nonce) && OwnStep(s, step, incidentId, nonce) && Mild(air)
    ensures Escrow.ChainOk(WhenLanding(s, step, air))
  {
    StepStaysSteady(s, step, incidentId, nonce);
    BackgroundStaysSteady(Next(s, step), air.mid, incidentId, nonce);
  }

  predicate Paid(c: Escrow.Chain, nonce: Text) {
    nonce in c.commitments && c.commitments[nonce].status == Escrow.StatusSettled
  }

  lemma SettlementLands(b: Escrow.Chain, c: Escrow.Chain, d: Escrow.Chain, nonce: Text)
    requires Escrow.Extends(b, c) && Escrow.Settle(c, nonce).Done? && Escrow.Extends(Escrow.Settle(c, nonce).chain, d)
    ensures Paid(d, nonce) && Escrow.Extends(b, d)
  {
    var settled := Escrow.Settle(c, nonce).chain;
    Escrow.ExecuteExtends(c, Escrow.SettleTx(nonce), 0);
    ExtendsOn(b, c, settled);
    ExtendsOn(b, settled, d);
    assert Escrow.Later(settled.commitments[nonce], d.commitments[nonce]);
  }

  /** The row of a settlement that goes by this entry: its amounts, its penalty or none, and what is left of the share. */
  predicate SettlementRow(row: Row, incidentId: Text, entry: Entry) {
    var penalty := entry.penaltyAmount.GetOr(0);
    && row.kind == Settled && row.nonce == Some(entry.nonce) && row.incidentId == Some(incidentId)
    && row.data.amount == entry.amount && row.data.platformFee == entry.platformFee
    && row.data.providerAmount == entry.providerAmount && row.data.penaltyAmount == Some(penalty)
    && row.data.providerNetAmount == Some(entry.providerAmount.GetOr(0) - penalty)
  }

  /** One row more, which is that of the settlement. */
  predicate SettlementStored(rows: seq<Row>, after: seq<Row>, incidentId: Text, entry: Entry) {
    |after| == |rows| + 1 && after[..|rows|] == rows && SettlementRow(after[|rows|], incidentId, entry)
  }

  lemma SettleTold(t: State, ok: bool, started: State, w: Work, c: Escrow.Chain, at: nat, now: nat)
    requires w.Settling? && w.entry.nonce != [] && started.tail == Complete && Reported(t, ok, started, w, c, at, now)
    ensures ok == Escrow.Settle(c, w.entry.nonce).Done?
    ensures ok ==> StatusOf(t.rows, w.entry.nonce) == Some(Settled) && SettlementStored(started.rows, t.rows, w.incidentId, w.entry)
    ensures ok ==> Escrow.Extends(Escrow.Settle(c, w.entry.nonce).chain, t.chain)
    ensures !ok ==> t.registry == started.registry && t.chain == c
  {
    if ok {
      SettledRowStored(t, started, w, |c.log|, now);
    }
  }

  lemma SettledRowStored(t: State, started: State, w: Work, digest: nat, now: nat)
    requires w.Settling? && w.entry.nonce != [] && started.tail == Complete
    requires SameFile(t, Emitted(started, ResultRow(started, w, digest, now)))
    ensures StatusOf(t.rows, w.entry.nonce) == Some(Settled) && SettlementStored(started.rows, t.rows, w.incidentId, w.entry)
  {
    SettledEntry(started.rows, Stamped(started, ResultRow(started, w, digest, now)), w.entry.nonce);
  }

  lemma SettleCall(s: State, e: Envelope, now: nat, air: Air)
    requires ReadyAndOpen(s, e) && Mild(air)
    ensures var n, step := e.selected.value.nonce, SettleStep(e, now);
            var c, t := WhenLanding(s, step, air), Call(s, step, now, air);
            && t.1 == Escrow.Settle(c, n).Done?
            && (t.1 ==> StatusOf(t.0.rows, n) == Some(Settled) && Escrow.Extends(Escrow.Settle(c, n).chain, t.0.chain)
                        && SettlementStored(s.rows, t.0.rows, e.incidentId, Find(s.registry, n).value))
            && (!t.1 ==> t.0.registry == s.registry && t.0.chain == c)
            && Escrow.Extends(s.chain, c)
  {
    SettleSpawns(s, e, now);
    var w := Settling(e.incidentId, Find(s.registry, e.selected.value.nonce).value);
    var (t, ok) := Call(s, SettleStep(e, now), now, air);
    AwaitOutcome(Next(s, SettleStep(e, now)), |s.tasks|, w, now, air);
    SettleTold(t, ok, Next(s, SettleStep(e, now)), w, WhenLanding(s, SettleStep(e, now), air), air.at, now);
  }

  lemma SettlementMeetsOpen(s: State, e: Envelope, now: nat, air: Air)
    requires ReadyAndOpen(s, e) && Mild(air)
    ensures var c := WhenLanding(s, SettleStep(e, now), air);
            Escrow.Settle(c, e.selected.value.nonce).Done? <==> Open(c, e.selected.value.nonce)
  {
    WhenLandingIsOk(s, SettleStep(e, now), air, e.incidentId, e.selected.value.nonce);
    SettlesWhileOpen(WhenLanding(s, SettleStep(e, now), air), e.selected.value.nonce);
  }

  lemma SettledOrOpen(s: State, t: State, ok: bool, c: Escrow.Chain, e: Envelope)
    requires ReadyAndOpen(s, e) && Steady(t, e.incidentId, e.selected.value.nonce) && Escrow.Extends(s.chain, c)
    requires ok == Escrow.Settle(c, e.selected.value.nonce).Done?
    requires ok ==> Escrow.Extends(Escrow.Settle(c, e.selected.value.nonce).chain, t.chain)
    requires !ok ==> t.registry == s.registry && t.chain == c
    ensures Escrow.Extends(s.chain, t.chain)
    ensures if ok then Paid(t.chain, e.selected.value.nonce) else ReadyAndOpen(t, e)
  {
    if ok {
      SettlementLands(s.chain, c, t.chain, e.selected.value.nonce);
    } else {
      StillOpen(s, t, e);
    }
  }

  /** The settlement is reported, with the amounts on record, exactly when the commitment is still open as it lands. */
  lemma SettleReported(s: State, e: Envelope, now: nat, air: Air)
    requires ReadyAndOpen(s, e) && Mild(air)
    ensures var n, t := e.selected.value.nonce, Call(s, SettleStep(e, now), now, air);
            && t.1 == Open(WhenLanding(s, SettleStep(e, now), air), n)
            && Ready(t.0, e) && Escrow.Extends(s.chain, t.0.chain)
            && (t.1 ==> StatusOf(t.0.rows, n) == Some(Settled) && Paid(t.0.chain, n)
                        && SettlementStored(s.rows, t.0.rows, e.incidentId, Find(s.registry, n).value))
            && (!t.1 ==> ReadyAndOpen(t.0, e))
  {
    var step := SettleStep(e, now);
    var (t, ok) := Call(s, step, now, air);
    SettleCall(s, e, now, air);
    CallStaysSteady(s, step, now, air, e.incidentId, e.selected.value.nonce);
    SettlementMeetsOpen(s, e, now, air);
    SettledOrOpen(s, t, ok, WhenLanding(s, step, air), e);
  }

  lemma StillOpen(s: State, t: State, e: Envelope)
    requires ReadyAndOpen(s, e) && Fits(e) && Steady(t, e.incidentId, e.selected.value.nonce) && t.registry == s.registry
    ensures ReadyAndOpen(t, e)
  {}

  // ---- The other two ways to close ---------------------------------------------------------------------

  function RefundStep(e: Envelope, now: nat): Step {
    StartActivation(e.incidentId, Failed, now)
  }

  function ReclaimStep(e: Envelope): Step
    requires e.selected.Some?
  {
    StartReclaim(e.selected.value.nonce)
  }

  predicate ClosedAs(c: Escrow.Chain, nonce: Text, status: Escrow.Status) {
    nonce in c.commitments && c.commitments[nonce].status == status
  }

  lemma ClosingTold(t: State, ok: bool, started: State, w: Work, c: Escrow.Chain, at: nat, now: nat)
    requires (w.Refunding? || w.Reclaiming?) && NonceOf(w) != [] && started.tail == Complete
    requires Reported(t, ok, started, w, c, at, now)
    ensures ok == Escrow.Execute(c, TxOf(w).value, at).Done?
    ensures ok ==> StatusOf(t.rows, NonceOf(w)) == Some(if w.Refunding? then Refunded else Reclaimed)
    ensures ok ==> ClosedAs(t.chain, NonceOf(w), if w.Refunding? then Escrow.StatusRefunded else Escrow.StatusReclaimed)
    ensures !ok ==> t.registry == started.registry
  {
    if ok {
      ClosingStored(t, started, w, |c.log|, now);
      ClosingLands(c, t.chain, w, at);
    }
  }

  lemma ClosingStored(t: State, started: State, w: Work, digest: nat, now: nat)
    requires (w.Refunding? || w.Reclaiming?) && NonceOf(w) != [] && started.tail == Complete
    requires SameFile(t, Emitted(started, ResultRow(started, w, digest, now)))
    ensures StatusOf(t.rows, NonceOf(w)) == Some(if w.Refunding? then Refunded else Reclaimed)
  {
    RowOnStatus(started.rows, Stamped(started, ResultRow(started, w, digest, now)), NonceOf(w));
  }

  lemma ClosingLands(c: Escrow.Chain, d: Escrow.Chain, w: Work, at: nat)
    requires (w.Refunding? || w.Reclaiming?) && Escrow.Execute(c, TxOf(w).value, at).Done?
    requires Escrow.Extends(Escrow.Execute(c, TxOf(w).value, at).chain, d)
    ensures ClosedAs(d, NonceOf(w), if w.Refunding? then Escrow.StatusRefunded else Escrow.StatusReclaimed)
  {
    var closed := Escrow.Execute(c, TxOf(w).value, at).chain;
    assert Escrow.Later(closed.commitments[NonceOf(w)], d.commitments[NonceOf(w)]);
  }

  /** What comes of a refund or a reclaim whose transaction meets chain `c` at time `at`. */
  predicate ClosingOutcome(s: State, t: State, ok: bool, tx: Escrow.Tx, nonce: Text, c: Escrow.Chain, at: nat, kind: Kind, status: Escrow.Status) {
    && ok == Escrow.Execute(c, tx, at).Done?
    && (ok ==> StatusOf(t.rows, nonce) == Some(kind) && ClosedAs(t.chain, nonce, status))
    && (!ok ==> t.registry == s.registry)
  }

  lemma ClosingCall(s: State, step: Step, w: Work, now: nat, air: Air)
    requires (w.Refunding? || w.Reclaiming?) && NonceOf(w) != [] && s.tail == Complete && Mild(air)
    requires Next(s, step) == Spawn(s, w)
    ensures var t := Call(s, step, now, air);
            ClosingOutcome(s, t.0, t.1, TxOf(w).value, NonceOf(w), WhenLanding(s, step, air), air.at,
                           if w.Refunding? then Refunded else Reclaimed,
                           if w.Refunding? then Escrow.StatusRefunded else Escrow.StatusReclaimed)
  {
    var (t, ok) := Call(s, step, now, air);
    AwaitOutcome(Next(s, step), |s.tasks|, w, now, air);
    ClosingTold(t, ok, Next(s, step), w, WhenLanding(s, step, air), air.at, now);
  }

  lemma RefundCall(s: State, e: Envelope, now: nat, air: Air)
    requires ReadyAndOpen(s, e) && Mild(air)
    ensures var n, t := e.selected.value.nonce, Call(s, RefundStep(e, now), now, air);
            ClosingOutcome(s, t.0, t.1, Escrow.RefundTx(n), n, WhenLanding(s, RefundStep(e, now), air), air.at,
                           Refunded, Escrow.StatusRefunded)
  {
    RefundSpawns(s, e, now);
    var w := Refunding(e.incidentId, Find(s.registry, e.selected.value.nonce).value);
    assert NonceOf(w) == e.selected.value.nonce && TxOf(w) == Some(Escrow.RefundTx(e.selected.value.nonce));
    ClosingCall(s, RefundStep(e, now), w, now, air);
  }

  lemma RefundSpawns(s: State, e: Envelope, now: nat)
    requires ReadyAndOpen(s, e)
    ensures Next(s, RefundStep(e, now)) == Spawn(s, Refunding(e.incidentId, Find(s.registry, e.selected.value.nonce).value))
  {
    OpenIsFound(s, e.incidentId, e.selected.value.nonce);
  }

  /** A failed activation refunds: the commitment is closed as refunded on both sides exactly when it is still open as the
      refund lands. */
  lemma RefundReported(s: State, e: Envelope, now: nat, air: Air)
    requires ReadyAndOpen(s, e) && Mild(air)
    ensures var n, t := e.selected.value.nonce, Call(s, RefundStep(e, now), now, air);
            && t.1 == Open(WhenLanding(s, RefundStep(e, now), air), n)
            && Ready(t.0, e) && (!t.1 ==> t.0.registry == s.registry)
            && (t.1 ==> StatusOf(t.0.rows, n) == Some(Refunded) && ClosedAs(t.0.chain, n, Escrow.StatusRefunded))
  {
    RefundCall(s, e, now, air);
    RefundStaysReady(s, e, now, air);
    ClosingMeetsOpen(s, e, RefundStep(e, now), air);
  }

  lemma RefundStaysReady(s: State, e: Envelope, now: nat, air: Air)
    requires ReadyAndOpen(s, e) && Mild(air)
    ensures Ready(Call(s, RefundStep(e, now), now, air).0, e)
  {
    CallStaysSteady(s, RefundStep(e, now), now, air, e.incidentId, e.selected.value.nonce);
  }

  lemma ClosingMeetsOpen(s: State, e: Envelope, step: Step, air: Air)
    requires Ready(s, e) && OwnStep(s, step, e.incidentId, e.selected.value.nonce) && Mild(air)
    ensures var c, n := WhenLanding(s, step, air), e.selected.value.nonce;
            && (Escrow.Refund(c, n).Done? <==> Open(c, n))
            && (Escrow.Reclaim(c, n, air.at).Done? <==> Open(c, n) && air.at >= c.commitments[n].deal.expiryMs)
  {
    WhenLandingIsOk(s, step, air, e.incidentId, e.selected.value.nonce);
    ClosesWhileOpen(WhenLanding(s, step, air), e.selected.value.nonce, air.at);
  }

  lemma ClosesWhileOpen(c: Escrow.Chain, nonce: Text, at: nat)
    requires Escrow.ChainOk(c)
    ensures Escrow.Refund(c, nonce).Done? <==> Open(c, nonce)
    ensures Escrow.Reclaim(c, nonce, at).Done? <==> Open(c, nonce) && at >= c.commitments[nonce].deal.expiryMs
  {
    if Open(c, nonce) {
      Escrow.ClosingNeverLacksFunds(c, nonce);
    }
  }

  /** A reclaim needs no entry in the registry: it goes through, and is then on record, exactly when the commitment is open
      and has expired as it lands. */
  lemma ReclaimReported(s: State, e: Envelope, now: nat, air: Air)
    requires Ready(s, e) && Mild(air)
    ensures var n, t := e.selected.value.nonce, Call(s, ReclaimStep(e), now, air);
            var c := WhenLanding(s, ReclaimStep(e), air);
            && t.1 == (Open(c, n) && air.at >= c.commitments[n].deal.expiryMs)
            && Ready(t.0, e) && (!t.1 ==> t.0.registry == s.registry)
            && (t.1 ==> StatusOf(t.0.rows, n) == Some(Reclaimed) && ClosedAs(t.0.chain, n, Escrow.StatusReclaimed))
  {
    var n, step := e.selected.value.nonce, ReclaimStep(e);
    ClosingCall(s, step, Reclaiming(n), now, air);
    CallStaysSteady(s, step, now, air, e.incidentId, n);
    ClosingMeetsOpen(s, e, step, air);
  }

  /** An empty service is ready for any envelope. */
  lemma EmptyIsReady(s: State, e: Envelope)
    requires Pristine(s) && Fits(e)
    ensures Ready(s, e)
  {
    PristineIsInv(s);
    PristineIsIntact(s);
  }

  /** So it is ready again after any run from there. */
  lemma EveryRunIsReady(s: State, steps: seq<Step>, e: Envelope)
    requires Pristine(s) && Fits(e) && OwnRun(s, steps, e.incidentId, e.selected.value.nonce)
    ensures Ready(Run(s, steps), e)
  {
    EmptyIsReady(s, e);
    RunStaysSteady(s, steps, e.incidentId, e.selected.value.nonce);
  }

  // ---- When a run settles --------------------------------------------------------------------------

  /** The state and the outcome of the pipeline's first two calls. */
  function Committed1(s: State, e: Envelope, op: Operator, now: nat, w: Weather): State
    requires e.selected.Some?
  {
    Call(s, CommitStep(e, op, now), now, w.commit).0
  }

  function Verified1(s: State, e: Envelope, op: Operator, now: nat, w: Weather): State
    requires e.selected.Some?
  {
    Call(Committed1(s, e, op, now, w), VerifyStep(e), now, w.verify).0
  }

  /** The nonce is known, or the voucher builds and the chain takes it as it lands. */
  predicate CommitGoesThrough(s: State, e: Envelope, op: Operator, now: nat, w: Weather)
    requires e.selected.Some?
  {
    || Find(s.registry, e.selected.value.nonce).Some?
    || (e.selected.value.built.Some? &&
        Escrow.Commit(WhenLanding(s, CommitStep(e, op, now), w.commit), e.selected.value.built.value,
                      op.authority, op.buyer, w.commit.at).Done?)
  }

  /** The penalty is on the share on record, or on the voucher's where there is none yet. */
  function PenaltyToCome(s: State, e: Envelope): Option<nat>
    requires e.selected.Some?
  {
    var known := Find(s.registry, e.selected.value.nonce);
    if known.Some? then PenaltyDue(s, e)
    else if e.selected.value.built.Some? then PenaltyFor(e.selected.value.built.value.share, e.selected.value.report)
    else None
  }

  /** The registry has not closed the nonce; the commit goes through; the commitment awaits its verdict when the verdict
      lands; and it is still open when the settlement lands. */
  predicate Settles(s: State, e: Envelope, op: Operator, now: nat, w: Weather)
    requires e.selected.Some?
  {
    var n := e.selected.value.nonce;
    && (Find(s.registry, n).Some? ==> !Terminal(Find(s.registry, n).value.status))
    && CommitGoesThrough(s, e, op, now, w)
    && AwaitsVerdict(WhenLanding(Committed1(s, e, op, now, w), VerifyStep(e), w.verify), n, PenaltyToCome(s, e))
    && Open(WhenLanding(Verified1(s, e, op, now, w), SettleStep(e, now), w.settle), n)
  }

  /** Locked at most once, closed at most once, paid out at most its amount. */
  predicate AtMostOnce(c: Escrow.Chain, nonce: Text) {
    && Escrow.LockCount(c.log, nonce) <= 1 && Escrow.CloseCount(c.log, nonce) <= 1
    && Escrow.PaidFor(c.transfers, nonce) <= (if nonce in c.commitments then c.commitments[nonce].deal.amount else 0)
  }

  /** Closed as settled on both sides, after one lock and one payout of the whole amount. */
  predicate SettledOnce(s: State, nonce: Text, penalty: Option<nat>) {
    && StatusOf(s.rows, nonce) == Some(Settled)
    && Paid(s.chain, nonce) && Some(s.chain.commitments[nonce].penalty) == penalty
    && Escrow.LockCount(s.chain.log, nonce) == 1 && Escrow.CloseCount(s.chain.log, nonce) == 1
    && Escrow.PaidFor(s.chain.transfers, nonce) == s.chain.commitments[nonce].deal.amount
  }

  lemma KnownIsOpenOrClosed(s: State, e: Envelope)
    requires Ready(s, e) && Find(s.registry, e.selected.value.nonce).Some?
    ensures OpenIn(s.registry, e.incidentId, e.selected.value.nonce)
            <==> !Terminal(Find(s.registry, e.selected.value.nonce).value.status)
  {
    assert EntryOk(s.chain, e.selected.value.nonce, Find(s.registry, e.selected.value.nonce));
  }

  lemma FirstCall(s: State, e: Envelope, op: Operator, now: nat, w: Weather)
    requires Ready(s, e) && AllMild(w)
    requires Find(s.registry, e.selected.value.nonce).Some? ==> OpenIn(s.registry, e.incidentId, e.selected.value.nonce)
    ensures var (t, ok) := Call(s, CommitStep(e, op, now), now, w.commit);
            && Ready(t, e)
            && ((ok || Find(s.registry, e.selected.value.nonce).Some?) <==> CommitGoesThrough(s, e, op, now, w))
            && (CommitGoesThrough(s, e, op, now, w) ==> ReadyAndOpen(t, e) && PenaltyDue(t, e) == PenaltyToCome(s, e))
  {
    if Find(s.registry, e.selected.value.nonce).Some? || e.selected.value.built.None? {
      CommitSendsNothing(s, e, op, now, w.commit);
    } else {
      CommitReported(s, e, op, now, w.commit);
    }
  }

  lemma OnceEach(s: State, e: Envelope)
    requires Ready(s, e)
    ensures AtMostOnce(s.chain, e.selected.value.nonce)
  {
    assert Escrow.NonceOk(s.chain, e.selected.value.nonce);
  }

  lemma LastTwoCalls(s: State, e: Envelope, now: nat, verify: Air, settle: Air)
    requires ReadyAndOpen(s, e) && Mild(verify) && Mild(settle)
    ensures var n := e.selected.value.nonce;
            var (v, accepted) := Call(s, VerifyStep(e), now, verify);
            var (t, paid) := Call(v, SettleStep(e, now), now, settle);
            && accepted == AwaitsVerdict(WhenLanding(s, VerifyStep(e), verify), n, PenaltyDue(s, e))
            && paid == Open(WhenLanding(v, SettleStep(e, now), settle), n)
            && ReadyAndOpen(v, e) && Ready(t, e)
            && (accepted && paid ==> SettledOnce(t, n, PenaltyDue(s, e)))
            && (!paid ==> ReadyAndOpen(t, e))
  {
    var n, penalty := e.selected.value.nonce, PenaltyDue(s, e);
    VerifyReported(s, e, now, verify);
    var v := Call(s, VerifyStep(e), now, verify).0;
    SettleReported(v, e, now, settle);
    var t := Call(v, SettleStep(e, now), now, settle).0;
    if Judged(v.chain, e, penalty) {
      JudgedStays(v.chain, t.chain, e, penalty);
    }
    assert Escrow.NonceOk(t.chain, n);
  }

  /** Exactly when a run of the pipeline, first or repeated, settles, whatever transactions of earlier runs or of other
      people land while it waits. It then ends with one lock and one payout; in any case nothing is locked, closed or
      paid twice, and what is left can be run again. */
  lemma RunSettlesIff(s: State, e: Envelope, op: Operator, now: nat, w: Weather)
    requires Ready(s, e) && AllMild(w)
    ensures var n := e.selected.value.nonce;
            var (t, r) := Process(s, e, op, now, w);
            && (r == SettledNow <==> Settles(s, e, op, now, w))
            && (r == SettledNow ==> SettledOnce(t, n, PenaltyToCome(s, e)))
            && (r.AlreadyDone? <==> Closed(s.rows, n)) && (r != SettledNow && !r.AlreadyDone? ==> r == Threw)
            && Ready(t, e) && AtMostOnce(t.chain, n)
  {
    var n := e.selected.value.nonce;
    if Find(s.registry, n).Some? {
      KnownIsOpenOrClosed(s, e);
    }
    if Closed(s.rows, n) {
      OnceEach(s, e);
    } else {
      FirstCall(s, e, op, now, w);
      var t := Committed1(s, e, op, now, w);
      if CommitGoesThrough(s, e, op, now, w) {
        LastTwoCalls(t, e, now, w.verify, w.settle);
      }
      OnceEach(Process(s, e, op, now, w).0, e);
    }
  }

  /** A SETTLED row that tells all of the deal: the voucher's amount, share and fee, what the report costs the share, and
      what that leaves of it. */
  predicate TellsAllOf(row: Row, v: Escrow.Voucher, report: Report)
    requires report.samples != []
  {
    && row.kind == Settled && row.nonce == Some(v.deal.nonce) && row.incidentId == Some(v.deal.incidentId)
    && row.data.amount == Some(v.deal.amount) && row.data.platformFee == Some(v.deal.fee)
    && row.data.providerAmount == Some(v.share) && row.data.penaltyAmount.Some?
    && Delivery.Due(report.promised, report.samples, report.tolerance, v.share, row.data.penaltyAmount.value)
    && row.data.providerNetAmount == Some(v.share - row.data.penaltyAmount.value)
  }

  lemma RecordTellsAll(row: Row, before: Option<Entry>, entry: Entry, v: Escrow.Voucher, report: Report, penalty: nat)
    requires OnRecord(before, v) && Some(entry) == WithVerdict(before, report.logDigest, Some(penalty))
    requires before.value.nonce == v.deal.nonce && report.samples != []
    requires Delivery.Due(report.promised, report.samples, report.tolerance, v.share, penalty)
    requires SettlementRow(row, v.deal.incidentId, entry)
    ensures TellsAllOf(row, v, report)
  {}

  /** The first run of an envelope, when it settles, ends the ledger with a SETTLED row that tells all of the deal. */
  lemma FirstRunTellsAll(s: State, e: Envelope, op: Operator, now: nat, w: Weather)
    requires Ready(s, e) && AllMild(w) && Find(s.registry, e.selected.value.nonce).None?
    requires Process(s, e, op, now, w).1 == SettledNow
    ensures var rows, built, report := Process(s, e, op, now, w).0.rows, e.selected.value.built, e.selected.value.report;
            built.Some? && rows != [] && report.samples != [] && TellsAllOf(rows[|rows| - 1], built.value, report)
  {
    RunSettlesIff(s, e, op, now, w);
    CommitReported(s, e, op, now, w.commit);
    LastTwoTellAll(Committed1(s, e, op, now, w), e, now, w.verify, w.settle);
  }

  lemma LastTwoTellAll(s: State, e: Envelope, now: nat, verify: Air, settle: Air)
    requires ReadyAndOpen(s, e) && Mild(verify) && Mild(settle)
    requires e.selected.value.built.Some? && OnRecord(Find(s.registry, e.selected.value.nonce), e.selected.value.built.value)
    requires Call(s, VerifyStep(e), now, verify).1
    requires Call(Call(s, VerifyStep(e), now, verify).0, SettleStep(e, now), now, settle).1
    ensures var rows := Call(Call(s, VerifyStep(e), now, verify).0, SettleStep(e, now), now, settle).0.rows;
            var v, report := e.selected.value.built.value, e.selected.value.report;
            rows != [] && report.samples != [] && TellsAllOf(rows[|rows| - 1], v, report)
  {
    var n, report, penalty := e.selected.value.nonce, e.selected.value.report, PenaltyDue(s, e).value;
    VerifyReported(s, e, now, verify);
    PenaltyDueIff(s, e, penalty);
    var before, v := Find(s.registry, n), Call(s, VerifyStep(e), now, verify).0;
    SettleReported(v, e, now, settle);
    var rows := Call(v, SettleStep(e, now), now, settle).0.rows;
    RecordTellsAll(rows[|rows| - 1], before, Find(v.registry, n).value, e.selected.value.built.value, report, penalty);
  }

  // ---- With nothing else going on ---------------------------------------------------------------

  lemma NothingLands(s: State, step: Step, now: nat)
    ensures WhenLanding(s, step, Still(now)) == Next(s, step).chain
  {
    assert Run(Next(s, step), []) == Next(s, step);
  }

  /** A call that nothing disturbs leaves the chain exactly as its transaction leaves it. */
  lemma CallAtRest(s: State, step: Step, w: Work, now: nat)
    requires Next(s, step).tasks == s.tasks + [Waiting(w)] && TxOf(w).Some?
    ensures Call(s, step, now, Still(now)).0.chain ==
            match Escrow.Execute(Next(s, step).chain, TxOf(w).value, now)
            case Done(chain) => chain
            case Abort(_) => Next(s, step).chain
  {
    AwaitAtRest(Next(s, step), |s.tasks|, w, now);
  }

  lemma AwaitAtRest(started: State, i: nat, w: Work, now: nat)
    requires i < |started.tasks| && started.tasks[i] == Waiting(w) && TxOf(w).Some?
    ensures Await(started, i, now, Still(now)).0.chain ==
            match Escrow.Execute(started.chain, TxOf(w).value, now)
            case Done(chain) => chain
            case Abort(_) => started.chain
  {
    assert Run(started, []) == started;
    LandsOnMid(started, i, w, [], now);
    var landed := Next(started, Land(i, now));
    assert Run(landed, []) == landed;
    if landed.tasks[i].Landed? {
      FinishStores(landed, i, w, landed.tasks[i].digest, now);
    }
  }

  /** What a caller can check beforehand: the registry has not closed the nonce, and the commitment, known or made now,
      awaits its verdict. */
  predicate SettlesAtRest(s: State, e: Envelope, op: Operator, now: nat)
    requires e.selected.Some?
  {
    var n, report, built := e.selected.value.nonce, e.selected.value.report, e.selected.value.built;
    var known := Find(s.registry, n);
    if known.Some? then !Terminal(known.value.status) && AwaitsVerdict(s.chain, n, PenaltyDue(s, e))
    else
      built.Some? &&
      match Escrow.Commit(s.chain, built.value, op.authority, op.buyer, now)
      case Done(chain) => AwaitsVerdict(chain, n, PenaltyFor(built.value.share, report))
      case Abort(_) => false
  }

  lemma VerdictLeavesOpen(c: Escrow.Chain, n: Text, logDigest: Text, penalty: nat)
    requires Escrow.Verify(c, n, logDigest, penalty).Done?
    ensures Open(Escrow.Verify(c, n, logDigest, penalty).chain, n)
  {}

  lemma VerdictAtRest(s: State, e: Envelope, now: nat, penalty: nat)
    requires ReadyAndOpen(s, e) && PenaltyDue(s, e) == Some(penalty) && AwaitsVerdict(s.chain, e.selected.value.nonce, Some(penalty))
    ensures Open(Call(s, VerifyStep(e), now, Still(now)).0.chain, e.selected.value.nonce)
  {
    var n, report := e.selected.value.nonce, e.selected.value.report;
    VerifySpawns(s, e);
    CallAtRest(s, VerifyStep(e), Verifying(e.incidentId, n, report.logDigest, penalty), now);
    VerdictLeavesOpen(s.chain, n, report.logDigest, penalty);
  }

  lemma LastTwoAtRest(s: State, e: Envelope, now: nat)
    requires ReadyAndOpen(s, e)
    ensures var v := Call(s, VerifyStep(e), now, Still(now));
            && v.1 == AwaitsVerdict(s.chain, e.selected.value.nonce, PenaltyDue(s, e))
            && (v.1 ==> Open(WhenLanding(v.0, SettleStep(e, now), Still(now)), e.selected.value.nonce))
  {
    VerifyReported(s, e, now, Still(now));
    VerifySpawns(s, e);
    NothingLands(s, VerifyStep(e), now);
    var v := Call(s, VerifyStep(e), now, Still(now));
    if v.1 {
      VerdictAtRest(s, e, now, PenaltyDue(s, e).value);
      NothingLands(v.0, SettleStep(e, now), now);
      SettleSpawns(v.0, e, now);
    }
  }

  lemma FirstAtRest(s: State, e: Envelope, op: Operator, now: nat)
    requires Ready(s, e) && Find(s.registry, e.selected.value.nonce).None? && e.selected.value.built.Some?
    ensures var o := Escrow.Commit(s.chain, e.selected.value.built.value, op.authority, op.buyer, now);
            && CommitGoesThrough(s, e, op, now, Calm(now)) == o.Done?
            && (o.Done? ==> Committed1(s, e, op, now, Calm(now)).chain == o.chain)
  {
    var v := e.selected.value.built.value;
    CommitSpawns(s, e, op, now);
    NothingLands(s, CommitStep(e, op, now), now);
    CallAtRest(s, CommitStep(e, op, now), Committing(v, op.authority, op.buyer, |s.rows|), now);
  }

  /** With nothing else going on, a run settles exactly under a condition on the state it starts from. */
  lemma CalmRunSettlesIff(s: State, e: Envelope, op: Operator, now: nat)
    requires Ready(s, e)
    ensures Process(s, e, op, now, Calm(now)).1 == SettledNow <==> SettlesAtRest(s, e, op, now)
  {
    RunSettlesIff(s, e, op, now, Calm(now));
    if Find(s.registry, e.selected.value.nonce).Some? {
      KnownIsOpenOrClosed(s, e);
      CommitSendsNothing(s, e, op, now, Still(now));
    } else if e.selected.value.built.Some? {
      FirstAtRest(s, e, op, now);
    }
    if CommitGoesThrough(s, e, op, now, Calm(now))
       && (Find(s.registry, e.selected.value.nonce).Some? ==> OpenIn(s.registry, e.incidentId, e.selected.value.nonce))
    {
      FirstCall(s, e, op, now, Calm(now));
      LastTwoAtRest(Committed1(s, e, op, now, Calm(now)), e, now);
      NothingLands(Committed1(s, e, op, now, Calm(now)), VerifyStep(e), now);
      VerifySpawns(Committed1(s, e, op, now, Calm(now)), e);
    }
  }

  /** For a nonce that is open in the registry: it settles exactly when the chain has it open and awaits its verdict. */
  lemma OpenSettlesIff(s: State, e: Envelope, op: Operator, now: nat)
    requires ReadyAndOpen(s, e)
    ensures Process(s, e, op, now, Calm(now)).1 == SettledNow
       <==> AwaitsVerdict(s.chain, e.selected.value.nonce, PenaltyDue(s, e))
  {
    CalmRunSettlesIff(s, e, op, now);
  }

  // ---- A run of the pipeline as the steps it takes ------------------------------------------------

  function AwaitTrace(started: State, i: nat, now: nat, air: Air): seq<Step> {
    if Await(started, i, now, air).1
    then air.mid + [Land(i, air.at)] + (air.late + [Finish(i, now)])
    else air.mid + [Land(i, air.at)]
  }

  function CallTrace(s: State, step: Step, now: nat, air: Air): seq<Step> {
    [step] + if |Next(s, step).tasks| == |s.tasks| + 1 then AwaitTrace(Next(s, step), |s.tasks|, now, air) else []
  }

  /** The steps of one run of the pipeline, with everything else that happens meanwhile. */
  function Trace(s: State, e: Envelope, op: Operator, now: nat, w: Weather): seq<Step>
    requires e.selected.Some?
  {
    var existing := Find(s.registry, e.selected.value.nonce);
    if existing.Some? && Terminal(existing.value.status) then []
    else
      var first, t := CallTrace(s, CommitStep(e, op, now), now, w.commit), Call(s, CommitStep(e, op, now), now, w.commit);
      if !t.1 && existing.None? then first
      else first + LastTrace(t.0, e, now, w.verify, w.settle)
  }

  /** The steps of the verdict and the settlement. */
  function LastTrace(s: State, e: Envelope, now: nat, verify: Air, settle: Air): seq<Step>
    requires e.selected.Some?
  {
    var v := Call(s, VerifyStep(e), now, verify);
    CallTrace(s, VerifyStep(e), now, verify) + if v.1 then CallTrace(v.0, SettleStep(e, now), now, settle) else []
  }

  /** These steps lead from one state to the other, all of them done for the incident or in the background. */
  ghost predicate Leads(s: State, steps: seq<Step>, t: State, incidentId: Text, nonce: Text) {
    Run(s, steps) == t && OwnRun(s, steps, incidentId, nonce)
  }

  lemma LeadsOneStep(s: State, step: Step, incidentId: Text, nonce: Text)
    requires OwnStep(s, step, incidentId, nonce)
    ensures Leads(s, [step], Next(s, step), incidentId, nonce)
  {
    var init := [step][..0];
    assert init == [];
    assert Run(s, init) == s && OwnRun(s, init, incidentId, nonce);
  }

  lemma OwnRunLast(s: State, steps: seq<Step>, step: Step, incidentId: Text, nonce: Text)
    requires OwnRun(s, steps, incidentId, nonce) && OwnStep(Run(s, steps), step, incidentId, nonce)
    ensures OwnRun(s, steps + [step], incidentId, nonce)
  {
    assert (steps + [step])[..|steps|] == steps;
  }

  lemma {:induction false} OwnRunInTwo(s: State, first: seq<Step>, t: State, second: seq<Step>, incidentId: Text, nonce: Text)
    requires OwnRun(s, first, incidentId, nonce) && Run(s, first) == t && OwnRun(t, second, incidentId, nonce)
    ensures OwnRun(s, first + second, incidentId, nonce)
  {
    if second == [] {
      assert first + second == first;
    } else {
      var init, last := second[..|second| - 1], second[|second| - 1];
      OwnRunInTwo(s, first, t, init, incidentId, nonce);
      RunInTwo(s, first, init);
      InitAndLast(first, second);
      OwnRunLast(s, first + init, last, incidentId, nonce);
    }
  }

  lemma LeadsOn(s: State, first: seq<Step>, t: State, second: seq<Step>, u: State, incidentId: Text, nonce: Text)
    requires Leads(s, first, t, incidentId, nonce) && Leads(t, second, u, incidentId, nonce)
    ensures Leads(s, first + second, u, incidentId, nonce)
  {
    RunInTwo(s, first, second);
    OwnRunInTwo(s, first, t, second, incidentId, nonce);
  }

  lemma {:induction false} BackgroundLeads(s: State, steps: seq<Step>, incidentId: Text, nonce: Text)
    requires AllBackground(steps)
    ensures Leads(s, steps, Run(s, steps), incidentId, nonce)
  {
    if steps != [] {
      BackgroundLeads(s, steps[..|steps| - 1], incidentId, nonce);
    }
  }

  lemma ThenOneStep(s: State, steps: seq<Step>, t: State, step: Step, incidentId: Text, nonce: Text)
    requires Leads(s, steps, t, incidentId, nonce) && OwnStep(t, step, incidentId, nonce)
    ensures Leads(s, steps + [step], Next(t, step), incidentId, nonce)
  {
    LeadsOneStep(t, step, incidentId, nonce);
    LeadsOn(s, steps, t, [step], Next(t, step), incidentId, nonce);
  }

  lemma AwaitLeads(started: State, i: nat, now: nat, air: Air, incidentId: Text, nonce: Text)
    requires Mild(air) && SumsAt(started, i)
    ensures Leads(started, AwaitTrace(started, i, now, air), Await(started, i, now, air).0, incidentId, nonce)
  {
    var sent := Run(started, air.mid);
    var landed := Next(sent, Land(i, air.at));
    BackgroundLeads(started, air.mid, incidentId, nonce);
    ThenOneStep(started, air.mid, sent, Land(i, air.at), incidentId, nonce);
    LandedSums(started, i, air.mid, air.at);
    if i < |landed.tasks| && landed.tasks[i].Landed? {
      LateSums(landed, i, now, air.late, incidentId, nonce);
      BackgroundLeads(landed, air.late, incidentId, nonce);
      ThenOneStep(landed, air.late, Run(landed, air.late), Finish(i, now), incidentId, nonce);
      LeadsOn(started, air.mid + [Land(i, air.at)], landed, air.late + [Finish(i, now)], Await(started, i, now, air).0, incidentId, nonce);
    }
  }

  lemma CallLeads(s: State, step: Step, now: nat, air: Air, incidentId: Text, nonce: Text)
    requires OwnStep(s, step, incidentId, nonce) && Mild(air) && SumsIn(step)
    ensures Leads(s, CallTrace(s, step, now, air), Call(s, step, now, air).0, incidentId, nonce)
  {
    var started := Next(s, step);
    LeadsOneStep(s, step, incidentId, nonce);
    if |started.tasks| == |s.tasks| + 1 {
      StartedSums(s, step);
      AwaitLeads(started, |s.tasks|, now, air, incidentId, nonce);
      LeadsOn(s, [step], started, AwaitTrace(started, |s.tasks|, now, air), Call(s, step, now, air).0, incidentId, nonce);
    } else {
      assert [step] + [] == [step];
    }
  }

  lemma LastTwoLead(s: State, e: Envelope, now: nat, verify: Air, settle: Air)
    requires Fits(e) && Mild(verify) && Mild(settle)
    ensures var v := Call(s, VerifyStep(e), now, verify);
            Leads(s, LastTrace(s, e, now, verify, settle), if v.1 then Call(v.0, SettleStep(e, now), now, settle).0 else v.0,
                  e.incidentId, e.selected.value.nonce)
  {
    var n, trace, v := e.selected.value.nonce, CallTrace(s, VerifyStep(e), now, verify), Call(s, VerifyStep(e), now, verify);
    CallLeads(s, VerifyStep(e), now, verify, e.incidentId, n);
    if v.1 {
      CallLeads(v.0, SettleStep(e, now), now, settle, e.incidentId, n);
      LeadsOn(s, trace, v.0, CallTrace(v.0, SettleStep(e, now), now, settle), Call(v.0, SettleStep(e, now), now, settle).0, e.incidentId, n);
    } else {
      assert trace + [] == trace;
    }
  }

  /** A run of the pipeline is a run of steps done for its incident. */
  lemma ProcessLeads(s: State, e: Envelope, op: Operator, now: nat, w: Weather)
    requires Fits(e) && AllMild(w)
    ensures Leads(s, Trace(s, e, op, now, w), Process(s, e, op, now, w).0, e.incidentId, e.selected.value.nonce)
  {
    var n, existing := e.selected.value.nonce, Find(s.registry, e.selected.value.nonce);
    if !(existing.Some? && Terminal(existing.value.status)) {
      var first, t := CallTrace(s, CommitStep(e, op, now), now, w.commit), Call(s, CommitStep(e, op, now), now, w.commit);
      CallLeads(s, CommitStep(e, op, now), now, w.commit, e.incidentId, n);
      if t.1 || existing.Some? {
        LastTwoLead(t.0, e, now, w.verify, w.settle);
        LeadsOn(s, first, t.0, LastTrace(t.0, e, now, w.verify, w.settle), Process(s, e, op, now, w).0, e.incidentId, n);
      }
    }
  }

  // ---- Re-running the pipeline after a crash ----------------------------------------------------------

  lemma {:induction false} OwnPrefix(s: State, steps: seq<Step>, k: nat, incidentId: Text, nonce: Text)
    requires OwnRun(s, steps, incidentId, nonce) && k <= |steps|
    ensures OwnRun(s, steps[..k], incidentId, nonce)
  {
    if k < |steps| {
      OwnPrefix(s, steps[..|steps| - 1], k, incidentId, nonce);
      assert steps[..|steps| - 1][..k] == steps[..k];
    } else {
      assert steps[..k] == steps;
    }
  }

  /** The state after a run of the pipeline is cut short by a crash after `k` steps and some time passes. */
  function CutShort(s: State, e: Envelope, op: Operator, now: nat, w: Weather, k: nat, after: seq<Step>): State
    requires e.selected.Some? && k <= |Trace(s, e, op, now, w)|
  {
    Run(Next(Run(s, Trace(s, e, op, now, w)[..k]), Step.Crash), after)
  }

  lemma CutShortIsReady(s: State, e: Envelope, op: Operator, now: nat, w: Weather, k: nat, after: seq<Step>)
    requires Ready(s, e) && AllMild(w) && k <= |Trace(s, e, op, now, w)| && AllBackground(after)
    ensures Steady(CutShort(s, e, op, now, w, k, after), e.incidentId, e.selected.value.nonce)
  {
    var n, trace := e.selected.value.nonce, Trace(s, e, op, now, w);
    ProcessLeads(s, e, op, now, w);
    OwnPrefix(s, trace, k, e.incidentId, n);
    RunStaysSteady(s, trace[..k], e.incidentId, n);
    StepStaysSteady(Run(s, trace[..k]), Step.Crash, e.incidentId, n);
    BackgroundStaysSteady(Next(Run(s, trace[..k]), Step.Crash), after, e.incidentId, n);
  }

  /** A run of the pipeline is cut by a crash at any await; its transaction may land before, during or after a
      re-run, or never. The re-run settles under exactly the same condition as any run, and nothing is locked, closed
      or paid twice. */
  lemma ReRunAfterCrash(s: State, e: Envelope, op: Operator, now: nat, w: Weather, k: nat, after: seq<Step>,
                        again: Envelope, later: nat, w2: Weather)
    requires Ready(s, e) && AllMild(w) && k <= |Trace(s, e, op, now, w)| && AllBackground(after)
    requires Fits(again) && again.incidentId == e.incidentId && again.selected.value.nonce == e.selected.value.nonce && AllMild(w2)
    ensures var c, n := CutShort(s, e, op, now, w, k, after), e.selected.value.nonce;
            var (t, r) := Process(c, again, op, later, w2);
            && (r == SettledNow <==> Settles(c, again, op, later, w2))
            && (r == SettledNow ==> SettledOnce(t, n, PenaltyToCome(c, again)))
            && Ready(t, again) && AtMostOnce(t.chain, n)
  {
    CutShortIsReady(s, e, op, now, w, k, after);
    RunSettlesIff(CutShort(s, e, op, now, w, k, after), again, op, later, w2);
  }

  // ---- What stops a re-run, and what does not --------------------------------------------------------------

  lemma {:induction false} RunExtends(s: State, steps: seq<Step>)
    ensures Escrow.Extends(s.chain, Run(s, steps).chain)
  {
    if steps != [] {
      var before := Run(s, steps[..|steps| - 1]);
      RunExtends(s, steps[..|steps| - 1]);
      StepExtends(before, steps[|steps| - 1]);
      ExtendsOn(s.chain, before.chain, Run(s, steps).chain);
    }
  }

  /** The chain has a verdict for the nonce, or has closed it. */
  predicate PastVerdict(c: Escrow.Chain, nonce: Text) {
    nonce in c.commitments && (c.commitments[nonce].logDigest != [] || c.commitments[nonce].status != Escrow.StatusCommitted)
  }

  lemma PastVerdictStays(c: Escrow.Chain, d: Escrow.Chain, nonce: Text)
    requires PastVerdict(c, nonce) && Escrow.Extends(c, d)
    ensures PastVerdict(d, nonce)
  {
    assert Escrow.Later(c.commitments[nonce], d.commitments[nonce]);
  }

  lemma WhenLandingExtends(s: State, step: Step, air: Air)
    ensures Escrow.Extends(s.chain, WhenLanding(s, step, air))
  {
    StepExtends(s, step);
    RunExtends(Next(s, step), air.mid);
    ExtendsOn(s.chain, Next(s, step).chain, WhenLanding(s, step, air));
  }

  /** Once a verdict or a close of the nonce is on the chain, whether or not it was ever reported, every run of the
      pipeline throws from then on, after whatever else is done, in any weather, unless the registry has closed the
      nonce. */
  lemma VerdictOnChainBlocksReRun(s: State, steps: seq<Step>, e: Envelope, op: Operator, now: nat, w: Weather)
    requires Ready(s, e) && PastVerdict(s.chain, e.selected.value.nonce)
    requires OwnRun(s, steps, e.incidentId, e.selected.value.nonce) && AllMild(w)
    ensures var d := Run(s, steps);
            && Ready(d, e)
            && Process(d, e, op, now, w).1 == if Closed(d.rows, e.selected.value.nonce)
                                              then AlreadyDone(StatusOf(d.rows, e.selected.value.nonce).value) else Threw
  {
    var n, d := e.selected.value.nonce, Run(s, steps);
    RunStaysSteady(s, steps, e.incidentId, n);
    RunExtends(s, steps);
    PastVerdictStays(s.chain, d.chain, n);
    RunSettlesIff(d, e, op, now, w);
    if Settles(d, e, op, now, w) {
      VerdictIsMet(d, e, op, now, w);
    }
  }

  lemma VerdictIsMet(s: State, e: Envelope, op: Operator, now: nat, w: Weather)
    requires Ready(s, e) && PastVerdict(s.chain, e.selected.value.nonce) && AllMild(w)
    ensures !AwaitsVerdict(WhenLanding(Committed1(s, e, op, now, w), VerifyStep(e), w.verify), e.selected.value.nonce, PenaltyToCome(s, e))
  {
    var n, t := e.selected.value.nonce, Committed1(s, e, op, now, w);
    CallLeads(s, CommitStep(e, op, now), now, w.commit, e.incidentId, n);
    RunExtends(s, CallTrace(s, CommitStep(e, op, now), now, w.commit));
    PastVerdictStays(s.chain, t.chain, n);
    WhenLandingExtends(t, VerifyStep(e), w.verify);
    PastVerdictStays(t.chain, WhenLanding(t, VerifyStep(e), w.verify), n);
  }

  /** Asking for the settlement directly still works while the commitment is open. */
  lemma DirectSettlement(s: State, e: Envelope, now: nat)
    requires ReadyAndOpen(s, e) && Open(s.chain, e.selected.value.nonce)
    ensures var t := Call(s, SettleStep(e, now), now, Still(now)); t.1 && StatusOf(t.0.rows, e.selected.value.nonce) == Some(Settled)
  {
    SettleReported(s, e, now, Still(now));
    SettleSpawns(s, e, now);
  }

  /** A commit that landed unreported, before the re-run or during it, is no obstacle: the chain takes the same voucher
      again, and the run settles exactly when the commitment awaits its verdict and stays open for its settlement. */
  lemma UnreportedCommitIsRepaired(s: State, e: Envelope, op: Operator, now: nat, w: Weather)
    requires Ready(s, e) && AllMild(w) && Find(s.registry, e.selected.value.nonce).None? && e.selected.value.built.Some?
    requires var c := WhenLanding(s, CommitStep(e, op, now), w.commit);
             var n := e.selected.value.nonce;
             n in c.commitments && c.commitments[n].deal == e.selected.value.built.value.deal
    ensures var n, v := e.selected.value.nonce, e.selected.value.built.value;
            Process(s, e, op, now, w).1 == SettledNow
            <==> && AwaitsVerdict(WhenLanding(Committed1(s, e, op, now, w), VerifyStep(e), w.verify), n,
                                  PenaltyFor(v.share, e.selected.value.report))
                 && Open(WhenLanding(Verified1(s, e, op, now, w), SettleStep(e, now), w.settle), n)
  {
    RunSettlesIff(s, e, op, now, w);
  }

  /** A settled run is not repeated: handing the envelope in again, after anything that tears no append and starts no
      commit of its nonce, costs no row and no transaction. */
  lemma SettledRunsAreNotRepeated(s: State, e: Envelope, op: Operator, now: nat, w: Weather, steps: seq<Step>, later: nat, w2: Weather)
    requires Ready(s, e) && AllMild(w) && Process(s, e, op, now, w).1 == SettledNow
    requires var t := Process(s, e, op, now, w).0;
             NoCommitUnderWay(t, e.selected.value.nonce) && ProperRun(t, steps) && Untorn(steps)
    ensures var d := Run(Process(s, e, op, now, w).0, steps);
            Process(d, e, op, later, w2) == (d, AlreadyDone(Settled))
  {
    var t := Process(s, e, op, now, w).0;
    RunSettlesIff(s, e, op, now, w);
    ClosedIsFinal(t, steps, e.selected.value.nonce);
    RunStaysIntact(t, steps);
    ClosedNonceIsLeftAlone(Run(t, steps), e, op, later, w2);
  }

  /** With non-negative samples and a tolerance above zero the penalty is always one the chain accepts. */
  lemma PositiveToleranceIsAccepted(s: State, e: Envelope)
    requires ReadyAndOpen(s, e)
    requires Find(s.registry, e.selected.value.nonce).value.providerAmount.Some?
    requires var r := e.selected.value.report;
             r.promised > 0.0 && r.samples != [] && r.tolerance > 0.0 && Delivery.NonNegative(r.samples)
    ensures var n := e.selected.value.nonce;
            AwaitsVerdict(s.chain, n, PenaltyDue(s, e)) <==> Open(s.chain, n) && s.chain.commitments[n].logDigest == []
  {
    var n, r := e.selected.value.nonce, e.selected.value.report;
    assert EntryOk(s.chain, n, Find(s.registry, n));
    assert Escrow.NonceOk(s.chain, n);
    Delivery.PenaltyFitsTheShare(r.promised, r.samples, r.tolerance, Find(s.registry, n).value.providerAmount.value);
  }
}
