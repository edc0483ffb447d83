/** Runs from an empty ledger that leave the settlement pipeline stuck: a crash between a verdict or a settlement
    landing on the chain and its row (src/sui/integration.js). */
module PipelineRuns {
  import opened Units
  import opened Events
  import opened TrustSteps
  import opened TrustSafety
  import opened TrustFinality
  import opened TrustRuns
  import opened Integration
  import Escrow

  function EnvelopeOf(v: Escrow.Voucher, report: Report): Envelope {
    Envelope(v.deal.incidentId, Some(Selected(v.deal.nonce, Some(v), report)))
  }

  // ---- One open commitment -------------------------------------------------------------------

  lemma OnlyEntry(reg: Registry, m: Text)
    requires |reg| == 1
    ensures Find(reg, m) == if reg[0].nonce == m then Some(reg[0]) else None
  {
    assert reg[1..] == [];
  }

  lemma OpenedIsReady(s: State, v: Escrow.Voucher, authority: Escrow.Authority, report: Report)
    requires Inv(s) && Opened(s, v) && Acceptable(v, authority) && report.logDigest != []
    ensures ReadyAndOpen(s, EnvelopeOf(v, report))
    ensures PenaltyDue(s, EnvelopeOf(v, report)) == PenaltyFor(v.share, report)
  {
    OnlyEntry(s.registry, v.deal.nonce);
    forall m: Text | OpenIn(s.registry, v.deal.incidentId, m) ensures m == v.deal.nonce {
      OnlyEntry(s.registry, m);
    }
  }

  /** The commit has landed and reported, and the pipeline is about to verify. */
  lemma CommitReportsFirst(v: Escrow.Voucher, authority: Escrow.Authority, buyer: Text, report: Report, penalty: nat)
    returns (steps: seq<Step>)
    requires Acceptable(v, authority) && Penalizes(report, v, penalty)
    ensures ProperRun(INITIAL, steps)
    ensures var s, e := Run(INITIAL, steps), EnvelopeOf(v, report);
            && ReadyAndOpen(s, e) && PenaltyDue(s, e) == Some(penalty)
            && AwaitsVerdict(s.chain, v.deal.nonce, Some(penalty))
  {
    steps := OneCommitLands(v, authority, buyer);
    CommitOpens(Run(INITIAL, steps), v);
    OneStep(INITIAL, steps, Finish(0, 1));
    steps := steps + [Finish(0, 1)];
    EveryRunIsSafe(INITIAL, steps);
    OpenedIsReady(Run(INITIAL, steps), v, authority, report);
  }

  // ---- Cut after landing, before reporting ------------------------------------------------------------

  /** The call is started, its transaction lands, and the process crashes. */
  function CutAfterLanding(s: State, step: Step, now: nat): State {
    Next(Next(Next(s, step), Land(|s.tasks|, now)), Step.Crash)
  }

  lemma LandsAtOnce(started: State, i: nat, w: Work, now: nat)
    requires i < |started.tasks| && started.tasks[i] == Waiting(w) && TxOf(w).Some?
    requires Escrow.Execute(started.chain, TxOf(w).value, now).Done?
    ensures var d := Next(started, Land(i, now));
            d.chain == Escrow.Execute(started.chain, TxOf(w).value, now).chain && SameFile(d, started)
  {}

  lemma CrashKeepsFile(s: State)
    requires Intact(s)
    ensures Next(s, Step.Crash).chain == s.chain && SameFile(Next(s, Step.Crash), s)
  {}

  lemma CutStaysReady(s: State, e: Envelope, step: Step, w: Work, now: nat)
    requires ReadyAndOpen(s, e) && OwnStep(s, step, e.incidentId, e.selected.value.nonce)
    requires Next(s, step) == Spawn(s, w) && TxOf(w).Some? && Escrow.Execute(s.chain, TxOf(w).value, now).Done?
    ensures var d := CutAfterLanding(s, step, now);
            ReadyAndOpen(d, e) && d.chain == Escrow.Execute(s.chain, TxOf(w).value, now).chain
  {
    var n, started := e.selected.value.nonce, Next(s, step);
    LandsAtOnce(started, |s.tasks|, w, now);
    var landed := Next(started, Land(|s.tasks|, now));
    StepStaysSteady(s, step, e.incidentId, n);
    StepStaysSteady(started, Land(|s.tasks|, now), e.incidentId, n);
    CrashKeepsFile(landed);
    StepStaysSteady(landed, Step.Crash, e.incidentId, n);
  }

  /** From any state that is ready and waits for a verdict: the verdict lands, unreported. */
  lemma UnreportedVerdict(s: State, e: Envelope, now: nat)
    requires ReadyAndOpen(s, e) && AwaitsVerdict(s.chain, e.selected.value.nonce, PenaltyDue(s, e))
    ensures var d, n := CutAfterLanding(s, VerifyStep(e), now), e.selected.value.nonce;
            ReadyAndOpen(d, e) && Open(d.chain, n) && PastVerdict(d.chain, n)
  {
    var n, report, penalty := e.selected.value.nonce, e.selected.value.report, PenaltyDue(s, e).value;
    VerifySpawns(s, e);
    CutStaysReady(s, e, VerifyStep(e), Verifying(e.incidentId, n, report.logDigest, penalty), now);
    VerdictIsOnChain(s.chain, n, report.logDigest, penalty);
  }

  lemma VerdictIsOnChain(c: Escrow.Chain, n: Text, logDigest: Text, penalty: nat)
    requires Escrow.Verify(c, n, logDigest, penalty).Done? && logDigest != []
    ensures var d := Escrow.Verify(c, n, logDigest, penalty).chain; Open(d, n) && PastVerdict(d, n)
  {}

  lemma SettleIsOwn(s: State, e: Envelope, now: nat)
    requires ReadyAndOpen(s, e)
    ensures OwnStep(s, SettleStep(e, now), e.incidentId, e.selected.value.nonce)
  {}

  /** From any state that is ready with an open commitment: the settlement lands, unreported. */
  lemma UnreportedSettlement(s: State, e: Envelope, now: nat)
    requires ReadyAndOpen(s, e) && Open(s.chain, e.selected.value.nonce)
    ensures var d, n := CutAfterLanding(s, SettleStep(e, now), now), e.selected.value.nonce;
            ReadyAndOpen(d, e) && Paid(d.chain, n) && PastVerdict(d.chain, n)
  {
    var n, step := e.selected.value.nonce, SettleStep(e, now);
    var w := Settling(e.incidentId, Find(s.registry, n).value);
    SettleSpawns(s, e, now);
    SettleIsOwn(s, e, now);
    assert TxOf(w) == Some(Escrow.SettleTx(n));
    SettlementIsOnChain(s.chain, n, now);
    CutStaysReady(s, e, step, w, now);
  }

  lemma SettlementIsOnChain(c: Escrow.Chain, n: Text, now: nat)
    requires Escrow.ChainOk(c) && Open(c, n)
    ensures var o := Escrow.Execute(c, Escrow.SettleTx(n), now); o.Done? && Paid(o.chain, n) && PastVerdict(o.chain, n)
  {
    SettlesWhileOpen(c, n);
  }

  // ---- Stuck for good ----------------------------------------------------------------------------

  lemma ThreeSteps(s: State, steps: seq<Step>, first: Step, second: Step, third: Step) returns (all: seq<Step>)
    requires ProperRun(s, steps) && Proper(Run(s, steps), first) && Proper(Next(Run(s, steps), first), second)
    requires Proper(Next(Next(Run(s, steps), first), second), third)
    ensures ProperRun(s, all) && Run(s, all) == Next(Next(Next(Run(s, steps), first), second), third)
  {
    OneStep(s, steps, first);
    OneStep(s, steps + [first], second);
    OneStep(s, steps + [first] + [second], third);
    all := steps + [first] + [second] + [third];
  }

  /** Every run of the pipeline throws, at any time and in any weather. */
  ghost predicate AlwaysThrows(s: State, e: Envelope) {
    forall op: Operator, now: nat, w: Weather :: AllMild(w) ==> Process(s, e, op, now, w).1 == Threw
  }

  lemma StuckRunsThrow(s: State, e: Envelope)
    requires ReadyAndOpen(s, e) && PastVerdict(s.chain, e.selected.value.nonce)
    ensures AlwaysThrows(s, e)
  {
    forall op: Operator, now: nat, w: Weather | AllMild(w) ensures Process(s, e, op, now, w).1 == Threw {
      VerdictOnChainBlocksReRun(s, [], e, op, now, w);
      KnownIsOpenOrClosed(s, e);
      assert Run(s, []) == s;
    }
  }

  /** A run from the start that is cut when its verdict has landed and not reported: the commitment is open on both
      sides, and every re-run throws. */
  lemma StuckAfterVerdict(v: Escrow.Voucher, authority: Escrow.Authority, buyer: Text, report: Report, penalty: nat)
    returns (steps: seq<Step>)
    requires Acceptable(v, authority) && Penalizes(report, v, penalty)
    ensures ProperRun(INITIAL, steps)
    ensures var s, e := Run(INITIAL, steps), EnvelopeOf(v, report);
            ReadyAndOpen(s, e) && Open(s.chain, v.deal.nonce) && AlwaysThrows(s, e)
  {
    var e := EnvelopeOf(v, report);
    steps := CommitReportsFirst(v, authority, buyer, report, penalty);
    var s := Run(INITIAL, steps);
    UnreportedVerdict(s, e, 2);
    steps := ThreeSteps(INITIAL, steps, VerifyStep(e), Land(|s.tasks|, 2), Step.Crash);
    StuckRunsThrow(Run(INITIAL, steps), e);
  }

  lemma {:induction false} OwnIsProper(s: State, steps: seq<Step>, incidentId: Text, nonce: Text)
    requires OwnRun(s, steps, incidentId, nonce)
    ensures ProperRun(s, steps)
  {
    if steps != [] {
      OwnIsProper(s, steps[..|steps| - 1], incidentId, nonce);
    }
  }

  /** The pipeline has verified, and is about to settle. */
  lemma VerdictReports(v: Escrow.Voucher, authority: Escrow.Authority, buyer: Text, report: Report, penalty: nat)
    returns (steps: seq<Step>)
    requires Acceptable(v, authority) && Penalizes(report, v, penalty)
    ensures ProperRun(INITIAL, steps)
    ensures ReadyAndOpen(Run(INITIAL, steps), EnvelopeOf(v, report)) && Open(Run(INITIAL, steps).chain, v.deal.nonce)
  {
    var e := EnvelopeOf(v, report);
    steps := CommitReportsFirst(v, authority, buyer, report, penalty);
    var s := Run(INITIAL, steps);
    var trace := CallTrace(s, VerifyStep(e), 2, Still(2));
    VerifyReported(s, e, 2, Still(2));
    NothingLands(s, VerifyStep(e), 2);
    VerifySpawns(s, e);
    VerdictAtRest(s, e, 2, penalty);
    CallLeads(s, VerifyStep(e), 2, Still(2), e.incidentId, v.deal.nonce);
    OwnIsProper(s, trace, e.incidentId, v.deal.nonce);
    RunInTwo(INITIAL, steps, trace);
    ProperInTwo(INITIAL, steps, s, trace);
    steps := steps + trace;
  }

  /** A run from the start that is cut when its settlement has landed and not reported: the chain has paid, the registry
      still has the nonce open, and every re-run throws. */
  lemma StuckAfterSettlement(v: Escrow.Voucher, authority: Escrow.Authority, buyer: Text, report: Report, penalty: nat)
    returns (steps: seq<Step>)
    requires Acceptable(v, authority) && Penalizes(report, v, penalty)
    ensures ProperRun(INITIAL, steps)
    ensures var s, e := Run(INITIAL, steps), EnvelopeOf(v, report);
            ReadyAndOpen(s, e) && Paid(s.chain, v.deal.nonce) && AlwaysThrows(s, e)
  {
    var e := EnvelopeOf(v, report);
    steps := VerdictReports(v, authority, buyer, report, penalty);
    var s := Run(INITIAL, steps);
    UnreportedSettlement(s, e, 3);
    steps := ThreeSteps(INITIAL, steps, SettleStep(e, 3), Land(|s.tasks|, 3), Step.Crash);
    StuckRunsThrow(Run(INITIAL, steps), e);
  }
}
