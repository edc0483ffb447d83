/** Runs of the trust service from an empty ledger in which something goes wrong: a commit that reports late, a
    confirmation of the wrong transaction, a settlement that looked the nonce up before its verdict. */
module TrustRuns {
  import opened Units
  import opened Digits
  import opened LedgerText
  import opened Events
  import opened TrustSteps
  import opened TrustSafety
  import opened TrustFinality
  import Delivery
  import Escrow

  predicate Acceptable(v: Escrow.Voucher, authority: Escrow.Authority) {
    && v.deal.nonce != [] && v.deal.incidentId != [] && v.providerSigned && v.buyerSigned
    && v.deal.fee < v.deal.amount && AddsUp(v) && v.deal.expiryMs > 0
    && authority.enabled && v.deal.amount <= authority.maxPerVoucher
  }

  function Request(v: Escrow.Voucher): Offer {
    Offer(v.deal.incidentId, Some(v.deal.nonce), Some(v))
  }

  lemma OneStep(s: State, steps: seq<Step>, step: Step)
    requires ProperRun(s, steps) && Proper(Run(s, steps), step)
    ensures ProperRun(s, steps + [step]) && Run(s, steps + [step]) == Next(Run(s, steps), step)
  {
    assert (steps + [step])[..|steps|] == steps;
  }

  /** Nothing is registered yet. */
  ghost predicate Empty(s: State) {
    Intact(s) && Registered(s) == []
  }

  // ---- A late commit -----------------------------------------------------------------------

  /** Two commits of one voucher have landed and neither has reported. */
  ghost predicate BothLanded(s: State, v: Escrow.Voucher) {
    && |s.tasks| == 2 && AddsUp(v)
    && s.tasks[0].Landed? && s.tasks[0].work.Committing? && s.tasks[0].work.voucher == v
    && s.tasks[1].Landed? && s.tasks[1].work.Committing? && s.tasks[1].work.voucher == v
    && Empty(s)
    && v.deal.nonce in s.chain.commitments && s.chain.commitments[v.deal.nonce].status == Escrow.StatusCommitted
    && v.deal.nonce in s.chain.locked && v.deal.fee <= s.chain.locked[v.deal.nonce]
    && s.chain.commitments[v.deal.nonce].penalty == 0 && s.chain.commitments[v.deal.nonce].deal == v.deal
  }

  lemma NotesRegisterNothing(s: State, note: Row)
    requires Empty(s) && note.kind.Note?
    ensures Empty(Emitted(s, note)) && |Emitted(s, note).rows| == |s.rows| + 1
  {
    EmitStaysIntact(s, note);
  }

  lemma StartUnknown(s: State, v: Escrow.Voucher, authority: Escrow.Authority, buyer: Text)
    requires Empty(s)
    ensures var d := StartedCommit(s, Request(v), authority, buyer, 0);
            && Empty(d) && d.chain == s.chain && |d.rows| == |s.rows| + 1
            && d.tasks == s.tasks + [Waiting(Committing(v, authority, buyer, |s.rows|))]
  {
    NotesRegisterNothing(s, NoteRow(VERIFIED, Some(v.deal.incidentId), Some(v.deal.nonce), 0));
  }

  /** Both commits have looked the nonce up and sent their transactions. */
  ghost predicate BothSent(s: State, v: Escrow.Voucher, authority: Escrow.Authority, buyer: Text) {
    && s.chain == Escrow.Deposit(Escrow.GENESIS, v.deal.amount) && Empty(s) && |s.tasks| == 2
    && s.tasks[0] == Waiting(Committing(v, authority, buyer, 0)) && s.tasks[1] == Waiting(Committing(v, authority, buyer, 1))
  }

  lemma TwoCommitsSend(v: Escrow.Voucher, authority: Escrow.Authority, buyer: Text) returns (steps: seq<Step>)
    requires Acceptable(v, authority)
    ensures ProperRun(INITIAL, steps) && BothSent(Run(INITIAL, steps), v, authority, buyer)
  {
    var fund, start := Outside(Escrow.DepositTx(v.deal.amount), 0), StartCommit(Request(v), authority, buyer, 0);
    OneStep(INITIAL, [], fund);
    var s := Run(INITIAL, [] + [fund]);
    TwoStarts(s, v, authority, buyer);
    OneStep(INITIAL, [] + [fund], start);
    OneStep(INITIAL, [] + [fund] + [start], start);
    steps := [] + [fund] + [start] + [start];
  }

  lemma TwoStarts(s: State, v: Escrow.Voucher, authority: Escrow.Authority, buyer: Text)
    requires Empty(s) && s.rows == [] && s.tasks == [] && s.chain == Escrow.Deposit(Escrow.GENESIS, v.deal.amount)
    ensures var start := StartCommit(Request(v), authority, buyer, 0);
            BothSent(Next(Next(s, start), start), v, authority, buyer)
  {
    StartUnknown(s, v, authority, buyer);
    StartUnknown(StartedCommit(s, Request(v), authority, buyer, 0), v, authority, buyer);
  }

  lemma BothLand(s: State, v: Escrow.Voucher, authority: Escrow.Authority, buyer: Text)
    requires Acceptable(v, authority) && BothSent(s, v, authority, buyer)
    ensures BothLanded(Next(Next(s, Land(0, 0)), Land(1, 0)), v)
  {
    var s1 := Next(s, Land(0, 0));
    assert s1.tasks[1] == s.tasks[1] && s1.chain.commitments[v.deal.nonce] == Escrow.Fresh(v, buyer);
  }

  lemma TwoCommitsLand(v: Escrow.Voucher, authority: Escrow.Authority, buyer: Text) returns (steps: seq<Step>)
    requires Acceptable(v, authority)
    ensures ProperRun(INITIAL, steps) && BothLanded(Run(INITIAL, steps), v)
  {
    steps := TwoCommitsSend(v, authority, buyer);
    BothLand(Run(INITIAL, steps), v, authority, buyer);
    OneStep(INITIAL, steps, Land(0, 0));
    steps := steps + [Land(0, 0)];
    OneStep(INITIAL, steps, Land(1, 0));
    steps := steps + [Land(1, 0)];
  }

  /** The first commit has reported: the registry holds its one entry. */
  ghost predicate OneOpen(s: State, v: Escrow.Voucher) {
    && Intact(s) && |Registered(s)| == 1
    && var e := Registered(s)[0];
       e.nonce == v.deal.nonce && e.status == Committed && e.incidentId == Some(v.deal.incidentId)
  }

  lemma FirstEntry(row: Row)
    requires row.kind == Committed && Truthy(row.nonce) && Truthy(row.incidentId)
    ensures |Index([], row)| == 1
    ensures Some(Index([], row)[0]) == Effect(None, row)
  {
    var none: Registry := [];
    assert Find(none, row.nonce.value) == None;
    assert Put(none, Effect(None, row).value) == [Effect(None, row).value];
  }

  lemma FirstReports(s: State, v: Escrow.Voucher)
    requires Empty(s) && v.deal.nonce != [] && v.deal.incidentId != []
    requires |s.tasks| > 0 && s.tasks[0].Landed? && s.tasks[0].work.Committing? && s.tasks[0].work.voucher == v
    ensures var d := Finished(s, 0, 1);
            && OneOpen(d, v) && Registered(d)[0].connectionLogHash.None? && Registered(d)[0].providerAmount == Some(v.share)
            && Registered(d)[0].penaltyAmount.None?
            && d.chain == s.chain && d.tasks == s.tasks[0 := Ended]
  {
    var row := ResultRow(s, s.tasks[0].work, s.tasks[0].digest, 1);
    EmitStaysIntact(s.(tasks := s.tasks[0 := Ended]), row);
    FirstEntry(Stamped(s, row));
  }

  lemma ActivationFindsIt(s: State, v: Escrow.Voucher)
    requires OneOpen(s, v)
    ensures StartedActivation(s, v.deal.incidentId, Available, 2)
         == Spawn(s, Settling(v.deal.incidentId, Registered(s)[0]))
  {
    OnlyEntryIsOpen(Registered(s), v.deal.incidentId);
  }

  lemma OnlyEntryIsOpen(reg: Registry, incidentId: Text)
    requires |reg| == 1 && reg[0].status == Committed && reg[0].incidentId == Some(incidentId)
    ensures FirstCommitted(OfIncident(reg, incidentId)) == Some(reg[0])
  {
    assert reg[..0] == [];
    assert OfIncident(reg, incidentId) == [reg[0]];
  }

  /** The settlement has landed; the second commit still has not reported. */
  predicate SettlementLanded(s: State, v: Escrow.Voucher) {
    && |s.tasks| == 3 && s.tasks[1].Landed? && s.tasks[2].Landed?
    && s.tasks[1].work.Committing? && s.tasks[1].work.voucher == v
    && s.tasks[2].work.Settling? && s.tasks[2].work.entry.nonce == v.deal.nonce
  }

  /** The first commit has reported, the second still waits to. */
  ghost predicate FirstOpen(s: State, v: Escrow.Voucher) {
    && OneOpen(s, v) && |s.tasks| == 2
    && s.tasks[1].Landed? && s.tasks[1].work.Committing? && s.tasks[1].work.voucher == v
    && Settleable(s.chain, v.deal.nonce)
  }

  predicate Settleable(c: Escrow.Chain, n: Text) {
    && n in c.commitments && c.commitments[n].status == Escrow.StatusCommitted
    && n in c.locked && c.commitments[n].penalty + c.commitments[n].deal.fee <= c.locked[n]
  }

  lemma FirstCommitReports(s: State, v: Escrow.Voucher)
    requires BothLanded(s, v) && v.deal.nonce != [] && v.deal.incidentId != []
    ensures FirstOpen(Next(s, Finish(0, 1)), v)
  {
    FirstReports(s, v);
  }

  lemma SettlementIsSent(s: State, v: Escrow.Voucher)
    requires FirstOpen(s, v)
    ensures var d := Next(Next(s, StartActivation(v.deal.incidentId, Available, 2)), Land(2, 2));
            SettlementLanded(d, v) && d.tail == Complete
  {
    ActivationFindsIt(s, v);
    SettlementLands(Next(s, StartActivation(v.deal.incidentId, Available, 2)), v.deal.nonce);
  }

  lemma SettlesFirst(s: State, v: Escrow.Voucher) returns (steps: seq<Step>)
    requires BothLanded(s, v) && v.deal.nonce != [] && v.deal.incidentId != []
    ensures |steps| == 3 && ProperRun(s, steps) && SettlementLanded(Run(s, steps), v) && Run(s, steps).tail == Complete
  {
    FirstCommitReports(s, v);
    OneStep(s, [], Finish(0, 1));
    steps := [] + [Finish(0, 1)];
    SettlementIsSent(Run(s, steps), v);
    OneStep(s, steps, StartActivation(v.deal.incidentId, Available, 2));
    steps := steps + [StartActivation(v.deal.incidentId, Available, 2)];
    OneStep(s, steps, Land(2, 2));
    steps := steps + [Land(2, 2)];
  }

  lemma SettlementReports(s: State, v: Escrow.Voucher)
    requires SettlementLanded(s, v) && v.deal.nonce != [] && s.tail == Complete
    ensures var d := Finished(s, 2, 3);
            d.tail == Complete && StatusOf(d.rows, v.deal.nonce) == Some(Settled) && |d.tasks| == 3 && d.tasks[1] == s.tasks[1]
  {
    FinishedRows(s, 2, 3);
    AppendedStatus(s.rows, ResultRow(s, s.tasks[2].work, s.tasks[2].digest, 3), s.lines + 1, v.deal.nonce);
  }

  lemma CommitReports(s: State, v: Escrow.Voucher)
    requires s.tail == Complete && |s.tasks| == 3 && s.tasks[1].Landed? && s.tasks[1].work.Committing? && s.tasks[1].work.voucher == v && v.deal.nonce != []
    ensures StatusOf(Finished(s, 1, 4).rows, v.deal.nonce) == Some(Committed)
  {
    FinishedRows(s, 1, 4);
    AppendedStatus(s.rows, ResultRow(s, s.tasks[1].work, s.tasks[1].digest, 4), s.lines + 1, v.deal.nonce);
  }

  /** The settlement lands and reports, and then the second commit reports. */
  lemma SecondReportsLate(s: State, v: Escrow.Voucher) returns (steps: seq<Step>)
    requires BothLanded(s, v) && v.deal.nonce != [] && v.deal.incidentId != []
    ensures |steps| == 5 && ProperRun(s, steps)
    ensures StatusOf(Run(s, steps[..4]).rows, v.deal.nonce) == Some(Settled)
    ensures StatusOf(Run(s, steps).rows, v.deal.nonce) == Some(Committed)
  {
    steps := SettlesFirst(s, v);
    SettlementReports(Run(s, steps), v);
    OneStep(s, steps, Finish(2, 3));
    steps := steps + [Finish(2, 3)];
    CommitReports(Run(s, steps), v);
    OneStep(s, steps, Finish(1, 4));
    assert (steps + [Finish(1, 4)])[..4] == steps;
    steps := steps + [Finish(1, 4)];
  }

  lemma SettlementLands(s: State, n: Text)
    requires |s.tasks| == 3 && s.tasks[2].Waiting? && s.tasks[2].work.Settling? && s.tasks[2].work.entry.nonce == n
    requires Settleable(s.chain, n)
    ensures var d := Landing(s, 2, 2);
            d.tasks == s.tasks[2 := Landed(s.tasks[2].work, |s.chain.log|)] && d.rows == s.rows && d.tail == s.tail
  {}

  lemma FinishedRows(s: State, i: nat, now: nat)
    requires i < |s.tasks| && s.tasks[i].Landed? && s.tail == Complete
    ensures Finished(s, i, now).tail == Complete
    ensures Finished(s, i, now).rows == s.rows + [ResultRow(s, s.tasks[i].work, s.tasks[i].digest, now).(seqNo := s.lines + 1)]
    ensures Finished(s, i, now).tasks == s.tasks[i := Ended]
  {}

  lemma AppendedStatus(rows: seq<Row>, row: Row, number: nat, n: Text)
    requires row.nonce == Some(n) && n != [] && Lifecycle(row.kind)
    ensures StatusOf(rows + [row.(seqNo := number)], n) == Some(row.kind)
  {
    RowOnStatus(rows, row.(seqNo := number), n);
  }

  /** A late commit does reopen a settled nonce: two commits of one voucher, the second reporting after
      the settlement, leave the registry at COMMITTED while the chain stays settled. */
  lemma LateCommitReopens(v: Escrow.Voucher, authority: Escrow.Authority, buyer: Text) returns (before: seq<Step>, after: seq<Step>)
    requires Acceptable(v, authority)
    ensures ProperRun(INITIAL, before) && ProperRun(Run(INITIAL, before), after) && |after| == 5
    ensures StatusOf(Run(Run(INITIAL, before), after[..4]).rows, v.deal.nonce) == Some(Settled)
    ensures StatusOf(Run(Run(INITIAL, before), after).rows, v.deal.nonce) == Some(Committed)
  {
    before := TwoCommitsLand(v, authority, buyer);
    after := SecondReportsLate(Run(INITIAL, before), v);
  }

  // ---- The wrong transaction -----------------------------------------------------------------

  lemma OnePlausible(s: State, steps: seq<Step>, step: Step)
    requires PlausibleRun(s, steps) && Untorn(steps) && Plausible(Run(s, steps), step) && !step.CrashInAppend?
    ensures PlausibleRun(s, steps + [step]) && Untorn(steps + [step]) && Run(s, steps + [step]) == Next(Run(s, steps), step)
  {
    assert (steps + [step])[..|steps|] == steps;
  }

  /** One commit has landed, in transaction 1, and has not reported. */
  ghost predicate OneLanded(s: State, v: Escrow.Voucher) {
    && Empty(s) && |s.tasks| == 1 && s.tasks[0].Landed? && s.tasks[0].work.Committing? && s.tasks[0].work.voucher == v
    && |s.chain.log| == 2 && s.chain.log[1] == Escrow.CommittedEvent(v.deal.nonce, false)
    && s.chain.commitments.Keys == {v.deal.nonce}
    && Settleable(s.chain, v.deal.nonce) && s.chain.commitments[v.deal.nonce].logDigest == []
    && s.chain.commitments[v.deal.nonce].deal == v.deal && s.chain.locked[v.deal.nonce] == v.deal.amount
  }

  lemma CommitLands(s: State, v: Escrow.Voucher, authority: Escrow.Authority, buyer: Text)
    requires Acceptable(v, authority) && Empty(s) && s.chain == Escrow.Deposit(Escrow.GENESIS, v.deal.amount)
    requires s.tasks == [Waiting(Committing(v, authority, buyer, 0))]
    ensures OneLanded(Next(s, Land(0, 0)), v)
  {
    var d := Next(s, Land(0, 0));
    assert d.chain.commitments == map[v.deal.nonce := Escrow.Fresh(v, buyer)];
  }

  lemma OneCommitLands(v: Escrow.Voucher, authority: Escrow.Authority, buyer: Text) returns (steps: seq<Step>)
    requires Acceptable(v, authority)
    ensures ProperRun(INITIAL, steps) && PlausibleRun(INITIAL, steps) && Untorn(steps) && OneLanded(Run(INITIAL, steps), v)
  {
    var fund, start := Outside(Escrow.DepositTx(v.deal.amount), 0), StartCommit(Request(v), authority, buyer, 0);
    OneStep(INITIAL, [], fund);
    OnePlausible(INITIAL, [], fund);
    steps := [] + [fund];
    StartUnknown(Run(INITIAL, steps), v, authority, buyer);
    OneStep(INITIAL, steps, start);
    OnePlausible(INITIAL, steps, start);
    steps := steps + [start];
    CommitLands(Run(INITIAL, steps), v, authority, buyer);
    OneStep(INITIAL, steps, Land(0, 0));
    OnePlausible(INITIAL, steps, Land(0, 0));
    steps := steps + [Land(0, 0)];
  }

  lemma WrongConfirmationWaits(s: State, v: Escrow.Voucher, incidentId: Text, other: Text, data: Data)
    requires OneLanded(s, v) && other != [] && other != v.deal.nonce
    ensures Next(s, StartConfirm(incidentId, other, 1, data, 0)) == Spawn(s, Confirming(incidentId, other, 1, data, |s.rows|))
  {}

  predicate AsksFor(w: Work, other: Text, digest: nat) {
    w.Confirming? && w.digest == digest && w.nonce == other
  }

  lemma NotItsEvent(c: Escrow.Chain, row: Row, digest: nat, n: Text, other: Text)
    requires row.kind == Committed && row.nonce == Some(other) && row.txDigest == Some(NatText(digest))
    requires digest < |c.log| && c.log[digest] == Escrow.CommittedEvent(n, false) && other != n
    ensures !RowTrue(c, row)
  {
    NatRoundTrip(digest);
  }

  lemma WrongRow(s: State, w: Work, now: nat, digest: nat, n: Text, other: Text)
    requires AsksFor(w, other, digest) && other != n && other != []
    requires digest < |s.chain.log| && s.chain.log[digest] == Escrow.CommittedEvent(n, false)
    ensures var row := Stamped(s, ResultRow(s, w, digest, now));
            !RowTrue(s.chain, row) && StatusOf(s.rows + [row], other) == Some(Committed)
  {
    var row := ResultRow(s, w, digest, now);
    NotItsEvent(s.chain, Stamped(s, row), digest, n, other);
    RowOnStatus(s.rows, Stamped(s, row), other);
  }

  /** The confirmation of another nonce with this commit's digest goes through. */
  lemma WrongConfirmationReports(s: State, i: nat, now: nat, digest: nat, n: Text, other: Text)
    requires i < |s.tasks| && s.tasks[i].Waiting? && AsksFor(s.tasks[i].work, other, digest) && s.tail == Complete
    requires digest < |s.chain.log| && s.chain.log[digest] == Escrow.CommittedEvent(n, false) && other != n && other != []
    ensures var told := Next(s, Finish(i, now));
            told.chain == s.chain && StatusOf(told.rows, other) == Some(Committed) && !RowsTrue(told.chain, told.rows)
  {
    ConfirmationReports(s, i, now);
    WrongRow(s, s.tasks[i].work, now, digest, n, other);
    LastRowFalse(s.chain, s.rows, Stamped(s, ResultRow(s, s.tasks[i].work, digest, now)));
  }

  lemma LastRowFalse(c: Escrow.Chain, rows: seq<Row>, row: Row)
    requires !RowTrue(c, row)
    ensures !RowsTrue(c, rows + [row])
  {
    assert (rows + [row])[|rows|] == row;
  }

  /** A confirmation of one nonce with the digest of another one's commit: the registry takes it for committed
      while the chain has never heard of it, and every verdict, settlement or refund of it aborts. */
  lemma WrongDigestIsBelieved(v: Escrow.Voucher, authority: Escrow.Authority, buyer: Text, incidentId: Text, other: Text, data: Data)
    returns (steps: seq<Step>)
    requires Acceptable(v, authority) && other != [] && other != v.deal.nonce
    ensures PlausibleRun(INITIAL, steps) && Untorn(steps)
    ensures var t := Run(INITIAL, steps);
            && StatusOf(t.rows, other) == Some(Committed) && !RowsTrue(t.chain, t.rows)
            && other !in t.chain.commitments
            && Escrow.Settle(t.chain, other) == Escrow.Abort(Escrow.UnknownCommitment)
            && Escrow.Refund(t.chain, other) == Escrow.Abort(Escrow.UnknownCommitment)
  {
    steps := OneCommitLands(v, authority, buyer);
    var ask := StartConfirm(incidentId, other, 1, data, 0);
    WrongConfirmationWaits(Run(INITIAL, steps), v, incidentId, other, data);
    OnePlausible(INITIAL, steps, ask);
    steps := steps + [ask];
    WrongConfirmationReports(Run(INITIAL, steps), 1, 0, 1, v.deal.nonce, other);
    OnePlausible(INITIAL, steps, Finish(1, 0));
    steps := steps + [Finish(1, 0)];
  }

  // ---- A settlement that looked the nonce up too early -------------------------------------------

  /** The report costs the provider of this voucher something, but not everything. */
  predicate Penalizes(report: Report, v: Escrow.Voucher, penalty: nat) {
    var check := Delivery.CheckDelivery(report.promised, report.samples, report.tolerance);
    && check.Some? && Delivery.Penalty(v.share, check.value.penaltyPct) == penalty
    && report.logDigest != [] && 0 < penalty && penalty + v.deal.fee < v.deal.amount
  }

  /** The one commitment is open and has no verdict. */
  ghost predicate Opened(s: State, v: Escrow.Voucher) {
    && OneOpen(s, v) && s.tasks == [Ended] && Settleable(s.chain, v.deal.nonce)
    && Registered(s)[0].connectionLogHash.None? && Registered(s)[0].penaltyAmount.None?
    && Registered(s)[0].providerAmount == Some(v.share)
    && s.chain.commitments[v.deal.nonce].logDigest == [] && s.chain.commitments[v.deal.nonce].deal == v.deal
    && s.chain.locked[v.deal.nonce] == v.deal.amount
  }

  lemma CommitOpens(s: State, v: Escrow.Voucher)
    requires OneLanded(s, v) && v.deal.nonce != [] && v.deal.incidentId != []
    ensures Opened(Next(s, Finish(0, 1)), v)
  {
    FirstReports(s, v);
  }

  lemma VerdictAndSettlementAreSent(s: State, v: Escrow.Voucher, report: Report, penalty: nat)
    requires Opened(s, v) && Penalizes(report, v, penalty)
    ensures var d := Next(Next(s, StartVerify(v.deal.incidentId, report)), StartActivation(v.deal.incidentId, Available, 2));
            d == s.(tasks := [Ended, Waiting(Verifying(v.deal.incidentId, v.deal.nonce, report.logDigest, penalty)),
                              Waiting(Settling(v.deal.incidentId, Registered(s)[0]))])
  {
    OnlyEntryIsOpen(Registered(s), v.deal.incidentId);
    var sent := Next(s, StartVerify(v.deal.incidentId, report));
    ActivationFindsIt(sent, v);
  }

  lemma VerdictAndSettlementLand(s: State, v: Escrow.Voucher, w: Work, e: Entry, penalty: nat)
    requires s.tasks == [Ended, Waiting(w), Waiting(Settling(v.deal.incidentId, e))] && e.nonce == v.deal.nonce
    requires w.Verifying? && w.nonce == v.deal.nonce && w.penalty == penalty && penalty + v.deal.fee < v.deal.amount
    requires Settleable(s.chain, v.deal.nonce) && s.chain.commitments[v.deal.nonce].logDigest == []
    requires s.chain.commitments[v.deal.nonce].deal == v.deal && s.chain.locked[v.deal.nonce] == v.deal.amount
    requires s.tail == Complete && e.penaltyAmount.None?
    ensures PaidUnseen(Next(Next(s, Land(1, 2)), Land(2, 3)), v.deal.nonce, penalty)
  {
    var verdict := Next(s, Land(1, 2));
    assert verdict.chain == Escrow.Verify(s.chain, v.deal.nonce, w.logDigest, penalty).chain;
    assert Settleable(verdict.chain, v.deal.nonce);
  }

  /** The settlement had looked the commitment up before the verdict was in: the chain pays the penalty out, and
      the SETTLED row says there was none. */
  lemma PenaltyMissingFromRow(v: Escrow.Voucher, authority: Escrow.Authority, buyer: Text, report: Report, penalty: nat)
    returns (steps: seq<Step>)
    requires Acceptable(v, authority) && Penalizes(report, v, penalty)
    ensures ProperRun(INITIAL, steps) && PaidUntold(Run(INITIAL, steps), v.deal.nonce, penalty) && penalty > 0
  {
    steps := OneCommitLands(v, authority, buyer);
    CommitOpens(Run(INITIAL, steps), v);
    OneStep(INITIAL, steps, Finish(0, 1));
    steps := steps + [Finish(0, 1)];
    var more := SettlesBeforeItsVerdictReports(Run(INITIAL, steps), v, report, penalty);
    RunInTwo(INITIAL, steps, more);
    ProperInTwo(INITIAL, steps, Run(INITIAL, steps), more);
    steps := steps + more;
  }

  /** Everything has landed; the settlement was told of no verdict. */
  predicate PaidUnseen(s: State, n: Text, penalty: nat) {
    && |s.tasks| == 3 && s.tasks[2].Landed? && s.tasks[2].work.Settling? && s.tail == Complete
    && s.tasks[2].work.entry.nonce == n && s.tasks[2].work.entry.penaltyAmount.None?
    && n in s.chain.commitments && s.chain.commitments[n].penalty == penalty
    && s.chain.commitments[n].status == Escrow.StatusSettled
  }

  predicate PaidUntold(s: State, n: Text, penalty: nat) {
    && n in s.chain.commitments && s.chain.commitments[n].penalty == penalty
    && s.chain.commitments[n].status == Escrow.StatusSettled
    && s.rows != []
    && var last := s.rows[|s.rows| - 1];
       last.kind == Settled && last.nonce == Some(n) && last.data.penaltyAmount == Some(0)
  }

  lemma SettlementTellsNothing(s: State, n: Text, penalty: nat)
    requires PaidUnseen(s, n, penalty)
    ensures PaidUntold(Next(s, Finish(2, 4)), n, penalty)
  {
    FinishedRows(s, 2, 4);
  }

  lemma SettlesBeforeItsVerdictReports(s: State, v: Escrow.Voucher, report: Report, penalty: nat) returns (steps: seq<Step>)
    requires Opened(s, v) && Penalizes(report, v, penalty)
    ensures ProperRun(s, steps) && PaidUntold(Run(s, steps), v.deal.nonce, penalty)
  {
    var e := Registered(s)[0];
    steps := TwoSteps(s, StartVerify(v.deal.incidentId, report), StartActivation(v.deal.incidentId, Available, 2));
    VerdictAndSettlementAreSent(s, v, report, penalty);
    var sent := Run(s, steps);
    VerdictAndSettlementLand(sent, v, sent.tasks[1].work, e, penalty);
    var landed := TwoSteps(sent, Land(1, 2), Land(2, 3));
    RunInTwo(s, steps, landed);
    ProperInTwo(s, steps, sent, landed);
    steps := steps + landed;
    SettlementTellsNothing(Run(s, steps), v.deal.nonce, penalty);
    OneStep(s, steps, Finish(2, 4));
    steps := steps + [Finish(2, 4)];
  }

  lemma TwoSteps(s: State, first: Step, second: Step) returns (steps: seq<Step>)
    requires Proper(s, first) && Proper(Next(s, first), second)
    ensures ProperRun(s, steps) && Run(s, steps) == Next(Next(s, first), second)
  {
    OneStep(s, [], first);
    OneStep(s, [] + [first], second);
    steps := [] + [first] + [second];
  }

  lemma {:induction false} ProperInTwo(s: State, first: seq<Step>, t: State, second: seq<Step>)
    requires ProperRun(s, first) && Run(s, first) == t && ProperRun(t, second)
    ensures ProperRun(s, first + second)
  {
    if second == [] {
      assert first + second == first;
    } else {
      var init, last := second[..|second| - 1], second[|second| - 1];
      ProperInTwo(s, first, t, init);
      RunInTwo(s, first, init);
      InitAndLast(first, second);
      AddLast(s, first + init, last, Run(t, init));
    }
  }

  lemma AddLast(s: State, steps: seq<Step>, step: Step, t: State)
    requires ProperRun(s, steps) && Run(s, steps) == t && Proper(t, step)
    ensures ProperRun(s, steps + [step]) && Run(s, steps + [step]) == Next(t, step)
  {
    OneStep(s, steps, step);
  }

  /** Such reports exist: 40 of 100 promised at a tolerance of 10 costs half of the provider's 900. */
  lemma HalfTheShareIsLost(v: Escrow.Voucher)
    requires v.deal.amount == 1000 && v.deal.fee == 100 && v.share == 900
    ensures Penalizes(Report(100.0, [40.0], 10.0, [1]), v, 450)
  {
    assert Delivery.Average([40.0]) == 40.0;
    Delivery.PenaltyPctMeaning(100.0, [40.0], 10.0);
  }
}
