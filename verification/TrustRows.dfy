/** What each call of the trust service starts, and what the rows say in full (src/sui/service.js): stated on the
    registry, the transactions sent and the chain, for every state that a run can reach. */
module TrustRows {
  import opened Units
  import opened Digits
  import opened LedgerText
  import opened Events
  import opened TrustSteps
  import opened TrustSafety
  import opened TrustFinality
  import Delivery
  import Escrow

  // ---- What each call starts ---------------------------------------------------------------

  predicate Registers(reg: Registry, nonce: Text) {
    exists i :: 0 <= i < |reg| && reg[i].nonce == nonce
  }

  predicate OpenEntry(e: Entry, incidentId: Text) {
    e.status == Committed && e.incidentId == Some(incidentId)
  }

  /** The oldest open entry of the incident. */
  predicate OldestOpen(reg: Registry, incidentId: Text, i: nat) {
    i < |reg| && OpenEntry(reg[i], incidentId) && forall j :: 0 <= j < i ==> !OpenEntry(reg[j], incidentId)
  }

  predicate NoneOpen(reg: Registry, incidentId: Text) {
    forall j :: 0 <= j < |reg| ==> !OpenEntry(reg[j], incidentId)
  }

  lemma {:induction false} FirstCommittedMore(entries: seq<Entry>, e: Entry)
    ensures FirstCommitted(entries + [e])
         == if FirstCommitted(entries).Some? then FirstCommitted(entries) else if e.status == Committed then Some(e) else None
  {
    if entries != [] {
      FirstCommittedMore(entries[1..], e);
      assert (entries + [e])[1..] == entries[1..] + [e];
    }
  }

  ghost predicate Oldest(reg: Registry, incidentId: Text, found: Option<Entry>) {
    match found
    case Some(e) => exists i: nat :: OldestOpen(reg, incidentId, i) && reg[i] == e
    case None => NoneOpen(reg, incidentId)
  }

  lemma {:induction false} FirstIsOldest(reg: Registry, incidentId: Text)
    ensures Oldest(reg, incidentId, FirstCommitted(OfIncident(reg, incidentId)))
  {
    if reg != [] {
      var n := |reg| - 1;
      FirstIsOldest(reg[..n], incidentId);
      FirstCommittedMore(OfIncident(reg[..n], incidentId), reg[n]);
      assert OfIncident(reg[..n], incidentId) + [] == OfIncident(reg[..n], incidentId);
      OldestAmongMore(reg, incidentId, FirstCommitted(OfIncident(reg[..n], incidentId)));
    }
  }

  lemma OldestAmongMore(reg: Registry, incidentId: Text, found: Option<Entry>)
    requires reg != [] && Oldest(reg[..|reg| - 1], incidentId, found)
    ensures var e := reg[|reg| - 1];
            Oldest(reg, incidentId, if found.Some? then found else if OpenEntry(e, incidentId) then Some(e) else None)
  {
    var n: nat := |reg| - 1;
    if found.Some? {
      var i: nat :| OldestOpen(reg[..n], incidentId, i) && reg[..n][i] == found.value;
      assert OldestOpen(reg, incidentId, i);
    } else {
      assert forall j :: 0 <= j < n ==> reg[j] == reg[..n][j];
      assert OpenEntry(reg[n], incidentId) ==> OldestOpen(reg, incidentId, n);
    }
  }

  /** The call has started one method more, and this is the transaction it sends; nothing has reached the chain. */
  predicate Sent(s: State, t: State, tx: Escrow.Tx) {
    && t.chain == s.chain && |t.tasks| == |s.tasks| + 1 && t.tasks[..|s.tasks|] == s.tasks
    && t.tasks[|s.tasks|].Waiting? && TxOf(t.tasks[|s.tasks|].work) == Some(tx)
  }

  /** The call has started nothing. */
  predicate NothingSent(s: State, t: State) {
    t.chain == s.chain && t.tasks == s.tasks
  }

  /** The call has appended one row of this type, for this incident and nonce. */
  predicate Noted(s: State, t: State, kind: Kind, incidentId: Option<Text>, nonce: Option<Text>) {
    s.tail == Complete ==>
      && |t.rows| == |s.rows| + 1 && t.rows[..|s.rows|] == s.rows
      && var row := t.rows[|s.rows|];
         row.kind == kind && row.incidentId == incidentId && row.nonce == nonce && row.data == NO_DATA
  }

  /** A commit is sent exactly for a voucher that builds under a nonce the registry does not know, and for the very
      voucher, authority and buyer given; a known nonce is a duplicate, one that does not build has failed verification. */
  lemma CommitStarts(s: State, offer: Offer, authority: Escrow.Authority, buyer: Text, now: nat)
    ensures var t := Next(s, StartCommit(offer, authority, buyer, now));
            var known := offer.nonce.Some? && Registers(s.registry, offer.nonce.value);
            && (!known && offer.built.Some? ==>
                  && Sent(s, t, Escrow.CommitTx(offer.built.value, authority, buyer))
                  && Noted(s, t, VERIFIED, Some(offer.built.value.deal.incidentId), Some(offer.built.value.deal.nonce)))
            && (known ==> NothingSent(s, t) && Noted(s, t, DUPLICATE_BLOCKED, Find(s.registry, offer.nonce.value).value.incidentId, offer.nonce))
            && (!known && offer.built.None? ==> NothingSent(s, t) && Noted(s, t, VERIFICATION_FAILED, Some(offer.incidentId), offer.nonce))
  {
    if offer.nonce.Some? {
      KnownIff(s.registry, offer.nonce.value);
    }
    assert Next(s, StartCommit(offer, authority, buyer, now)) == StartedCommit(s, offer, authority, buyer, now);
  }

  lemma KnownIff(reg: Registry, nonce: Text)
    ensures Find(reg, nonce).Some? <==> Registers(reg, nonce)
  {}

  /** A confirmation sends no transaction; it waits exactly when the registry does not know the nonce. */
  lemma ConfirmStarts(s: State, incidentId: Text, nonce: Text, digest: nat, data: Data, now: nat)
    ensures var t := Next(s, StartConfirm(incidentId, nonce, digest, data, now));
            && (Registers(s.registry, nonce) ==>
                  NothingSent(s, t) && Noted(s, t, DUPLICATE_BLOCKED, Find(s.registry, nonce).value.incidentId, Some(nonce)))
            && (!Registers(s.registry, nonce) ==>
                  t == s.(tasks := s.tasks + [Waiting(Confirming(incidentId, nonce, digest, data, |s.rows|))]))
  {
    KnownIff(s.registry, nonce);
  }

  /** What the report costs a provider share. */
  predicate Due(share: nat, report: Report, penalty: nat)
    requires report.samples != []
  {
    Delivery.Due(report.promised, report.samples, report.tolerance, share, penalty)
  }

  /** A verdict is sent exactly when an entry of the incident is open and the report promises and samples something: for the
      oldest such entry, with the report's hash and what the report costs the share on record. */
  lemma VerifyStarts(s: State, incidentId: Text, report: Report)
    ensures var t := Next(s, StartVerify(incidentId, report));
            if NoneOpen(s.registry, incidentId) || report.promised <= 0.0 || report.samples == [] then t == s
            else exists i: nat, penalty: nat ::
              && OldestOpen(s.registry, incidentId, i)
              && Due(s.registry[i].providerAmount.GetOr(0), report, penalty)
              && t == s.(tasks := t.tasks) && Sent(s, t, Escrow.VerifyTx(s.registry[i].nonce, report.logDigest, penalty))
  {
    FirstIsOldest(s.registry, incidentId);
    var t, open := Next(s, StartVerify(incidentId, report)), OpenCommitment(s, incidentId);
    if open.Some? && report.promised > 0.0 && report.samples != [] {
      var penalty := t.tasks[|s.tasks|].work.penalty;
      Delivery.PenaltyOfTheShortfall(report.promised, report.samples, report.tolerance, open.value.providerAmount.GetOr(0), penalty);
      var i: nat :| OldestOpen(s.registry, incidentId, i) && s.registry[i] == open.value;
      assert Sent(s, t, Escrow.VerifyTx(s.registry[i].nonce, report.logDigest, penalty));
    }
  }

  /** An activation that is AVAILABLE sends the settlement of the incident's oldest open entry, one that FAILED its refund,
      and any other leaves a note; without an open entry nothing is done. */
  lemma ActivationStarts(s: State, incidentId: Text, status: Activation, now: nat)
    ensures var t := Next(s, StartActivation(incidentId, status, now));
            if NoneOpen(s.registry, incidentId) then t == s
            else exists i: nat :: OldestOpen(s.registry, incidentId, i) && Acted(s, t, incidentId, s.registry[i].nonce, status)
  {
    FirstIsOldest(s.registry, incidentId);
    var open := OpenCommitment(s, incidentId);
    if open.Some? {
      var i: nat :| OldestOpen(s.registry, incidentId, i) && s.registry[i] == open.value;
      OpenIsActedOn(s, incidentId, status, now);
    }
  }

  /** What a status does for an open nonce. */
  predicate Acted(s: State, t: State, incidentId: Text, nonce: Text, status: Activation) {
    match status
    case Available => t == s.(tasks := t.tasks) && Sent(s, t, Escrow.SettleTx(nonce))
    case Failed => t == s.(tasks := t.tasks) && Sent(s, t, Escrow.RefundTx(nonce))
    case Observed(_) => NothingSent(s, t) && Noted(s, t, ACTIVATION_OBSERVED, Some(incidentId), Some(nonce))
  }

  lemma OpenIsActedOn(s: State, incidentId: Text, status: Activation, now: nat)
    requires OpenCommitment(s, incidentId).Some?
    ensures Acted(s, StartedActivation(s, incidentId, status, now), incidentId, OpenCommitment(s, incidentId).value.nonce, status)
  {}

  /** A reclaim is sent for whatever nonce it is given. */
  lemma ReclaimStarts(s: State, nonce: Text)
    ensures var t := Next(s, StartReclaim(nonce)); t == s.(tasks := t.tasks) && Sent(s, t, Escrow.ReclaimTx(nonce))
  {}

  lemma {:induction false} PendingHoldsAll(tasks: seq<Task>, i: nat)
    requires i < |tasks| && tasks[i].Waiting? && TxOf(tasks[i].work).Some?
    ensures TxOf(tasks[i].work).value in Pending(tasks)
  {
    if i < |tasks| - 1 {
      PendingHoldsAll(tasks[..|tasks| - 1], i);
    }
  }

  lemma {:induction false} PendingHoldsNoOther(tasks: seq<Task>, tx: Escrow.Tx)
    requires tx in Pending(tasks)
    ensures exists i :: 0 <= i < |tasks| && tasks[i].Waiting? && TxOf(tasks[i].work) == Some(tx)
  {
    var n := |tasks| - 1;
    if tx in Pending(tasks[..n]) {
      PendingHoldsNoOther(tasks[..n], tx);
      var i :| 0 <= i < n && tasks[..n][i].Waiting? && TxOf(tasks[..n][i].work) == Some(tx);
      assert tasks[i].Waiting?;
    } else {
      assert tasks[n].Waiting?;
    }
  }

  /** A crash forgets every method and recalls no transaction: under way are afterwards those that were and those that
      methods waited for. */
  lemma CrashRecallsNothing(s: State, tx: Escrow.Tx)
    ensures var t := Next(s, Step.Crash);
            && t.tasks == [] && t.chain == s.chain && t.rows == s.rows
            && (tx in t.orphans <==>
                  tx in s.orphans || exists i :: 0 <= i < |s.tasks| && s.tasks[i].Waiting? && TxOf(s.tasks[i].work) == Some(tx))
  {
    if tx in Pending(s.tasks) {
      PendingHoldsNoOther(s.tasks, tx);
    }
    forall i | 0 <= i < |s.tasks| && s.tasks[i].Waiting? && TxOf(s.tasks[i].work) == Some(tx) ensures tx in Pending(s.tasks) {
      PendingHoldsAll(s.tasks, i);
    }
  }

  // ---- What the row of a finished method says ---------------------------------------------------

  /** The type of row that reports an event. */
  function KindOf(event: Escrow.Event): Option<Kind> {
    match event
    case Funded(_) => None
    case CommittedEvent(_, _) => Some(Committed)
    case VerifiedEvent(_, _, _) => Some(DeliveryVerified)
    case SettledEvent(_, _) => Some(Settled)
    case RefundedEvent(_) => Some(Refunded)
    case ReclaimedEvent(_) => Some(Reclaimed)
  }

  /** Everything that a COMMITTED or a DELIVERY_VERIFIED row can tell of a commitment. */
  predicate TellsAll(row: Row, k: Escrow.Commitment) {
    match row.kind
    case Committed =>
      && row.incidentId == Some(k.deal.incidentId) && row.data.voucherDigest == Some(k.deal.digest)
      && row.data.amount == Some(k.deal.amount) && row.data.platformFee == Some(k.deal.fee)
      && row.data.providerAmount.Some? && row.data.providerAmount.value + k.deal.fee == k.deal.amount
    case DeliveryVerified =>
      row.data.penaltyAmount == Some(k.penalty) && row.data.connectionLogHash == Some(k.logDigest)
    case _ => true
  }

  /** A method whose transaction has landed appends the row of that transaction's event: of its type, under its nonce and
      position, with everything there is to tell. */
  lemma LandedRowTellsAll(s: State, i: nat, now: nat)
    requires Inv(s) && i < |s.tasks| && s.tasks[i].Landed? && HonestFinish(s, i)
    ensures var w, digest := s.tasks[i].work, s.tasks[i].digest;
            var row := FinalRow(s, s.tasks[i], now).value;
            && digest < |s.chain.log| && KindOf(s.chain.log[digest]) == Some(row.kind) && row.ts == now
            && row.nonce == Some(NonceOf(w)) && row.txDigest.Some? && ReadNat(row.txDigest.value) == Some(digest)
            && NonceOf(w) in s.chain.commitments && TellsAll(row, s.chain.commitments[NonceOf(w)])
  {
    assert TaskTrue(s.chain, s.tasks[i]);
    NatRoundTrip(s.tasks[i].digest);
  }

  // ---- Every row in full -------------------------------------------------------------------------

  predicate AllAmounts(d: Data) {
    d.amount.Some? && d.providerAmount.Some? && d.platformFee.Some?
  }

  /** A settlement's row tells the whole deal: what was locked, the fee, the share, and what is left of it after the
      penalty, which is something. */
  predicate SettledInFull(deal: Escrow.Deal, d: Data) {
    && AllAmounts(d) && d.penaltyAmount.Some? && d.providerNetAmount.Some?
    && d.amount.value == deal.amount && d.platformFee.value == deal.fee && d.providerAmount.value + deal.fee == deal.amount
    && d.providerNetAmount.value == d.providerAmount.value - d.penaltyAmount.value && d.providerNetAmount.value > 0
  }

  predicate RowInFull(c: Escrow.Chain, row: Row) {
    match row.kind
    case Committed => AllAmounts(row.data)
    case Settled =>
      row.nonce.Some? && row.nonce.value in c.commitments && SettledInFull(c.commitments[row.nonce.value].deal, row.data)
    case _ => true
  }

  predicate EntryInFull(e: Entry) {
    e.status == Committed ==> AllAmounts(EntryData(e))
  }

  predicate TaskInFull(t: Task) {
    match t
    case Waiting(Confirming(_, _, _, data, _)) => AllAmounts(data)
    case Waiting(Settling(_, entry)) => AllAmounts(EntryData(entry))
    case Landed(Settling(_, entry), _) => AllAmounts(EntryData(entry))
    case _ => true
  }

  ghost predicate RowsInFull(c: Escrow.Chain, rows: seq<Row>) {
    forall i :: 0 <= i < |rows| ==> RowInFull(c, rows[i])
  }

  ghost predicate EntriesInFull(reg: Registry) {
    forall i :: 0 <= i < |reg| ==> EntryInFull(reg[i])
  }

  ghost predicate TasksInFull(tasks: seq<Task>) {
    forall i :: 0 <= i < |tasks| ==> TaskInFull(tasks[i])
  }

  ghost predicate InFull(s: State) {
    RowsInFull(s.chain, s.rows) && EntriesInFull(s.registry) && TasksInFull(s.tasks)
  }

  lemma EffectInFull(c: Escrow.Chain, before: Option<Entry>, row: Row)
    requires Truthy(row.nonce) && RowInFull(c, row) && (before.Some? ==> EntryInFull(before.value))
    ensures Effect(before, row).Some? ==> EntryInFull(Effect(before, row).value)
  {}

  lemma IndexInFull(c: Escrow.Chain, reg: Registry, row: Row)
    requires EntriesInFull(reg) && RowInFull(c, row)
    ensures EntriesInFull(Index(reg, row))
  {
    if Truthy(row.nonce) {
      EffectInFull(c, Find(reg, row.nonce.value), row);
    }
  }

  lemma {:induction false} ReplayInFull(c: Escrow.Chain, rows: seq<Row>)
    requires RowsInFull(c, rows)
    ensures EntriesInFull(Replay(rows))
  {
    if rows != [] {
      ReplayInFull(c, rows[..|rows| - 1]);
      IndexInFull(c, Replay(rows[..|rows| - 1]), rows[|rows| - 1]);
    }
  }

  lemma EmitInFull(s: State, row: Row)
    requires InFull(s) && RowInFull(s.chain, row)
    ensures InFull(Emitted(s, row))
  {
    assert RowInFull(s.chain, Stamped(s, row));
    ReplayInFull(s.chain, s.rows);
    IndexInFull(s.chain, Replay(s.rows), Stamped(s, row));
  }

  lemma RestartInFull(s: State)
    requires RowsInFull(s.chain, s.rows)
    ensures InFull(Restarted(s))
  {
    ReplayInFull(s.chain, s.rows);
  }

  lemma CutInFull(s: State, row: Row, kept: Kept)
    requires RowsInFull(s.chain, s.rows) && RowInFull(s.chain, row)
    ensures RowsInFull(s.chain, Cut(s, row, kept).rows) && Cut(s, row, kept).chain == s.chain
  {
    assert RowInFull(s.chain, Stamped(s, row));
  }

  lemma RowsStayFull(c: Escrow.Chain, d: Escrow.Chain, rows: seq<Row>)
    requires RowsInFull(c, rows) && Escrow.Extends(c, d)
    ensures RowsInFull(d, rows)
  {
    forall i | 0 <= i < |rows| ensures RowInFull(d, rows[i]) {
      assert RowInFull(c, rows[i]);
      if rows[i].kind.Settled? {
        assert Escrow.Later(c.commitments[rows[i].nonce.value], d.commitments[rows[i].nonce.value]);
      }
    }
  }

  lemma SettlementInFull(c: Escrow.Chain, e: Entry)
    requires Escrow.ChainOk(c) && EntryTrue(c, e) && AllAmounts(EntryData(e))
    ensures SettledInFull(c.commitments[e.nonce].deal, SettleData(e))
  {
    assert Escrow.NonceOk(c, e.nonce);
    EntryMoney(c, e);
    assert DataTrue(c.commitments[e.nonce], EntryData(e));
  }

  lemma FinalRowInFull(s: State, i: nat, now: nat)
    requires Inv(s) && InFull(s) && i < |s.tasks| && FinalRow(s, s.tasks[i], now).Some?
    ensures RowInFull(s.chain, FinalRow(s, s.tasks[i], now).value)
  {
    var t := s.tasks[i];
    assert TaskTrue(s.chain, t) && TaskInFull(t);
    if t.Landed? && t.work.Settling? {
      SettlementInFull(s.chain, t.work.entry);
    }
  }

  lemma WritesInFull(s: State, step: Step)
    requires Inv(s) && InFull(s) && Proper(s, step) && Writes(s, step).Some?
    ensures RowInFull(s.chain, Writes(s, step).value)
  {
    if step.Finish? {
      FinalRowInFull(s, step.task, step.now);
    }
  }

  /** A confirmation is told all the amounts. */
  predicate ConfirmsInFull(step: Step) {
    step.StartConfirm? ==> AllAmounts(step.data)
  }

  lemma OpenIsInFull(s: State, incidentId: Text)
    requires EntriesInFull(s.registry) && OpenCommitment(s, incidentId).Some?
    ensures AllAmounts(EntryData(OpenCommitment(s, incidentId).value))
  {
    var e := OpenCommitment(s, incidentId).value;
    var i :| 0 <= i < |s.registry| && s.registry[i] == e;
    assert EntryInFull(s.registry[i]);
  }

  ghost predicate AddsInFull(tasks: seq<Task>, after: seq<Task>) {
    after == tasks || exists t :: after == tasks + [t] && TaskInFull(t)
  }

  lemma ActivationInFull(s: State, incidentId: Text, status: Activation, now: nat)
    requires InFull(s)
    ensures var t := StartedActivation(s, incidentId, status, now); AddsInFull(s.tasks, t.tasks) && t.chain == s.chain
  {
    var open := OpenCommitment(s, incidentId);
    if open.Some? {
      OpenIsInFull(s, incidentId);
      if status.Available? {
        assert TaskInFull(Waiting(Settling(incidentId, open.value)));
      } else if status.Failed? {
        assert TaskInFull(Waiting(Refunding(incidentId, open.value)));
      }
    }
  }

  lemma StartsInFull(s: State, step: Step)
    requires Starts(step) && InFull(s) && ConfirmsInFull(step)
    ensures AddsInFull(s.tasks, Next(s, step).tasks) && Next(s, step).chain == s.chain
  {
    if step.StartActivation? {
      ActivationInFull(s, step.incidentId, step.status, step.now);
    } else if Next(s, step).tasks != s.tasks {
      assert Next(s, step).tasks == s.tasks + [Next(s, step).tasks[|s.tasks|]];
    }
  }

  lemma OldTasksInFull(s: State, step: Step)
    requires !Starts(step) && TasksInFull(s.tasks)
    ensures TasksInFull(Next(s, step).tasks)
  {}

  lemma FileInFull(s: State, step: Step)
    requires Inv(s) && InFull(s) && Proper(s, step) && !step.Crash? && !step.CrashInAppend?
    ensures RowsInFull(s.chain, Next(s, step).rows) && EntriesInFull(Next(s, step).registry)
  {
    if Starts(step) {
      StartsMoveFile(s, step);
    } else {
      OthersMoveFile(s, step);
    }
    if Writes(s, step).Some? {
      WritesInFull(s, step);
      EmitInFull(s, Writes(s, step).value);
    }
  }

  lemma CrashesInFull(s: State, step: Step)
    requires Inv(s) && InFull(s) && Proper(s, step) && (step.Crash? || step.CrashInAppend?)
    ensures InFull(Next(s, step))
  {
    if step.Crash? {
      RestartInFull(s);
    } else if Writes(s, step.during).Some? {
      WritesInFull(s, step.during);
      CutInFull(s, Writes(s, step.during).value, step.kept);
      RestartInFull(Cut(s, Writes(s, step.during).value, step.kept));
    }
  }

  lemma StepInFull(s: State, step: Step)
    requires Inv(s) && InFull(s) && Proper(s, step) && ConfirmsInFull(step)
    ensures InFull(Next(s, step))
  {
    if step.Crash? || step.CrashInAppend? {
      CrashesInFull(s, step);
    } else {
      FileInFull(s, step);
      StepExtends(s, step);
      RowsStayFull(s.chain, Next(s, step).chain, Next(s, step).rows);
      if Starts(step) {
        StartsInFull(s, step);
      } else {
        OldTasksInFull(s, step);
      }
    }
  }

  lemma {:induction false} RunInFull(s: State, steps: seq<Step>)
    requires Pristine(s) && ProperRun(s, steps) && forall i :: 0 <= i < |steps| ==> ConfirmsInFull(steps[i])
    ensures InFull(Run(s, steps))
  {
    if steps != [] {
      var init := steps[..|steps| - 1];
      RunInFull(s, init);
      EveryRunIsSafe(s, init);
      StepInFull(Run(s, init), steps[|steps| - 1]);
    }
  }

  /** In every run whose confirmations are told all the amounts, crashes at any await and in any append included: every
      COMMITTED row tells the amount, the share and the fee of its commitment, and every SETTLED row tells besides what the
      provider is left with, the amounts adding up to what was locked. */
  lemma EveryRowTellsTheDeal(s: State, steps: seq<Step>, j: nat)
    requires Pristine(s) && ProperRun(s, steps) && (forall i :: 0 <= i < |steps| ==> ConfirmsInFull(steps[i]))
    requires j < |Run(s, steps).rows| && Run(s, steps).rows[j].kind in {Committed, Settled}
    ensures var c, row := Run(s, steps).chain, Run(s, steps).rows[j];
            && row.nonce.Some? && row.nonce.value in c.commitments
            && var deal, d := c.commitments[row.nonce.value].deal, row.data;
               && d.amount == Some(deal.amount) && d.platformFee == Some(deal.fee)
               && d.providerAmount.Some? && d.providerAmount.value + deal.fee == deal.amount
               && (row.kind == Settled ==> SettledInFull(deal, d))
  {
    RunInFull(s, steps);
    EveryRunIsSafe(s, steps);
    var t := Run(s, steps);
    assert RowTrue(t.chain, t.rows[j]) && RowInFull(t.chain, t.rows[j]);
  }
}
