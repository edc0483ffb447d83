/** What the safety invariant means for one nonce: it is paid once, its terminal row is unique, and only a
    commit that was already under way can disturb its terminal status; and which confirmations lie. */
module TrustFinality {
  import opened Units
  import opened Digits
  import opened LedgerText
  import opened Events
  import opened TrustSteps
  import opened TrustSafety
  import Escrow

  /** In every run: coins are conserved; each nonce is locked at most once, closed at most once and pays
      out at most its amount; at most one of SETTLED, REFUNDED and RECLAIMED is ever written for it. */
  lemma EachNonceOnce(s: State, steps: seq<Step>, nonce: Text)
    requires Pristine(s) && ProperRun(s, steps)
    ensures var t := Run(s, steps);
            && t.chain.received == t.chain.available + Escrow.TotalLocked(t.chain.locked) + Escrow.TotalPaid(t.chain.transfers)
            && Escrow.LockCount(t.chain.log, nonce) <= 1
            && Escrow.CloseCount(t.chain.log, nonce) <= 1
            && Escrow.PaidFor(t.chain.transfers, nonce) <= (if nonce in t.chain.commitments then t.chain.commitments[nonce].deal.amount else 0)
            && TerminalRows(t.rows, nonce) <= 1
  {
    EveryRunIsSafe(s, steps);
    var t := Run(s, steps);
    assert Escrow.NonceOk(t.chain, nonce);
    assert TerminalRows(t.rows, nonce) + ClosingTasks(t.tasks, nonce) <= Escrow.CloseCount(t.chain.log, nonce);
  }

  // ---- Ledgers that no crash has torn -----------------------------------------------------

  /** The file ends in a newline, and memory is what a restart would rebuild. */
  ghost predicate Intact(s: State) {
    s.tail == Complete && s.registry == Replay(s.rows)
  }

  predicate Untorn(steps: seq<Step>) {
    forall i :: 0 <= i < |steps| ==> !steps[i].CrashInAppend?
  }

  lemma EmitStaysIntact(s: State, row: Row)
    requires s.tail == Complete
    ensures Intact(Emitted(s, row)) && Emitted(s, row).rows == s.rows + [Stamped(s, row)]
  {
    ReplayAppend(s.rows, Stamped(s, row));
  }

  predicate SameFile(s: State, t: State) {
    s.rows == t.rows && s.lines == t.lines && s.tail == t.tail && s.registry == t.registry
  }

  /** Ledger and registry change by the one row that a step appends. */
  predicate FileMoves(s: State, step: Step) {
    SameFile(Next(s, step), if Writes(s, step).Some? then Emitted(s, Writes(s, step).value) else s)
  }

  lemma StartsMoveFile(s: State, step: Step)
    requires Starts(step)
    ensures FileMoves(s, step)
  {
    match step
    case StartCommit(offer, authority, buyer, now) =>
      assert Next(s, step) == StartedCommit(s, offer, authority, buyer, now);
    case StartConfirm(incidentId, nonce, digest, data, now) =>
      assert Next(s, step) == StartedConfirm(s, incidentId, nonce, digest, data, now);
    case _ =>
  }

  lemma EmittedSameFile(s: State, t: State, row: Row)
    requires SameFile(s, t)
    ensures SameFile(Emitted(s, row), Emitted(t, row))
  {
    assert Stamped(s, row) == Stamped(t, row) && WithoutBareRow(s) == WithoutBareRow(t);
    assert Emitted(s, row).rows == Emitted(t, row).rows;
  }

  lemma FinishMovesFile(s: State, i: nat, now: nat)
    requires i < |s.tasks|
    ensures SameFile(Finished(s, i, now), if FinalRow(s, s.tasks[i], now).Some? then Emitted(s, FinalRow(s, s.tasks[i], now).value) else s)
  {
    if FinalRow(s, s.tasks[i], now).Some? {
      EmittedSameFile(s.(tasks := s.tasks[i := Ended]), s, FinalRow(s, s.tasks[i], now).value);
    }
  }

  lemma OthersMoveFile(s: State, step: Step)
    requires !Starts(step) && !step.Crash? && !step.CrashInAppend?
    ensures FileMoves(s, step)
  {
    match step
    case Finish(i, now) => if i < |s.tasks| { FinishMovesFile(s, i, now); }
    case Land(i, now) => assert SameFile(Next(s, step), s);
    case LandOrphan(j, now) => assert SameFile(Next(s, step), s);
    case _ =>
  }

  lemma StepStaysIntact(s: State, step: Step)
    requires Intact(s) && !step.CrashInAppend?
    ensures Intact(Next(s, step))
  {
    if Starts(step) {
      StartsMoveFile(s, step);
    } else if !step.Crash? {
      OthersMoveFile(s, step);
    }
    if Writes(s, step).Some? {
      EmitStaysIntact(s, Writes(s, step).value);
    }
  }

  lemma {:induction false} RunStaysIntact(s: State, steps: seq<Step>)
    requires Intact(s) && Untorn(steps)
    ensures Intact(Run(s, steps))
  {
    if steps != [] {
      RunStaysIntact(s, steps[..|steps| - 1]);
      StepStaysIntact(Run(s, steps[..|steps| - 1]), steps[|steps| - 1]);
    }
  }

  // ---- The money on a SETTLED row --------------------------------------------------------

  /** The row of a settlement whose commitment carries its amounts: the parts add up to what was locked
      and the provider keeps a positive rest. The row's penalty is the one the chain paid out exactly when
      the verdict had reached the registry before the settlement began, or was zero; otherwise it is 0. */
  lemma SettledRowMoney(s: State, i: nat, now: nat)
    requires Inv(s) && i < |s.tasks| && s.tasks[i].Landed? && s.tasks[i].work.Settling?
    ensures var t, e := s.tasks[i], s.tasks[i].work.entry;
            var row := ResultRow(s, t.work, t.digest, now);
            var k := s.chain.commitments[e.nonce];
            && FinalRow(s, t, now) == Some(row)
            && (s.tail == Complete ==> Finished(s, i, now).rows == s.rows + [Stamped(s, row)])
            && row.data.penaltyAmount.Some?
            && (row.data.penaltyAmount.value == k.penalty <==> e.connectionLogHash.Some? || k.penalty == 0)
            && (e.connectionLogHash.None? ==> row.data.penaltyAmount.value == 0)
            && (e.amount.Some? && e.providerAmount.Some? && e.platformFee.Some? ==>
                  && row.data.providerNetAmount.Some? && row.data.providerNetAmount.value > 0
                  && row.data.providerNetAmount.value + row.data.penaltyAmount.value + row.data.platformFee.value == k.deal.amount)
  {
    var t, e := s.tasks[i], s.tasks[i].work.entry;
    assert TaskTrue(s.chain, t);
    assert Escrow.NonceOk(s.chain, e.nonce);
    LandedRow(s, i, now);
    SettlementRow(s, t.work, t.digest, now);
    SettledMoney(s.chain, t.work, t.digest);
  }

  lemma LandedRow(s: State, i: nat, now: nat)
    requires i < |s.tasks| && s.tasks[i].Landed?
    ensures var row := ResultRow(s, s.tasks[i].work, s.tasks[i].digest, now);
            && FinalRow(s, s.tasks[i], now) == Some(row)
            && (s.tail == Complete ==> Finished(s, i, now).rows == s.rows + [Stamped(s, row)])
  {}

  lemma SettlementRow(s: State, w: Work, digest: nat, now: nat)
    requires w.Settling?
    ensures ResultRow(s, w, digest, now).data == SettleData(w.entry)
  {}

  lemma SettledMoney(c: Escrow.Chain, w: Work, digest: nat)
    requires w.Settling? && WorkTrue(c, w) && LandedTrue(c, w, digest)
    requires Escrow.CommitmentOk(c.commitments[w.entry.nonce], w.entry.nonce)
    ensures var e, d := w.entry, SettleData(w.entry);
            var k := c.commitments[e.nonce];
            && (d.penaltyAmount.value == k.penalty <==> e.connectionLogHash.Some? || k.penalty == 0)
            && (e.connectionLogHash.None? ==> d.penaltyAmount.value == 0)
            && (e.amount.Some? && e.providerAmount.Some? && e.platformFee.Some? ==>
                  && d.providerNetAmount.value > 0
                  && d.providerNetAmount.value + d.penaltyAmount.value + d.platformFee.value == k.deal.amount)
  {
    EntryMoney(c, w.entry);
    assert DataTrue(c.commitments[w.entry.nonce], EntryData(w.entry));
  }

  lemma EntryMoney(c: Escrow.Chain, e: Entry)
    requires EntryTrue(c, e) && Escrow.CommitmentOk(c.commitments[e.nonce], e.nonce)
    ensures e.providerAmount.Some? ==>
              var k := c.commitments[e.nonce];
              e.penaltyAmount.GetOr(0) <= k.penalty && e.providerAmount.value - e.penaltyAmount.GetOr(0) > 0
              && e.providerAmount.value + k.deal.fee == k.deal.amount
  {
    assert DataTrue(c.commitments[e.nonce], EntryData(e));
  }

  // ---- Terminal statuses ------------------------------------------------------------------

  function StatusOf(rows: seq<Row>, nonce: Text): Option<Kind> {
    var e := Find(Replay(rows), nonce);
    if e.Some? then Some(e.value.status) else None
  }

  predicate Closed(rows: seq<Row>, nonce: Text) {
    StatusOf(rows, nonce).Some? && Terminal(StatusOf(rows, nonce).value)
  }

  predicate IsCommit(w: Work) {
    w.Committing? || w.Confirming?
  }

  /** The chain has answered this method with what it needs for its row. */
  predicate Answered(c: Escrow.Chain, t: Task) {
    t.Landed? || (t.Waiting? && t.work.Confirming? && Confirmable(c, t.work.digest))
  }

  /** Finishing this method will append a COMMITTED row for the nonce. */
  predicate AboutToCommit(s: State, i: nat, nonce: Text) {
    i < |s.tasks| && Answered(s.chain, s.tasks[i]) && IsCommit(s.tasks[i].work) && NonceOf(s.tasks[i].work) == nonce
  }

  lemma RowOnStatus(rows: seq<Row>, row: Row, nonce: Text)
    ensures StatusOf(rows + [row], nonce) ==
            if row.nonce == Some(nonce) && nonce != [] && Lifecycle(row.kind) then Some(row.kind) else StatusOf(rows, nonce)
  {
    ReplayAppend(rows, row);
    FindIndex(Replay(rows), row, nonce);
  }

  /** The chain remembers how a nonce was closed, so two terminal statuses never meet. */
  lemma ClosedOneWay(c: Escrow.Chain, rows: seq<Row>, row: Row, nonce: Text)
    requires RegistryTrue(c, Replay(rows)) && Closed(rows, nonce) && RowTrue(c, row) && row.nonce == Some(nonce) && Terminal(row.kind)
    ensures Some(row.kind) == StatusOf(rows, nonce)
  {
    assert EntryOk(c, nonce, Find(Replay(rows), nonce));
  }

  /** The whole of what a step leaves in a file that ended in a newline. */
  function Stored(s: State, step: Step): Option<Row> {
    match step
    case CrashInAppend(during, kept) => if kept == All then Writes(s, during) else None
    case _ => Writes(s, step)
  }

  lemma FileGrows(s: State, step: Step)
    requires s.tail == Complete
    ensures Next(s, step).rows == s.rows + if Stored(s, step).Some? then [Stamped(s, Stored(s, step).value)] else []
  {
    if step.CrashInAppend? && Writes(s, step.during).Some? {
      assert Next(s, step).rows == Cut(s, Writes(s, step.during).value, step.kept).rows;
    }
  }

  /** This step stores a COMMITTED row for the nonce: a commit reports in. */
  predicate CommitReports(s: State, step: Step, nonce: Text) {
    match step
    case Finish(i, _) => AboutToCommit(s, i, nonce)
    case CrashInAppend(Finish(i, _), All) => AboutToCommit(s, i, nonce)
    case _ => false
  }

  lemma WhatIsStored(s: State, step: Step, nonce: Text)
    requires Inv(s) && Proper(s, step) && Stored(s, step).Some?
    ensures var row := Stored(s, step).value;
            && RowTrue(s.chain, row)
            && (row.nonce == Some(nonce) && row.kind == Committed <==> CommitReports(s, step, nonce))
  {
    var inner := if step.CrashInAppend? then step.during else step;
    WritesTrue(s, inner);
    if inner.Finish? {
      assert TaskTrue(s.chain, s.tasks[inner.task]);
    }
  }

  /** On a file that ends in a newline, a terminal status changes if and only if a commit of the same nonce
      reports in; it then reads COMMITTED. */
  lemma TerminalStatusChanges(s: State, step: Step, nonce: Text)
    requires Inv(s) && s.tail == Complete && Proper(s, step) && Closed(s.rows, nonce)
    ensures StatusOf(Next(s, step).rows, nonce) != StatusOf(s.rows, nonce) <==> CommitReports(s, step, nonce)
    ensures CommitReports(s, step, nonce) ==> StatusOf(Next(s, step).rows, nonce) == Some(Committed)
  {
    FileGrows(s, step);
    ReplayTrue(s.chain, s.rows);
    assert EntryOk(s.chain, nonce, Find(Replay(s.rows), nonce));
    if Stored(s, step).Some? {
      var row := Stored(s, step).value;
      WhatIsStored(s, step, nonce);
      RowOnStatus(s.rows, Stamped(s, row), nonce);
      if row.nonce == Some(nonce) && Terminal(row.kind) {
        ClosedOneWay(s.chain, s.rows, row, nonce);
      }
    } else {
      assert s.rows + [] == s.rows;
      NothingStored(s, step, nonce);
    }
  }

  lemma NothingStored(s: State, step: Step, nonce: Text)
    requires Stored(s, step).None?
    ensures !CommitReports(s, step, nonce)
  {}

  /** On a file whose last row lost its newline, whatever is appended next takes that row away. */
  lemma BareRowIsLost(s: State, step: Step)
    requires s.tail == Bare && s.rows != []
    ensures var appends := if step.CrashInAppend? then step.kept != Nothing && Writes(s, step.during).Some? else Writes(s, step).Some?;
            Next(s, step).rows == if appends then s.rows[..|s.rows| - 1] else s.rows
  {
    if step.CrashInAppend? && Writes(s, step.during).Some? {
      assert Next(s, step).rows == Cut(s, Writes(s, step.during).value, step.kept).rows;
    }
  }

  lemma TornRowIsLost(s: State, during: Step, note: Row)
    requires s.tail == Complete && Writes(s, during).Some?
    ensures var crashed := Next(s, CrashInAppend(during, All));
            && crashed.rows == s.rows + [Stamped(s, Writes(s, during).value)]
            && Next(crashed, Remark(note)).rows == s.rows
  {
    var crashed := Next(s, CrashInAppend(during, All));
    CrashLeavesBareRow(s, during);
    BareRowIsLost(crashed, Remark(note));
    assert crashed.rows[..|s.rows|] == s.rows;
  }

  lemma CrashLeavesBareRow(s: State, during: Step)
    requires s.tail == Complete && Writes(s, during).Some?
    ensures var crashed := Next(s, CrashInAppend(during, All));
            crashed.tail == Bare && crashed.rows == s.rows + [Stamped(s, Writes(s, during).value)]
  {
    assert Next(s, CrashInAppend(during, All)) == Restarted(Cut(s, Writes(s, during).value, All));
  }

  lemma SettlementWrites(s: State, i: nat, now: nat)
    requires i < |s.tasks| && s.tasks[i].Landed? && s.tasks[i].work.Settling?
    ensures var row := Writes(s, Finish(i, now));
            row.Some? && row.value.kind == Settled && row.value.nonce == Some(s.tasks[i].work.entry.nonce)
  {}

  /** So a terminal status can be lost that way: a settlement reports, its row loses its newline in a crash,
      and the next note puts the nonce back to what it was before. */
  lemma BareSettlementIsLost(s: State, i: nat, now: nat, note: Row)
    requires Inv(s) && s.tail == Complete && i < |s.tasks| && s.tasks[i].Landed? && s.tasks[i].work.Settling?
    ensures var crashed := Next(s, CrashInAppend(Finish(i, now), All));
            && StatusOf(crashed.rows, s.tasks[i].work.entry.nonce) == Some(Settled)
            && Next(crashed, Remark(note)).rows == s.rows
  {
    assert TaskTrue(s.chain, s.tasks[i]);
    SettlementWrites(s, i, now);
    TornRowIsLost(s, Finish(i, now), note);
    RowOnStatus(s.rows, Stamped(s, Writes(s, Finish(i, now)).value), s.tasks[i].work.entry.nonce);
  }

  // ---- A commit under way looked the nonce up before it was known ---------------------------

  ghost predicate Seen(s: State) {
    forall i :: 0 <= i < |s.tasks| && !s.tasks[i].Ended? && IsCommit(s.tasks[i].work) ==> SeenBefore(s.rows, s.tasks[i].work)
  }

  predicate SeenBefore(rows: seq<Row>, w: Work)
    requires IsCommit(w)
  {
    w.seen <= |rows| && Find(Replay(rows[..w.seen]), NonceOf(w)).None?
  }

  /** A method just started; a commit has looked its nonce up and not found it. */
  predicate JustStarted(s: State, w: Work) {
    IsCommit(w) ==> w.seen == |s.rows| && Find(Registered(s), NonceOf(w)).None?
  }

  predicate Starts(step: Step) {
    step.StartCommit? || step.StartConfirm? || step.StartVerify? || step.StartActivation? || step.StartReclaim?
  }

  /** A start adds at most one method. */
  ghost predicate AddsOne(s: State, after: seq<Task>) {
    after == s.tasks || exists w :: after == s.tasks + [Waiting(w)] && JustStarted(s, w)
  }

  lemma StartsAddOne(s: State, step: Step)
    requires Starts(step) && Plausible(s, step)
    ensures AddsOne(s, Next(s, step).tasks)
  {
    if Next(s, step).tasks != s.tasks {
      var t := Next(s, step).tasks[|s.tasks|];
      assert Next(s, step).tasks == s.tasks + [Waiting(t.work)];
    }
  }

  /** What a step leaves of the methods: the old ones, ended or moved on, or one new one. */
  lemma MethodsMoveOn(s: State, step: Step, i: nat)
    requires Plausible(s, step) && i < |Next(s, step).tasks| && !Next(s, step).tasks[i].Ended?
    ensures var w := Next(s, step).tasks[i].work;
            (i < |s.tasks| && !s.tasks[i].Ended? && s.tasks[i].work == w) || JustStarted(s, w)
  {
    if Starts(step) {
      StartsAddOne(s, step);
    }
  }

  lemma StepKeepsSeen(s: State, step: Step)
    requires Seen(s) && Intact(s) && Plausible(s, step) && !step.CrashInAppend?
    ensures Seen(Next(s, step))
  {
    var d := Next(s, step);
    FileGrows(s, step);
    forall i | 0 <= i < |d.tasks| && !d.tasks[i].Ended? && IsCommit(d.tasks[i].work) ensures SeenBefore(d.rows, d.tasks[i].work) {
      MethodsMoveOn(s, step, i);
      var w := d.tasks[i].work;
      if w.seen <= |s.rows| {
        assert d.rows[..w.seen] == s.rows[..w.seen];
      }
      assert s.rows[..|s.rows|] == s.rows;
    }
  }

  /** In every run that tears no append, the commit that disturbs a terminal status had looked the nonce up,
      and not found it, among the rows written before it began. */
  lemma {:induction false} EveryRunIsSeen(s: State, steps: seq<Step>)
    requires Pristine(s) && ProperRun(s, steps) && Untorn(steps)
    ensures Seen(Run(s, steps))
  {
    if steps != [] {
      var init := steps[..|steps| - 1];
      EveryRunIsSeen(s, init);
      PristineIsIntact(s);
      RunStaysIntact(s, init);
      StepKeepsSeen(Run(s, init), steps[|steps| - 1]);
    }
  }

  lemma PristineIsIntact(s: State)
    requires Pristine(s)
    ensures Intact(s)
  {
    var rows: seq<Row> := [];
    assert Replay(rows) == [];
  }

  // ---- Final statuses -------------------------------------------------------------------------

  ghost predicate NoCommitUnderWay(s: State, nonce: Text) {
    forall i :: 0 <= i < |s.tasks| && !s.tasks[i].Ended? ==> !(IsCommit(s.tasks[i].work) && NonceOf(s.tasks[i].work) == nonce)
  }

  lemma StepKeepsFinal(s: State, step: Step, nonce: Text)
    requires Inv(s) && Intact(s) && Proper(s, step) && !step.CrashInAppend?
    requires Closed(s.rows, nonce) && NoCommitUnderWay(s, nonce)
    ensures StatusOf(Next(s, step).rows, nonce) == StatusOf(s.rows, nonce)
    ensures NoCommitUnderWay(Next(s, step), nonce)
  {
    TerminalStatusChanges(s, step, nonce);
    forall i | 0 <= i < |Next(s, step).tasks| && !Next(s, step).tasks[i].Ended?
      ensures !(IsCommit(Next(s, step).tasks[i].work) && NonceOf(Next(s, step).tasks[i].work) == nonce)
    {
      MethodsMoveOn(s, step, i);
    }
  }

  /** Once a nonce is closed in the registry and no commit of it is under way, its status never changes again,
      whatever is started, lands, finishes or crashes afterwards, as long as no crash tears an append. */
  lemma {:induction false} ClosedIsFinal(s: State, steps: seq<Step>, nonce: Text)
    requires Inv(s) && Intact(s) && ProperRun(s, steps) && Untorn(steps) && Closed(s.rows, nonce) && NoCommitUnderWay(s, nonce)
    ensures Inv(Run(s, steps)) && NoCommitUnderWay(Run(s, steps), nonce)
    ensures StatusOf(Run(s, steps).rows, nonce) == StatusOf(s.rows, nonce)
  {
    if steps != [] {
      var init := steps[..|steps| - 1];
      ClosedIsFinal(s, init, nonce);
      RunStaysIntact(s, init);
      StepKeepsFinal(Run(s, init), steps[|steps| - 1], nonce);
      StepKeeps(Run(s, init), steps[|steps| - 1]);
    }
  }

  // ---- Confirming the wrong transaction ----------------------------------------------------------

  /** A confirmation trusts any commit event of the transaction it is given. The row it writes is true of the
      chain exactly when the two things it does not check are so: the event is for the nonce it was asked
      for, and the amounts it was told are those of that nonce's commitment. */
  lemma ConfirmedRowTrueIff(s: State, i: nat, now: nat)
    requires Inv(s) && s.tail == Complete && i < |s.tasks| && s.tasks[i].Waiting? && s.tasks[i].work.Confirming?
    requires Confirmable(s.chain, s.tasks[i].work.digest)
    ensures var w := s.tasks[i].work;
            var rows, event := Finished(s, i, now).rows, s.chain.log[w.digest];
            && |rows| == |s.rows| + 1
            && event.nonce in s.chain.commitments
            && (RowTrue(s.chain, rows[|s.rows|]) <==>
                  event.nonce == w.nonce && DataTrue(s.chain.commitments[event.nonce], w.data))
  {
    var w := s.tasks[i].work;
    ConfirmationIsTrue(s, w, now);
    NumberIsIrrelevant(s.chain, ResultRow(s, w, w.digest, now), s.lines + 1);
  }

  /** A COMMITTED row that names a commit event of another nonce, or other amounts than were committed. */
  predicate FalseRow(c: Escrow.Chain, row: Row) {
    && row.kind == Committed && row.nonce.Some? && row.txDigest.Some?
    && var digest := ReadNat(row.txDigest.value);
       && digest.Some? && digest.value < |c.log| && c.log[digest.value].CommittedEvent?
       && (c.log[digest.value].nonce == row.nonce.value ==>
             row.nonce.value in c.commitments && !DataTrue(c.commitments[row.nonce.value], row.data))
  }

  lemma FalseRowStays(c: Escrow.Chain, d: Escrow.Chain, row: Row)
    requires Escrow.Extends(c, d) && FalseRow(c, row)
    ensures FalseRow(d, row)
  {
    if row.nonce.value in c.commitments {
      assert Escrow.Later(c.commitments[row.nonce.value], d.commitments[row.nonce.value]);
    }
  }

  ghost predicate HasFalseRow(s: State) {
    exists k :: 0 <= k < |s.rows| && FalseRow(s.chain, s.rows[k])
  }

  lemma ExecutedExtends(s: State, tx: Escrow.Tx, now: nat)
    ensures Escrow.Extends(s.chain, Executed(s, tx, now).chain)
  {
    if Escrow.Execute(s.chain, tx, now).Done? {
      Escrow.ExecuteExtends(s.chain, tx, now);
    }
  }

  lemma LandingExtends(s: State, i: nat, now: nat)
    requires i < |s.tasks| && s.tasks[i].Waiting?
    ensures Escrow.Extends(s.chain, Landing(s, i, now).chain)
  {
    if TxOf(s.tasks[i].work).Some? {
      ExecutedExtends(s, TxOf(s.tasks[i].work).value, now);
    }
  }

  /** Steps that reach the chain. */
  predicate Lands(step: Step) {
    step.Land? || step.LandOrphan? || step.Outside?
  }

  lemma OthersKeepTheChain(s: State, step: Step)
    requires !Lands(step)
    ensures Next(s, step).chain == s.chain
  {}

  lemma StepExtends(s: State, step: Step)
    ensures Escrow.Extends(s.chain, Next(s, step).chain)
  {
    match step
    case Land(i, now) => if i < |s.tasks| && s.tasks[i].Waiting? { LandingExtends(s, i, now); }
    case LandOrphan(j, now) =>
      if j < |s.orphans| {
        ExecutedExtends(s.(orphans := s.orphans[..j] + s.orphans[j + 1..]), s.orphans[j], now);
      }
    case Outside(tx, now) => ExecutedExtends(s, tx, now);
    case _ => OthersKeepTheChain(s, step);
  }

  lemma StepKeepsFalseRow(s: State, step: Step)
    requires s.tail == Complete && HasFalseRow(s)
    ensures HasFalseRow(Next(s, step))
  {
    var d := Next(s, step);
    var k :| 0 <= k < |s.rows| && FalseRow(s.chain, s.rows[k]);
    FileGrows(s, step);
    StepExtends(s, step);
    FalseRowStays(s.chain, d.chain, s.rows[k]);
    assert d.rows[k] == s.rows[k];
  }

  lemma ConfirmationReports(s: State, i: nat, now: nat)
    requires i < |s.tasks| && s.tasks[i].Waiting? && s.tasks[i].work.Confirming? && Confirmable(s.chain, s.tasks[i].work.digest)
    requires s.tail == Complete
    ensures var w, told := s.tasks[i].work, Next(s, Finish(i, now));
            told.chain == s.chain && told.rows == s.rows + [Stamped(s, ResultRow(s, w, w.digest, now))]
  {}

  lemma LieIsFalse(s: State, w: Work, now: nat)
    requires Inv(s) && w.Confirming? && Confirmable(s.chain, w.digest) && !HonestConfirmation(s.chain, w)
    ensures FalseRow(s.chain, Stamped(s, ResultRow(s, w, w.digest, now)))
  {
    NatRoundTrip(w.digest);
  }

  lemma WrongSharesAreFalse(s: State, w: Work, digest: nat, now: nat)
    requires WorkTrue(s.chain, w) && LandedTrue(s.chain, w, digest) && w.Committing? && !AddsUp(w.voucher)
    ensures FalseRow(s.chain, Stamped(s, ResultRow(s, w, digest, now)))
  {
    NatRoundTrip(digest);
  }

  lemma HasLast(s: State, rows: seq<Row>, row: Row)
    requires s.rows == rows + [row] && FalseRow(s.chain, row)
    ensures HasFalseRow(s)
  {
    assert FalseRow(s.chain, s.rows[|rows|]);
  }

  lemma DishonestyWritesFalseRow(s: State, step: Step)
    requires Inv(s) && s.tail == Complete && Plausible(s, step) && !Proper(s, step) && !step.CrashInAppend?
    ensures HasFalseRow(Next(s, step))
  {
    var t := s.tasks[step.task];
    if t.Landed? {
      assert TaskTrue(s.chain, t);
      LandedRow(s, step.task, step.now);
      WrongSharesAreFalse(s, t.work, t.digest, step.now);
      HasLast(Next(s, step), s.rows, Stamped(s, ResultRow(s, t.work, t.digest, step.now)));
    } else {
      ConfirmationReports(s, step.task, step.now);
      LieIsFalse(s, t.work, step.now);
      HasLast(Next(s, step), s.rows, Stamped(s, ResultRow(s, t.work, t.work.digest, step.now)));
    }
  }

  /** Runs that only a false report can spoil. */
  predicate PlausibleRun(s: State, steps: seq<Step>) {
    steps != [] ==>
      var init := steps[..|steps| - 1];
      PlausibleRun(s, init) && Plausible(Run(s, init), steps[|steps| - 1])
  }

  lemma {:induction false} ADishonestRunHasAFalseRow(s: State, steps: seq<Step>)
    requires Pristine(s) && PlausibleRun(s, steps) && Untorn(steps) && !ProperRun(s, steps)
    ensures HasFalseRow(Run(s, steps))
  {
    if steps != [] {
      var init, last := steps[..|steps| - 1], steps[|steps| - 1];
      PristineIsIntact(s);
      RunStaysIntact(s, init);
      if ProperRun(s, init) {
        EveryRunIsSafe(s, init);
        DishonestyWritesFalseRow(Run(s, init), last);
      } else {
        ADishonestRunHasAFalseRow(s, init);
        StepKeepsFalseRow(Run(s, init), last);
      }
    }
  }

  /** A run that tears no append ends with a true ledger exactly when every confirmation in it was honest and every
      commit that reported had a share and a fee that add up: one that was not leaves a false row for good. */
  lemma LedgerTrueIffHonest(s: State, steps: seq<Step>)
    requires Pristine(s) && PlausibleRun(s, steps) && Untorn(steps)
    ensures var t := Run(s, steps); RowsTrue(t.chain, t.rows) <==> ProperRun(s, steps)
  {
    if ProperRun(s, steps) {
      EveryRunIsSafe(s, steps);
    } else {
      ADishonestRunHasAFalseRow(s, steps);
      var t := Run(s, steps);
      var k :| 0 <= k < |t.rows| && FalseRow(t.chain, t.rows[k]);
      assert !RowTrue(t.chain, t.rows[k]);
    }
  }
}
