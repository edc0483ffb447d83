/** What every run of the trust service keeps, whatever the interleaving and wherever it crashes. */
module TrustSafety {
  import opened Units
  import opened Digits
  import opened LedgerText
  import opened Events
  import opened TrustSteps
  import Escrow

  // ---- The ledger never says more than the chain ------------------------------------------

  predicate HasStatus(c: Escrow.Chain, nonce: Option<Text>, status: Escrow.Status) {
    nonce.Some? && nonce.value in c.commitments && c.commitments[nonce.value].status == status
  }

  predicate VerdictOn(k: Escrow.Commitment, logDigest: Text, penalty: nat) {
    logDigest != [] && k.logDigest == logDigest && k.penalty == penalty
  }

  /** The event that a row of this type reports for its nonce. */
  predicate Tells(kind: Kind, nonce: Text, event: Escrow.Event) {
    match kind
    case Committed => event.CommittedEvent? && event.nonce == nonce
    case Settled => event.SettledEvent? && event.nonce == nonce
    case Refunded => event == Escrow.RefundedEvent(nonce)
    case Reclaimed => event == Escrow.ReclaimedEvent(nonce)
    case DeliveryVerified => event.VerifiedEvent? && event.nonce == nonce
    case _ => true
  }

  /** The transaction a row names holds the event that the row reports. */
  predicate Witnessed(c: Escrow.Chain, row: Row) {
    && row.nonce.Some? && row.txDigest.Some?
    && var digest := ReadNat(row.txDigest.value);
       digest.Some? && digest.value < |c.log| && Tells(row.kind, row.nonce.value, c.log[digest.value])
  }

  /** What a row claims has happened on the chain, in the transaction it names. */
  predicate RowTrue(c: Escrow.Chain, row: Row) {
    (Lifecycle(row.kind) || row.kind.DeliveryVerified? ==> Witnessed(c, row)) &&
    match row.kind
    case Committed => row.nonce.value in c.commitments && DataTrue(c.commitments[row.nonce.value], row.data)
    case Settled =>
      && HasStatus(c, row.nonce, Escrow.StatusSettled)
      && row.data.penaltyAmount.Some? && row.data.penaltyAmount.value <= c.commitments[row.nonce.value].penalty
    case Refunded => HasStatus(c, row.nonce, Escrow.StatusRefunded)
    case Reclaimed => HasStatus(c, row.nonce, Escrow.StatusReclaimed)
    case DeliveryVerified =>
      && row.nonce.value in c.commitments && row.data.penaltyAmount.Some? && row.data.connectionLogHash.Some?
      && VerdictOn(c.commitments[row.nonce.value], row.data.connectionLogHash.value, row.data.penaltyAmount.value)
    case _ => true
  }

  predicate StatusTrue(k: Escrow.Commitment, status: Kind) {
    match status
    case Committed => true
    case Settled => k.status == Escrow.StatusSettled
    case Refunded => k.status == Escrow.StatusRefunded
    case Reclaimed => k.status == Escrow.StatusReclaimed
    case _ => false
  }

  function EntryData(e: Entry): Data {
    NO_DATA.(amount := e.amount, providerAmount := e.providerAmount, platformFee := e.platformFee)
  }

  /** A registry entry agrees with the commitment. Its penalty may lag behind the chain's; once the
      verdict is in the registry it is exact for as long as the commitment is open. */
  predicate EntryTrue(c: Escrow.Chain, e: Entry) {
    e.nonce in c.commitments &&
    var k, penalty := c.commitments[e.nonce], e.penaltyAmount.GetOr(0);
    && StatusTrue(k, e.status) && DataTrue(k, EntryData(e)) && penalty <= k.penalty
    && (e.connectionLogHash.Some? ==> k.logDigest != [] && k.logDigest == e.connectionLogHash.value)
    && (k.status == Escrow.StatusCommitted ==> penalty == if e.connectionLogHash.Some? then k.penalty else 0)
  }

  predicate EntryOk(c: Escrow.Chain, nonce: Text, e: Option<Entry>) {
    e.Some? ==> e.value.nonce == nonce && nonce != [] && EntryTrue(c, e.value)
  }

  /** What a method holds in memory. */
  predicate WorkTrue(c: Escrow.Chain, w: Work) {
    && NonceOf(w) != []
    && (w.Settling? || w.Refunding? ==> EntryTrue(c, w.entry))
    && (w.Verifying? ==> w.logDigest != [])
  }

  /** What a method may say once its transaction has landed. */
  predicate LandedTrue(c: Escrow.Chain, w: Work, digest: nat) {
    digest < |c.log| && NonceOf(w) in c.commitments &&
    var k := c.commitments[NonceOf(w)];
    match w
    case Committing(v, _, _, _) => k.deal == v.deal && c.log[digest].CommittedEvent? && c.log[digest].nonce == v.deal.nonce
    case Confirming(_, _, _, _, _) => false
    case Verifying(_, nonce, logDigest, penalty) =>
      VerdictOn(k, logDigest, penalty) && c.log[digest] == Escrow.VerifiedEvent(nonce, logDigest, penalty)
    case Settling(_, entry) =>
      && k.status == Escrow.StatusSettled && c.log[digest] == Escrow.SettledEvent(entry.nonce, k.penalty)
      && entry.penaltyAmount.GetOr(0) == if entry.connectionLogHash.Some? then k.penalty else 0
    case Refunding(_, entry) => k.status == Escrow.StatusRefunded && c.log[digest] == Escrow.RefundedEvent(entry.nonce)
    case Reclaiming(nonce) => k.status == Escrow.StatusReclaimed && c.log[digest] == Escrow.ReclaimedEvent(nonce)
  }

  predicate TaskTrue(c: Escrow.Chain, t: Task) {
    (!t.Ended? ==> WorkTrue(c, t.work)) && (t.Landed? ==> LandedTrue(c, t.work, t.digest))
  }

  predicate TerminalRow(row: Row, nonce: Text) {
    Terminal(row.kind) && row.nonce == Some(nonce)
  }

  predicate ClosingTask(t: Task, nonce: Text) {
    t.Landed? && (t.work.Settling? || t.work.Refunding? || t.work.Reclaiming?) && NonceOf(t.work) == nonce
  }

  function TerminalRows(rows: seq<Row>, nonce: Text): nat {
    if rows == [] then 0
    else TerminalRows(rows[..|rows| - 1], nonce) + (if TerminalRow(rows[|rows| - 1], nonce) then 1 else 0)
  }

  function ClosingTasks(tasks: seq<Task>, nonce: Text): nat {
    if tasks == [] then 0
    else ClosingTasks(tasks[..|tasks| - 1], nonce) + (if ClosingTask(tasks[|tasks| - 1], nonce) then 1 else 0)
  }

  ghost predicate RowsTrue(c: Escrow.Chain, rows: seq<Row>) {
    forall i :: 0 <= i < |rows| ==> RowTrue(c, rows[i])
  }

  ghost predicate TasksTrue(c: Escrow.Chain, tasks: seq<Task>) {
    forall i :: 0 <= i < |tasks| ==> TaskTrue(c, tasks[i])
  }

  ghost predicate RegistryTrue(c: Escrow.Chain, reg: Registry) {
    forall nonce: Text :: EntryOk(c, nonce, Find(reg, nonce))
  }

  /** No two entries of the registry share a nonce. */
  ghost predicate OneEach(reg: Registry) {
    forall i, j :: 0 <= i < j < |reg| ==> reg[i].nonce != reg[j].nonce
  }

  /** Every terminal row, written or about to be, has its own closing event on the chain. */
  ghost predicate Counted(c: Escrow.Chain, rows: seq<Row>, tasks: seq<Task>) {
    forall nonce: Text :: TerminalRows(rows, nonce) + ClosingTasks(tasks, nonce) <= Escrow.CloseCount(c.log, nonce)
  }

  ghost predicate RowsHold(c: Escrow.Chain, rows: seq<Row>, tasks: seq<Task>) {
    RowsTrue(c, rows) && Counted(c, rows, tasks)
  }

  ghost predicate Inv(s: State) {
    && Escrow.ChainOk(s.chain) && RowsHold(s.chain, s.rows, s.tasks) && TasksTrue(s.chain, s.tasks)
    && RegistryTrue(s.chain, s.registry) && OneEach(s.registry)
  }

  // ---- Chains that have moved on --------------------------------------------------------

  lemma WitnessStays(c: Escrow.Chain, d: Escrow.Chain, row: Row)
    requires c.log <= d.log && Witnessed(c, row)
    ensures Witnessed(d, row)
  {}

  lemma RowStays(c: Escrow.Chain, d: Escrow.Chain, row: Row)
    requires Escrow.Extends(c, d) && RowTrue(c, row)
    ensures RowTrue(d, row)
  {
    if Lifecycle(row.kind) || row.kind.DeliveryVerified? {
      WitnessStays(c, d, row);
    }
    if row.nonce.Some? && row.nonce.value in c.commitments {
      assert Escrow.Later(c.commitments[row.nonce.value], d.commitments[row.nonce.value]);
    }
  }

  lemma EntryStays(c: Escrow.Chain, d: Escrow.Chain, e: Entry)
    requires Escrow.ChainOk(c) && Escrow.Extends(c, d) && EntryTrue(c, e)
    ensures EntryTrue(d, e)
  {
    assert Escrow.Later(c.commitments[e.nonce], d.commitments[e.nonce]);
    assert Escrow.NonceOk(c, e.nonce);
  }

  lemma TaskStays(c: Escrow.Chain, d: Escrow.Chain, t: Task)
    requires Escrow.ChainOk(c) && Escrow.Extends(c, d) && TaskTrue(c, t)
    ensures TaskTrue(d, t)
  {
    if !t.Ended? && (t.work.Settling? || t.work.Refunding?) {
      EntryStays(c, d, t.work.entry);
    }
    if t.Landed? {
      assert Escrow.Later(c.commitments[NonceOf(t.work)], d.commitments[NonceOf(t.work)]);
    }
  }

  /** Whatever happens on the chain, rows, entries and methods stay true. */
  lemma ChainMoves(s: State, d: Escrow.Chain)
    requires Inv(s) && Escrow.Extends(s.chain, d) && Escrow.ChainOk(d)
    ensures RowsTrue(d, s.rows) && RegistryTrue(d, s.registry) && TasksTrue(d, s.tasks)
  {
    var c := s.chain;
    forall i | 0 <= i < |s.rows| ensures RowTrue(d, s.rows[i]) {
      RowStays(c, d, s.rows[i]);
    }
    forall nonce: Text ensures EntryOk(d, nonce, Find(s.registry, nonce)) {
      assert EntryOk(c, nonce, Find(s.registry, nonce));
      if Find(s.registry, nonce).Some? {
        EntryStays(c, d, Find(s.registry, nonce).value);
      }
    }
    forall i | 0 <= i < |s.tasks| ensures TaskTrue(d, s.tasks[i]) {
      TaskStays(c, d, s.tasks[i]);
    }
  }

  // ---- Appending a row -------------------------------------------------------------------

  lemma CommitEffect(c: Escrow.Chain, before: Option<Entry>, row: Row)
    requires Truthy(row.nonce) && row.kind.Committed? && RowTrue(c, row) && EntryOk(c, row.nonce.value, before)
    ensures EntryOk(c, row.nonce.value, Effect(before, row))
  {}

  lemma SettleEffect(c: Escrow.Chain, before: Option<Entry>, row: Row)
    requires Truthy(row.nonce) && row.kind.Settled? && RowTrue(c, row) && EntryOk(c, row.nonce.value, before)
    ensures EntryOk(c, row.nonce.value, Effect(before, row))
  {}

  lemma VerdictEffect(c: Escrow.Chain, before: Option<Entry>, row: Row)
    requires Truthy(row.nonce) && row.kind.DeliveryVerified? && RowTrue(c, row) && EntryOk(c, row.nonce.value, before)
    ensures EntryOk(c, row.nonce.value, Effect(before, row))
  {}

  /** A true row turns a true entry into a true entry. */
  lemma EffectTrue(c: Escrow.Chain, before: Option<Entry>, row: Row)
    requires Escrow.ChainOk(c) && Truthy(row.nonce) && RowTrue(c, row) && EntryOk(c, row.nonce.value, before)
    ensures EntryOk(c, row.nonce.value, Effect(before, row))
  {
    match row.kind
    case Committed => assert Escrow.NonceOk(c, row.nonce.value); CommitEffect(c, before, row);
    case Settled => SettleEffect(c, before, row);
    case DeliveryVerified => VerdictEffect(c, before, row);
    case _ =>
  }

  lemma RowsOneMore(rows: seq<Row>, row: Row, nonce: Text)
    ensures TerminalRows(rows + [row], nonce) == TerminalRows(rows, nonce) + if TerminalRow(row, nonce) then 1 else 0
  {
    assert (rows + [row])[..|rows|] == rows;
  }

  lemma IndexTrue(c: Escrow.Chain, reg: Registry, row: Row)
    requires Escrow.ChainOk(c) && RegistryTrue(c, reg) && RowTrue(c, row)
    ensures RegistryTrue(c, Index(reg, row))
  {
    forall nonce: Text ensures EntryOk(c, nonce, Find(Index(reg, row), nonce)) {
      FindIndex(reg, row, nonce);
      assert EntryOk(c, nonce, Find(reg, nonce));
      if row.nonce == Some(nonce) && Truthy(row.nonce) {
        EffectTrue(c, Find(reg, nonce), row);
      }
    }
  }

  lemma IndexKeepsOneEach(reg: Registry, row: Row)
    requires OneEach(reg)
    ensures OneEach(Index(reg, row))
  {
    if Truthy(row.nonce) && Effect(Find(reg, row.nonce.value), row).Some? {
      PutKeepsOneEach(reg, Effect(Find(reg, row.nonce.value), row).value);
    }
  }

  lemma PutKeepsOneEach(reg: Registry, e: Entry)
    requires OneEach(reg)
    ensures OneEach(Put(reg, e))
  {
    var k := IndexOf(reg, e.nonce);
    if k == |reg| {
      assert Put(reg, e) == reg + [e];
    }
  }

  /** A registry rebuilt from true rows is true. */
  lemma {:induction false} ReplayTrue(c: Escrow.Chain, rows: seq<Row>)
    requires Escrow.ChainOk(c) && RowsTrue(c, rows)
    ensures RegistryTrue(c, Replay(rows)) && OneEach(Replay(rows))
  {
    if rows != [] {
      var n := |rows| - 1;
      ReplayTrue(c, rows[..n]);
      IndexTrue(c, Replay(rows[..n]), rows[n]);
      IndexKeepsOneEach(Replay(rows[..n]), rows[n]);
    }
  }

  lemma NumberIsIrrelevant(c: Escrow.Chain, row: Row, n: nat)
    ensures RowTrue(c, row.(seqNo := n)) == RowTrue(c, row)
  {}

  /** The chain has closed the nonce of this row and no other row tells of it yet. */
  ghost predicate ToSpare(c: Escrow.Chain, rows: seq<Row>, tasks: seq<Task>, row: Row) {
    forall nonce: Text :: TerminalRow(row, nonce) ==>
      TerminalRows(rows, nonce) + ClosingTasks(tasks, nonce) < Escrow.CloseCount(c.log, nonce)
  }

  lemma OneRowMore(c: Escrow.Chain, rows: seq<Row>, tasks: seq<Task>, row: Row)
    requires RowsHold(c, rows, tasks) && RowTrue(c, row) && ToSpare(c, rows, tasks, row)
    ensures RowsHold(c, rows + [row], tasks)
  {
    forall nonce: Text
      ensures TerminalRows(rows + [row], nonce) + ClosingTasks(tasks, nonce) <= Escrow.CloseCount(c.log, nonce)
    {
      RowsOneMore(rows, row, nonce);
    }
  }

  lemma OneRowLess(c: Escrow.Chain, rows: seq<Row>, tasks: seq<Task>)
    requires RowsHold(c, rows, tasks) && rows != []
    ensures RowsHold(c, rows[..|rows| - 1], tasks)
  {
    forall nonce: Text
      ensures TerminalRows(rows[..|rows| - 1], nonce) + ClosingTasks(tasks, nonce) <= Escrow.CloseCount(c.log, nonce)
    {
      assert TerminalRows(rows[..|rows| - 1], nonce) <= TerminalRows(rows, nonce);
    }
  }

  /** Whatever part of a true row reaches the file, and whatever it is glued to. */
  lemma FileHolds(s: State, row: Row)
    requires RowsHold(s.chain, s.rows, s.tasks) && RowTrue(s.chain, row) && ToSpare(s.chain, s.rows, s.tasks, row)
    ensures RowsHold(s.chain, s.rows + [Stamped(s, row)], s.tasks) && RowsHold(s.chain, WithoutBareRow(s), s.tasks)
  {
    NumberIsIrrelevant(s.chain, row, s.lines + 1);
    OneRowMore(s.chain, s.rows, s.tasks, Stamped(s, row));
    if s.rows != [] {
      OneRowLess(s.chain, s.rows, s.tasks);
    }
  }

  /** A row that is true of the chain may be appended; a terminal one needs a closing event to spare. */
  lemma EmitKeeps(s: State, row: Row)
    requires Inv(s) && RowTrue(s.chain, row) && ToSpare(s.chain, s.rows, s.tasks, row)
    ensures Inv(Emitted(s, row))
  {
    FileHolds(s, row);
    NumberIsIrrelevant(s.chain, row, s.lines + 1);
    ReplayTrue(s.chain, s.rows);
    IndexTrue(s.chain, Replay(s.rows), Stamped(s, row));
    IndexKeepsOneEach(Replay(s.rows), Stamped(s, row));
  }

  lemma NoteKeeps(s: State, row: Row)
    requires Inv(s) && (row.kind.Note? || row.kind.ClaimVerified?)
    ensures Inv(Emitted(s, row))
  {
    EmitKeeps(s, row);
  }

  // ---- Starting and ending methods ---------------------------------------------------------

  lemma {:induction false} TasksSet(tasks: seq<Task>, i: nat, t: Task, nonce: Text)
    requires i < |tasks|
    ensures ClosingTasks(tasks[i := t], nonce) + (if ClosingTask(tasks[i], nonce) then 1 else 0)
         == ClosingTasks(tasks, nonce) + (if ClosingTask(t, nonce) then 1 else 0)
  {
    var n := |tasks| - 1;
    if i < n {
      TasksSet(tasks[..n], i, t, nonce);
      assert tasks[i := t][..n] == tasks[..n][i := t];
    } else {
      assert tasks[i := t][..n] == tasks[..n];
    }
  }

  lemma SpawnKeeps(s: State, w: Work)
    requires Inv(s) && WorkTrue(s.chain, w)
    ensures Inv(Spawn(s, w))
  {
    var tasks := s.tasks + [Waiting(w)];
    assert tasks[..|s.tasks|] == s.tasks;
    forall nonce: Text ensures ClosingTasks(tasks, nonce) == ClosingTasks(s.tasks, nonce) {}
  }

  lemma EndKeeps(s: State, i: nat)
    requires Inv(s) && i < |s.tasks|
    ensures Inv(s.(tasks := s.tasks[i := Ended]))
    ensures forall nonce: Text :: ClosingTask(s.tasks[i], nonce) ==>
      TerminalRows(s.rows, nonce) + ClosingTasks(s.tasks[i := Ended], nonce) < Escrow.CloseCount(s.chain.log, nonce)
  {
    forall nonce: Text
      ensures ClosingTasks(s.tasks[i := Ended], nonce) + (if ClosingTask(s.tasks[i], nonce) then 1 else 0) == ClosingTasks(s.tasks, nonce)
    {
      TasksSet(s.tasks, i, Ended, nonce);
    }
  }

  lemma OpenIsTrue(s: State, incidentId: Text)
    requires Inv(s) && OpenCommitment(s, incidentId).Some?
    ensures var e := OpenCommitment(s, incidentId).value; e.nonce != [] && EntryTrue(s.chain, e)
  {
    var e := OpenCommitment(s, incidentId).value;
    FindMember(Registered(s), e);
    assert EntryOk(s.chain, e.nonce, Find(Registered(s), e.nonce));
  }

  lemma FindMember(reg: Registry, e: Entry)
    requires OneEach(reg) && e in reg
    ensures Find(reg, e.nonce) == Some(e)
  {
    var i :| 0 <= i < |reg| && reg[i] == e;
    assert IndexOf(reg, e.nonce) == i;
  }

  // ---- Transactions landing ------------------------------------------------------------

  lemma LandingIsTrue(c: Escrow.Chain, w: Work, now: nat)
    requires Escrow.ChainOk(c) && WorkTrue(c, w) && TxOf(w).Some? && Escrow.Execute(c, TxOf(w).value, now).Done?
    ensures LandedTrue(Escrow.Execute(c, TxOf(w).value, now).chain, w, |c.log|)
  {
    assert Escrow.NonceOk(c, NonceOf(w));
    Escrow.ExecuteLogs(c, TxOf(w).value, now);
  }

  /** A closing task is one whose transaction closed the nonce. */
  lemma LandingCounts(c: Escrow.Chain, w: Work, now: nat, nonce: Text)
    requires TxOf(w).Some? && Escrow.Execute(c, TxOf(w).value, now).Done?
    ensures Escrow.CloseCount(Escrow.Execute(c, TxOf(w).value, now).chain.log, nonce)
         == Escrow.CloseCount(c.log, nonce) + if ClosingTask(Landed(w, |c.log|), nonce) then 1 else 0
  {
    var tx := TxOf(w).value;
    Escrow.ExecuteCloses(c, tx, now, nonce);
    assert ClosingTask(Landed(w, |c.log|), nonce)
      <==> (tx.SettleTx? || tx.RefundTx? || tx.ReclaimTx?) && NonceOf(w) == nonce;
  }

  lemma ExecuteCounts(c: Escrow.Chain, tx: Escrow.Tx, now: nat, nonce: Text)
    requires Escrow.Execute(c, tx, now).Done?
    ensures Escrow.CloseCount(Escrow.Execute(c, tx, now).chain.log, nonce) >= Escrow.CloseCount(c.log, nonce)
  {
    Escrow.ExecuteCloses(c, tx, now, nonce);
  }

  lemma LandKeeps(s: State, i: nat, now: nat)
    requires Inv(s) && i < |s.tasks| && s.tasks[i].Waiting?
    ensures Inv(Landing(s, i, now))
  {
    var w := s.tasks[i].work;
    assert TaskTrue(s.chain, s.tasks[i]);
    if TxOf(w).Some? {
      if Escrow.Execute(s.chain, TxOf(w).value, now).Abort? {
        EndKeeps(s, i);
      } else {
        var d := Escrow.Execute(s.chain, TxOf(w).value, now).chain;
        Escrow.ExecuteKeepsChain(s.chain, TxOf(w).value, now);
        Escrow.ExecuteExtends(s.chain, TxOf(w).value, now);
        ChainMoves(s, d);
        LandingIsTrue(s.chain, w, now);
        TaskStays(s.chain, d, s.tasks[i]);
        LandCounted(s, i, now);
      }
    }
  }

  lemma LandCounted(s: State, i: nat, now: nat)
    requires Counted(s.chain, s.rows, s.tasks) && i < |s.tasks| && s.tasks[i].Waiting? && TxOf(s.tasks[i].work).Some?
    requires Escrow.Execute(s.chain, TxOf(s.tasks[i].work).value, now).Done?
    ensures Counted(Landing(s, i, now).chain, s.rows, Landing(s, i, now).tasks)
  {
    var w := s.tasks[i].work;
    forall nonce: Text
      ensures TerminalRows(s.rows, nonce) + ClosingTasks(Landing(s, i, now).tasks, nonce)
           <= Escrow.CloseCount(Landing(s, i, now).chain.log, nonce)
    {
      LandingCounts(s.chain, w, now, nonce);
      TasksSet(s.tasks, i, Landed(w, |s.chain.log|), nonce);
    }
  }

  lemma ExecutedKeeps(s: State, tx: Escrow.Tx, now: nat)
    requires Inv(s)
    ensures Inv(Executed(s, tx, now))
  {
    if Escrow.Execute(s.chain, tx, now).Done? {
      var d := Escrow.Execute(s.chain, tx, now).chain;
      Escrow.ExecuteKeepsChain(s.chain, tx, now);
      Escrow.ExecuteExtends(s.chain, tx, now);
      ChainMoves(s, d);
      forall nonce: Text
        ensures TerminalRows(s.rows, nonce) + ClosingTasks(s.tasks, nonce) <= Escrow.CloseCount(d.log, nonce)
      {
        ExecuteCounts(s.chain, tx, now, nonce);
      }
    }
  }

  // ---- Finishing --------------------------------------------------------------------------

  lemma ResultIsTrue(s: State, w: Work, digest: nat, now: nat)
    requires Escrow.ChainOk(s.chain) && WorkTrue(s.chain, w) && LandedTrue(s.chain, w, digest)
    requires w.Committing? ==> AddsUp(w.voucher)
    ensures RowTrue(s.chain, ResultRow(s, w, digest, now))
    ensures forall nonce: Text :: TerminalRow(ResultRow(s, w, digest, now), nonce) ==> ClosingTask(Landed(w, digest), nonce)
  {
    NatRoundTrip(digest);
    assert Escrow.NonceOk(s.chain, NonceOf(w));
  }

  /** The row of a confirmation is true exactly when what the confirmation does not check is so. */
  lemma ConfirmationIsTrue(s: State, w: Work, now: nat)
    requires Escrow.ChainOk(s.chain) && w.Confirming? && Confirmable(s.chain, w.digest)
    ensures RowTrue(s.chain, ResultRow(s, w, w.digest, now)) <==> HonestConfirmation(s.chain, w)
  {
    NatRoundTrip(w.digest);
    assert s.chain.log[w.digest].nonce in s.chain.commitments;
  }

  /** What a method appends when it resumes is true, and its close is not yet told of. */
  lemma FinalRowIsTrue(s: State, i: nat, now: nat)
    requires Inv(s) && i < |s.tasks| && HonestFinish(s, i) && FinalRow(s, s.tasks[i], now).Some?
    ensures var row := FinalRow(s, s.tasks[i], now).value;
            RowTrue(s.chain, row) && ToSpare(s.chain, s.rows, s.tasks[i := Ended], row)
  {
    var t := s.tasks[i];
    assert TaskTrue(s.chain, t);
    EndKeeps(s, i);
    if t.Landed? {
      ResultIsTrue(s, t.work, t.digest, now);
    } else if Confirmable(s.chain, t.work.digest) {
      ConfirmationIsTrue(s, t.work, now);
    }
  }

  lemma FinishKeeps(s: State, i: nat, now: nat)
    requires Inv(s) && i < |s.tasks| && HonestFinish(s, i)
    ensures Inv(Finished(s, i, now))
  {
    EndKeeps(s, i);
    if FinalRow(s, s.tasks[i], now).Some? {
      FinalRowIsTrue(s, i, now);
      EmitKeeps(s.(tasks := s.tasks[i := Ended]), FinalRow(s, s.tasks[i], now).value);
    }
  }

  lemma DropKeeps(s: State, i: nat)
    requires Inv(s)
    ensures Inv(Next(s, Drop(i)))
  {
    if i < |s.tasks| && s.tasks[i].Waiting? {
      EndKeeps(s, i);
    }
  }

  // ---- Crashing ---------------------------------------------------------------------------

  lemma FewerTasks(c: Escrow.Chain, rows: seq<Row>, tasks: seq<Task>)
    requires RowsHold(c, rows, tasks)
    ensures RowsHold(c, rows, [])
  {
    forall nonce: Text ensures TerminalRows(rows, nonce) <= Escrow.CloseCount(c.log, nonce) {
      assert TerminalRows(rows, nonce) + ClosingTasks(tasks, nonce) <= Escrow.CloseCount(c.log, nonce);
    }
  }

  lemma RestartKeeps(s: State)
    requires Escrow.ChainOk(s.chain) && RowsHold(s.chain, s.rows, s.tasks)
    ensures Inv(Restarted(s))
  {
    ReplayTrue(s.chain, s.rows);
    FewerTasks(s.chain, s.rows, s.tasks);
  }

  /** Whatever a step is about to append is true of the chain. */
  lemma WritesTrue(s: State, step: Step)
    requires Inv(s) && Proper(s, step) && Writes(s, step).Some?
    ensures var row := Writes(s, step).value; RowTrue(s.chain, row) && ToSpare(s.chain, s.rows, [], row)
  {
    if step.Finish? {
      FinalRowIsTrue(s, step.task, step.now);
    }
  }

  lemma CutHolds(s: State, row: Row, kept: Kept)
    requires RowsHold(s.chain, s.rows, []) && RowTrue(s.chain, row) && ToSpare(s.chain, s.rows, [], row)
    ensures RowsHold(s.chain, Cut(s, row, kept).rows, []) && Cut(s, row, kept).chain == s.chain
  {
    FileHolds(s.(tasks := []), row);
  }

  lemma CrashInAppendKeeps(s: State, during: Step, kept: Kept)
    requires Inv(s) && Proper(s, CrashInAppend(during, kept))
    ensures Inv(Next(s, CrashInAppend(during, kept)))
  {
    if Writes(s, during).Some? {
      var cut := Cut(s, Writes(s, during).value, kept);
      FewerTasks(s.chain, s.rows, s.tasks);
      WritesTrue(s, during);
      CutHolds(s, Writes(s, during).value, kept);
      RestartKeeps(cut.(tasks := []));
    }
  }

  // ---- Every step -------------------------------------------------------------------------

  lemma StartCommitKeeps(s: State, offer: Offer, authority: Escrow.Authority, buyer: Text, now: nat)
    requires Inv(s) && Proper(s, StartCommit(offer, authority, buyer, now))
    ensures Inv(StartedCommit(s, offer, authority, buyer, now))
  {
    var existing := Known(s, offer.nonce);
    if existing.Some? {
      NoteKeeps(s, NoteRow(DUPLICATE_BLOCKED, existing.value.incidentId, Some(existing.value.nonce), now));
    } else if offer.built.None? {
      NoteKeeps(s, NoteRow(VERIFICATION_FAILED, Some(offer.incidentId), offer.nonce, now));
    } else {
      var v := offer.built.value;
      var note := NoteRow(VERIFIED, Some(v.deal.incidentId), Some(v.deal.nonce), now);
      NoteKeeps(s, note);
      SpawnKeeps(Emitted(s, note), Committing(v, authority, buyer, |s.rows|));
    }
  }

  lemma StartConfirmKeeps(s: State, incidentId: Text, nonce: Text, digest: nat, data: Data, now: nat)
    requires Inv(s) && nonce != []
    ensures Inv(StartedConfirm(s, incidentId, nonce, digest, data, now))
  {
    var existing := Find(Registered(s), nonce);
    if existing.Some? {
      NoteKeeps(s, NoteRow(DUPLICATE_BLOCKED, existing.value.incidentId, Some(nonce), now));
    } else {
      SpawnKeeps(s, Confirming(incidentId, nonce, digest, data, |s.rows|));
    }
  }

  lemma StartVerifyKeeps(s: State, incidentId: Text, report: Report)
    requires Inv(s) && report.logDigest != []
    ensures Inv(StartedVerify(s, incidentId, report))
  {
    if StartedVerify(s, incidentId, report) != s {
      OpenIsTrue(s, incidentId);
      SpawnKeeps(s, StartedVerify(s, incidentId, report).tasks[|s.tasks|].work);
    }
  }

  lemma StartActivationKeeps(s: State, incidentId: Text, status: Activation, now: nat)
    requires Inv(s)
    ensures Inv(StartedActivation(s, incidentId, status, now))
  {
    if OpenCommitment(s, incidentId).Some? {
      OpenIsTrue(s, incidentId);
      var e := OpenCommitment(s, incidentId).value;
      match status {
        case Available => SpawnKeeps(s, Settling(incidentId, e));
        case Failed => SpawnKeeps(s, Refunding(incidentId, e));
        case Observed(_) => NoteKeeps(s, NoteRow(ACTIVATION_OBSERVED, Some(incidentId), Some(e.nonce), now));
      }
    }
  }

  /** Every step of the service, of the chain and of the outside world keeps all of it. */
  lemma StepKeeps(s: State, step: Step)
    requires Inv(s) && Proper(s, step)
    ensures Inv(Next(s, step))
  {
    match step
    case StartCommit(offer, authority, buyer, now) => StartCommitKeeps(s, offer, authority, buyer, now);
    case StartConfirm(incidentId, nonce, digest, data, now) => StartConfirmKeeps(s, incidentId, nonce, digest, data, now);
    case StartVerify(incidentId, report) => StartVerifyKeeps(s, incidentId, report);
    case StartActivation(incidentId, status, now) => StartActivationKeeps(s, incidentId, status, now);
    case StartReclaim(nonce) => SpawnKeeps(s, Reclaiming(nonce));
    case Land(i, now) => if i < |s.tasks| && s.tasks[i].Waiting? { LandKeeps(s, i, now); }
    case Drop(i) => DropKeeps(s, i);
    case Finish(i, now) => if i < |s.tasks| { FinishKeeps(s, i, now); }
    case LandOrphan(j, now) =>
      if j < |s.orphans| {
        ExecutedKeeps(s.(orphans := s.orphans[..j] + s.orphans[j + 1..]), s.orphans[j], now);
      }
    case Outside(tx, now) => ExecutedKeeps(s, tx, now);
    case Remark(row) => NoteKeeps(s, row);
    case Crash => RestartKeeps(s);
    case CrashInAppend(during, kept) => CrashInAppendKeeps(s, during, kept);
  }

  predicate Pristine(s: State) {
    && s.rows == [] && s.lines == 0 && s.tail == Complete && s.registry == [] && s.tasks == [] && s.orphans == []
    && Escrow.Untouched(s.chain)
  }

  lemma PristineIsInv(s: State)
    requires Pristine(s)
    ensures Inv(s)
  {
    Escrow.UntouchedIsOk(s.chain);
  }

  /** Under any interleaving, with crashes at any await and in the middle of any append: the chain conserves
      coins and locks and closes each nonce at most once, every ledger row and registry entry is true of the
      chain, and every terminal row has a closing event of its own. */
  lemma {:induction false} EveryRunIsSafe(s: State, steps: seq<Step>)
    requires Pristine(s) && ProperRun(s, steps)
    ensures Inv(Run(s, steps))
  {
    if steps == [] {
      PristineIsInv(s);
    } else {
      var init := steps[..|steps| - 1];
      EveryRunIsSafe(s, init);
      StepKeeps(Run(s, init), steps[|steps| - 1]);
    }
  }
}
