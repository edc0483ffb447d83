/** The trust service as interleaved steps (src/sui/service.js). A method runs without interruption
    between two awaits, so each step below is one such stretch, one transaction landing on the
    chain, or a crash, at an await or in the middle of a ledger append. */
module TrustSteps {
  import opened Units
  import opened Digits
  import opened LedgerText
  import opened Events
  import Delivery
  import Escrow

  // ---- What a method keeps in memory while it waits --------------------------------------

  /** `seen` is the number of ledger rows when the method looked the nonce up. */
  datatype Work =
    | Committing(voucher: Escrow.Voucher, authority: Escrow.Authority, buyer: Text, seen: nat)
    | Confirming(incidentId: Text, nonce: Text, digest: nat, data: Data, seen: nat)
    | Verifying(incidentId: Text, nonce: Text, logDigest: Text, penalty: nat)
    | Settling(incidentId: Text, entry: Entry)
    | Refunding(incidentId: Text, entry: Entry)
    | Reclaiming(nonce: Text)

  /** Waiting for the chain; answered, with the position of the transaction; or returned. */
  datatype Task = Waiting(work: Work) | Landed(work: Work, digest: nat) | Ended

  /** How the ledger file ends: with a newline or empty; in a whole row that lost its newline; or in a line
      that does not parse. */
  datatype Tail = Complete | Bare | Garbled

  /** `rows` are what a restart reads from the ledger file, `lines` counts its lines, `registry` is what the
      running process holds in memory. */
  datatype State = State(
    rows: seq<Row>,
    lines: nat,
    tail: Tail,
    registry: Registry,
    chain: Escrow.Chain,
    tasks: seq<Task>,
    orphans: seq<Escrow.Tx>)

  const INITIAL := State([], 0, Complete, [], Escrow.GENESIS, [], [])

  function NonceOf(w: Work): Text {
    match w
    case Committing(v, _, _, _) => v.deal.nonce
    case Confirming(_, nonce, _, _, _) => nonce
    case Verifying(_, nonce, _, _) => nonce
    case Settling(_, entry) => entry.nonce
    case Refunding(_, entry) => entry.nonce
    case Reclaiming(nonce) => nonce
  }

  /** The transaction a method submits; a confirmation only reads the chain. */
  function TxOf(w: Work): Option<Escrow.Tx> {
    match w
    case Committing(v, authority, buyer, _) => Some(Escrow.CommitTx(v, authority, buyer))
    case Confirming(_, _, _, _, _) => None
    case Verifying(_, nonce, logDigest, penalty) => Some(Escrow.VerifyTx(nonce, logDigest, penalty))
    case Settling(_, entry) => Some(Escrow.SettleTx(entry.nonce))
    case Refunding(_, entry) => Some(Escrow.RefundTx(entry.nonce))
    case Reclaiming(nonce) => Some(Escrow.ReclaimTx(nonce))
  }

  // ---- Steps ---------------------------------------------------------------------------

  /** `built` is what the voucher builder returned; None where it threw. */
  datatype Offer = Offer(incidentId: Text, nonce: Option<Text>, built: Option<Escrow.Voucher>)

  datatype Report = Report(promised: real, samples: seq<real>, tolerance: real, logDigest: Text)

  datatype Activation = Available | Failed | Observed(status: Text)

  datatype Step =
    | StartCommit(offer: Offer, authority: Escrow.Authority, buyer: Text, now: nat)
    | StartConfirm(incidentId: Text, nonce: Text, digest: nat, data: Data, now: nat)
    | StartVerify(incidentId: Text, report: Report)
    | StartActivation(incidentId: Text, status: Activation, now: nat)
    | StartReclaim(nonce: Text)
    | Land(task: nat, now: nat)
    | Drop(task: nat)
    | Finish(task: nat, now: nat)
    | LandOrphan(orphan: nat, now: nat)
    | Outside(tx: Escrow.Tx, now: nat)
    | Remark(row: Row)
    | Crash
    | CrashInAppend(during: Step, kept: Kept)

  /** What an append that a crash cuts short leaves of its line; the newline is lost in any case. */
  datatype Kept = Nothing | Part | All

  const DUPLICATE_BLOCKED: Kind := Kind.Note(Ascii("DUPLICATE_BLOCKED"))
  const VERIFICATION_FAILED: Kind := Kind.Note(Ascii("VERIFICATION_FAILED"))
  const VERIFIED: Kind := Kind.Note(Ascii("VERIFIED"))
  const ACTIVATION_OBSERVED: Kind := Kind.Note(Ascii("ACTIVATION_OBSERVED"))

  function Registered(s: State): Registry {
    s.registry
  }

  function Stamped(s: State, row: Row): Row {
    row.(seqNo := s.lines + 1)
  }

  /** The rows that survive once something is glued onto the last line. */
  function WithoutBareRow(s: State): seq<Row> {
    if s.tail == Bare && s.rows != [] then s.rows[..|s.rows| - 1] else s.rows
  }

  /** `emit` rebuilds the registry, appends the row, and indexes it whether or not the file can still be
      read: on a file without its last newline the row is glued onto the line before it. */
  function Emitted(s: State, row: Row): State {
    var indexed := s.(registry := Index(Replay(s.rows), Stamped(s, row)));
    if s.tail == Complete
    then indexed.(rows := s.rows + [Stamped(s, row)], lines := s.lines + 1)
    else indexed.(rows := WithoutBareRow(s), tail := Complete)
  }

  /** The file after a crash in the middle of `emit`. */
  function Cut(s: State, row: Row, kept: Kept): State {
    if kept == Nothing then s
    else if s.tail != Complete then s.(rows := WithoutBareRow(s), tail := Garbled)
    else if kept == Part then s.(lines := s.lines + 1, tail := Garbled)
    else s.(rows := s.rows + [Stamped(s, row)], lines := s.lines + 1, tail := Bare)
  }

  /** A process that starts on this file: nothing waits, and the registry is rebuilt. */
  function Restarted(s: State): State {
    s.(registry := Replay(s.rows), tasks := [], orphans := s.orphans + Pending(s.tasks))
  }

  function Spawn(s: State, w: Work): State {
    s.(tasks := s.tasks + [Waiting(w)])
  }

  function NoteRow(kind: Kind, incidentId: Option<Text>, nonce: Option<Text>, now: nat): Row {
    Row(0, now, kind, incidentId, nonce, None, NO_DATA)
  }

  /** `commitments.find((c) => c.status === "COMMITTED")` */
  function FirstCommitted(entries: seq<Entry>): (r: Option<Entry>)
    ensures r.Some? ==> r.value in entries && r.value.status == Committed
    ensures r.None? ==> forall e :: e in entries ==> e.status != Committed
  {
    if entries == [] then None
    else if entries[0].status == Committed then Some(entries[0])
    else FirstCommitted(entries[1..])
  }

  function OpenCommitment(s: State, incidentId: Text): (r: Option<Entry>)
    ensures r.Some? ==> r.value in Registered(s) && r.value.status == Committed && r.value.incidentId == Some(incidentId)
  {
    FirstCommitted(OfIncident(Registered(s), incidentId))
  }

  function Known(s: State, nonce: Option<Text>): Option<Entry> {
    if nonce.Some? then Find(Registered(s), nonce.value) else None
  }

  function StartedCommit(s: State, offer: Offer, authority: Escrow.Authority, buyer: Text, now: nat): State {
    var existing := Known(s, offer.nonce);
    if existing.Some? then
      Emitted(s, NoteRow(DUPLICATE_BLOCKED, existing.value.incidentId, Some(existing.value.nonce), now))
    else if offer.built.None? then
      Emitted(s, NoteRow(VERIFICATION_FAILED, Some(offer.incidentId), offer.nonce, now))
    else
      var v := offer.built.value;
      Spawn(Emitted(s, NoteRow(VERIFIED, Some(v.deal.incidentId), Some(v.deal.nonce), now)),
            Committing(v, authority, buyer, |s.rows|))
  }

  function StartedConfirm(s: State, incidentId: Text, nonce: Text, digest: nat, data: Data, now: nat): State {
    var existing := Find(Registered(s), nonce);
    if existing.Some? then
      Emitted(s, NoteRow(DUPLICATE_BLOCKED, existing.value.incidentId, Some(nonce), now))
    else Spawn(s, Confirming(incidentId, nonce, digest, data, |s.rows|))
  }

  function StartedVerify(s: State, incidentId: Text, report: Report): State {
    var open := OpenCommitment(s, incidentId);
    var check := Delivery.CheckDelivery(report.promised, report.samples, report.tolerance);
    if open.None? || check.None? then s
    else
      var penalty := Delivery.Penalty(open.value.providerAmount.GetOr(0), check.value.penaltyPct);
      Spawn(s, Verifying(incidentId, open.value.nonce, report.logDigest, penalty))
  }

  function StartedActivation(s: State, incidentId: Text, status: Activation, now: nat): State {
    var open := OpenCommitment(s, incidentId);
    if open.None? then s
    else
      match status
      case Available => Spawn(s, Settling(incidentId, open.value))
      case Failed => Spawn(s, Refunding(incidentId, open.value))
      case Observed(_) =>
        Emitted(s, NoteRow(ACTIVATION_OBSERVED, Some(incidentId), Some(open.value.nonce), now))
  }

  function Landing(s: State, i: nat, now: nat): State
    requires i < |s.tasks| && s.tasks[i].Waiting?
  {
    var w := s.tasks[i].work;
    if TxOf(w).None? then s
    else
      match Escrow.Execute(s.chain, TxOf(w).value, now)
      case Done(chain) => s.(chain := chain, tasks := s.tasks[i := Landed(w, |s.chain.log|)])
      case Abort(_) => s.(tasks := s.tasks[i := Ended])
  }

  function CommitData(v: Escrow.Voucher): Data {
    NO_DATA.(amount := Some(v.deal.amount), platformFee := Some(v.deal.fee), providerAmount := Some(v.share),
             voucherDigest := Some(v.deal.digest))
  }

  function SettleData(e: Entry): Data {
    var penalty := e.penaltyAmount.GetOr(0);
    NO_DATA.(amount := e.amount, providerAmount := e.providerAmount, platformFee := e.platformFee,
             penaltyAmount := Some(penalty), providerNetAmount := Some(e.providerAmount.GetOr(0) - penalty))
  }

  /** The row a method appends once the chain has answered. */
  function ResultRow(s: State, w: Work, digest: nat, now: nat): Row {
    var tx := Some(NatText(digest));
    match w
    case Committing(v, _, _, _) => Row(0, now, Committed, Some(v.deal.incidentId), Some(v.deal.nonce), tx, CommitData(v))
    case Confirming(incidentId, nonce, _, data, _) => Row(0, now, Committed, Some(incidentId), Some(nonce), tx, data)
    case Verifying(incidentId, nonce, logDigest, penalty) =>
      Row(0, now, DeliveryVerified, Some(incidentId), Some(nonce), tx,
          NO_DATA.(penaltyAmount := Some(penalty), connectionLogHash := Some(logDigest)))
    case Settling(incidentId, entry) => Row(0, now, Settled, Some(incidentId), Some(entry.nonce), tx, SettleData(entry))
    case Refunding(incidentId, entry) => Row(0, now, Refunded, Some(incidentId), Some(entry.nonce), tx, NO_DATA)
    case Reclaiming(nonce) =>
      var state := Find(Registered(s), nonce);
      Row(0, now, Reclaimed, if state.Some? then state.value.incidentId else None, Some(nonce), tx, NO_DATA)
  }

  /** The confirmation takes any commit event of the transaction it was told about. */
  predicate Confirmable(c: Escrow.Chain, digest: nat) {
    digest < |c.log| && c.log[digest].CommittedEvent?
  }

  /** The chain has no such transaction: reading it throws. */
  predicate UnknownDigest(c: Escrow.Chain, t: Task) {
    t.Waiting? && t.work.Confirming? && t.work.digest >= |c.log|
  }

  /** The row a method appends when it resumes; None while it still waits, or when reading the chain throws. */
  function FinalRow(s: State, t: Task, now: nat): Option<Row> {
    match t
    case Landed(w, digest) => Some(ResultRow(s, w, digest, now))
    case Waiting(Confirming(incidentId, nonce, digest, data, seen)) =>
      if Confirmable(s.chain, digest) then Some(ResultRow(s, t.work, digest, now))
      else if UnknownDigest(s.chain, t) then None
      else Some(NoteRow(VERIFICATION_FAILED, Some(incidentId), Some(nonce), now))
    case _ => None
  }

  function Finished(s: State, i: nat, now: nat): State
    requires i < |s.tasks|
  {
    var row, ended := FinalRow(s, s.tasks[i], now), s.(tasks := s.tasks[i := Ended]);
    if row.Some? then Emitted(ended, row.value) else if UnknownDigest(s.chain, s.tasks[i]) then ended else s
  }

  /** Transactions still under way outlive the methods that sent them. */
  function Pending(tasks: seq<Task>): seq<Escrow.Tx> {
    if tasks == [] then []
    else
      var t := tasks[|tasks| - 1];
      Pending(tasks[..|tasks| - 1]) + if t.Waiting? && TxOf(t.work).Some? then [TxOf(t.work).value] else []
  }

  function Executed(s: State, tx: Escrow.Tx, now: nat): State {
    match Escrow.Execute(s.chain, tx, now)
    case Done(chain) => s.(chain := chain)
    case Abort(_) => s
  }

  /** The row that a step appends on its way, if it appends one. */
  function Writes(s: State, step: Step): Option<Row> {
    match step
    case StartCommit(offer, _, _, now) =>
      var existing := Known(s, offer.nonce);
      if existing.Some? then
        Some(NoteRow(DUPLICATE_BLOCKED, existing.value.incidentId, Some(existing.value.nonce), now))
      else if offer.built.None? then Some(NoteRow(VERIFICATION_FAILED, Some(offer.incidentId), offer.nonce, now))
      else Some(NoteRow(VERIFIED, Some(offer.built.value.deal.incidentId), Some(offer.built.value.deal.nonce), now))
    case StartConfirm(_, nonce, _, _, now) =>
      var existing := Find(Registered(s), nonce);
      if existing.Some? then Some(NoteRow(DUPLICATE_BLOCKED, existing.value.incidentId, Some(nonce), now)) else None
    case StartActivation(incidentId, Observed(_), now) =>
      var open := OpenCommitment(s, incidentId);
      if open.Some? then Some(NoteRow(ACTIVATION_OBSERVED, Some(incidentId), Some(open.value.nonce), now)) else None
    case Finish(i, now) => if i < |s.tasks| then FinalRow(s, s.tasks[i], now) else None
    case Remark(row) => Some(row)
    case _ => None
  }

  /** A step that is not enabled changes nothing. */
  function Next(s: State, step: Step): State {
    match step
    case StartCommit(offer, authority, buyer, now) => StartedCommit(s, offer, authority, buyer, now)
    case StartConfirm(incidentId, nonce, digest, data, now) => StartedConfirm(s, incidentId, nonce, digest, data, now)
    case StartVerify(incidentId, report) => StartedVerify(s, incidentId, report)
    case StartActivation(incidentId, status, now) => StartedActivation(s, incidentId, status, now)
    case StartReclaim(nonce) => Spawn(s, Reclaiming(nonce))
    case Land(i, now) => if i < |s.tasks| && s.tasks[i].Waiting? then Landing(s, i, now) else s
    case Drop(i) =>
      if i < |s.tasks| && s.tasks[i].Waiting?
      then s.(tasks := s.tasks[i := Ended], orphans := s.orphans + Pending([s.tasks[i]])) else s
    case Finish(i, now) => if i < |s.tasks| then Finished(s, i, now) else s
    case LandOrphan(j, now) =>
      if j < |s.orphans| then Executed(s.(orphans := s.orphans[..j] + s.orphans[j + 1..]), s.orphans[j], now) else s
    case Outside(tx, now) => Executed(s, tx, now)
    case Remark(row) => Emitted(s, row)
    case Crash => Restarted(s)
    case CrashInAppend(during, kept) =>
      var row := Writes(s, during);
      if row.Some? then Restarted(Cut(s, row.value, kept)) else s
  }

  /** What the rest of the world is taken to respect: nonces are not empty, the voucher is for the nonce
      that was looked up, hashes are not empty, only the service holds the capability, and notes keep to their
      own types. */
  predicate Plausible(s: State, step: Step) {
    match step
    case StartCommit(offer, _, _, _) =>
      offer.built.Some? ==>
        offer.built.value.deal.nonce != [] && offer.nonce == Some(offer.built.value.deal.nonce)
    case StartConfirm(_, nonce, _, _, _) => nonce != []
    case StartVerify(_, report) => report.logDigest != []
    case StartReclaim(nonce) => nonce != []
    case Outside(tx, _) => tx.DepositTx? || tx.BuyerTx? || tx.ReclaimTx?
    case Remark(row) => row.kind.ClaimVerified? || (row.kind.Note? && ProperKind(row.kind))
    case CrashInAppend(during, _) => Plausible(s, during)
    case _ => true
  }

  /** Plausible, and what a commit or a confirmation reports is right. */
  predicate Proper(s: State, step: Step) {
    && Plausible(s, step)
    && (step.Finish? ==> HonestFinish(s, step.task))
    && (step.CrashInAppend? && step.during.Finish? ==> HonestFinish(s, step.during.task))
  }

  /** A commit that reports has a voucher whose share and fee add up to its amount, and a confirmation that goes through
      passes the checks that the code leaves out. */
  predicate HonestFinish(s: State, i: nat) {
    i < |s.tasks| ==>
      match s.tasks[i]
      case Landed(Committing(v, _, _, _), _) => AddsUp(v)
      case Waiting(Confirming(_, _, digest, _, _)) =>
        Confirmable(s.chain, digest) ==> HonestConfirmation(s.chain, s.tasks[i].work)
      case _ => true
  }

  predicate AddsUp(v: Escrow.Voucher) {
    v.share + v.deal.fee == v.deal.amount
  }

  /** What `confirmZkCommit` does not check of the transaction it is told about: that its event is for this
      nonce, and that the amounts the caller states are the ones committed. */
  predicate HonestConfirmation(c: Escrow.Chain, w: Work)
    requires w.Confirming? && Confirmable(c, w.digest)
  {
    c.log[w.digest].nonce == w.nonce && (w.nonce in c.commitments ==> DataTrue(c.commitments[w.nonce], w.data))
  }

  /** Amounts that are present agree with the commitment. */
  predicate DataTrue(k: Escrow.Commitment, d: Data) {
    && (d.amount.Some? ==> d.amount.value == k.deal.amount)
    && (d.providerAmount.Some? ==> d.providerAmount.value + k.deal.fee == k.deal.amount)
    && (d.platformFee.Some? ==> d.platformFee.value == k.deal.fee)
  }

  function Run(s: State, steps: seq<Step>): State {
    if steps == [] then s else Next(Run(s, steps[..|steps| - 1]), steps[|steps| - 1])
  }

  predicate ProperRun(s: State, steps: seq<Step>) {
    steps != [] ==>
      var init := steps[..|steps| - 1];
      ProperRun(s, init) && Proper(Run(s, init), steps[|steps| - 1])
  }

  lemma InitAndLast<T>(first: seq<T>, second: seq<T>)
    requires second != []
    ensures first + second == first + second[..|second| - 1] + [second[|second| - 1]]
  {}

  lemma RunLast(s: State, steps: seq<Step>, step: Step)
    ensures Run(s, steps + [step]) == Next(Run(s, steps), step)
  {
    assert (steps + [step])[..|steps|] == steps;
  }

  lemma {:induction false} RunInTwo(s: State, first: seq<Step>, second: seq<Step>)
    ensures Run(s, first + second) == Run(Run(s, first), second)
  {
    if second == [] {
      assert first + second == first;
    } else {
      RunInTwo(s, first, second[..|second| - 1]);
      InitAndLast(first, second);
      RunLast(s, first + second[..|second| - 1], second[|second| - 1]);
    }
  }
}
