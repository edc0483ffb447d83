/** The trust service itself (src/sui/service.js): one object over the ledger file, whose methods are the
    stretches of code between two awaits. Each does to the file and to memory what its step says, on every
    file that emits and crashes can leave behind. */
module TrustService {
  import opened Units
  import opened LedgerText
  import opened Events
  import opened TrustSteps
  import Delivery
  import Digits
  import Escrow

  /** How this file ends. */
  ghost function TailOf(file: Text): Tail {
    var lines := Lines(file);
    if Terminated(file) then Complete
    else if lines != [] && ReadLine(lines[|lines| - 1]).Some? then Bare else Garbled
  }

  /** The state that a ledger file, the registry in memory and the rest of the service stand for. */
  ghost function StateOf(file: Text, registry: Registry, chain: Escrow.Chain, tasks: seq<Task>, orphans: seq<Escrow.Tx>): State {
    State(RowsIn(file), |Lines(file)|, TailOf(file), registry, chain, tasks, orphans)
  }

  lemma BareRowIsLast(file: Text)
    requires !Terminated(file) && Lines(file) != []
    ensures RowsBeforeLast(file) == if TailOf(file) == Bare then RowsIn(file)[..|RowsIn(file)| - 1] else RowsIn(file)
    ensures TailOf(file) == Bare ==> RowsIn(file) != []
  {
    var lines := Lines(file);
    var n := |lines| - 1;
    assert lines == lines[..n] + [lines[n]];
    RowsOfAppend(lines[..n], lines[n]);
  }

  /** What `emit` does to any ledger file, torn or not, is what the step says. */
  lemma EmitIsAStep(file: Text, registry: Registry, row: Row, event: Row, after: Text,
                    chain: Escrow.Chain, tasks: seq<Task>, orphans: seq<Escrow.Tx>)
    requires LedgerFile(file) && ProperKind(row.kind)
    requires event == Row(|Lines(file)| + 1, row.ts, row.kind, row.incidentId, row.nonce, row.txDigest, row.data)
    requires after == file + RowText(event) + [NEWLINE]
    ensures LedgerFile(after)
    ensures StateOf(after, Index(Replay(RowsIn(file)), event), chain, tasks, orphans)
         == Emitted(StateOf(file, registry, chain, tasks, orphans), row)
  {
    EmitLines(file, event);
    EmitSurvivesIffTerminated(file, event);
    if !Terminated(file) {
      BareRowIsLast(file);
    }
  }

  function KeptOf(event: Row, kept: nat): Kept {
    if kept == 0 then Nothing else if kept < |RowText(event)| then Part else All
  }

  lemma CutOnItsOwnLine(file: Text, event: Row, kept: nat)
    requires LedgerFile(file) && Terminated(file) && ProperKind(event.kind)
    requires event.seqNo == |Lines(file)| + 1 && 0 < kept <= |RowText(event)|
    ensures var after := file + RowText(event)[..kept];
            && LedgerFile(after) && |Lines(after)| == |Lines(file)| + 1
            && RowsIn(after) == RowsIn(file) + (if kept == |RowText(event)| then [event] else [])
            && TailOf(after) == (if kept == |RowText(event)| then Bare else Garbled)
  {
    var e := RowText(event)[..kept];
    CrashLosesOnlyTheTornRow(file, event, kept);
    NewLine(event, kept);
    AppendLines(file, e);
    GoodLineReads(e, event.seqNo);
    if kept == |RowText(event)| {
      assert e == RowText(event);
      ReadWritten(event);
    }
  }

  lemma CutGlued(file: Text, event: Row, kept: nat)
    requires LedgerFile(file) && !Terminated(file) && ProperKind(event.kind)
    requires event.seqNo == |Lines(file)| + 1 && 0 < kept <= |RowText(event)|
    ensures var after := file + RowText(event)[..kept];
            && Lines(file) != [] && LedgerFile(after) && |Lines(after)| == |Lines(file)|
            && RowsIn(after) == RowsBeforeLast(file) && TailOf(after) == Garbled
  {
    var e, lines := RowText(event)[..kept], Lines(file);
    NewLine(event, kept);
    AppendKeeps(file, event, kept);
    AppendShaped(file, e);
    AppendLines(file, e);
    var n := |lines| - 1;
    GluedLine(lines[n], n + 1, event, kept);
    GoodLineReads(lines[n] + e, n + 1);
    RowsOfAppend(lines[..n], lines[n] + e);
  }

  lemma CutOwnIsAStep(s: State, file: Text, row: Row, event: Row, kept: nat)
    requires LedgerFile(file) && Terminated(file) && ProperKind(row.kind) && 0 < kept <= |RowText(event)|
    requires s.rows == RowsIn(file) && s.lines == |Lines(file)| && s.tail == Complete && event == Stamped(s, row)
    ensures var d, after := Cut(s, row, KeptOf(event, kept)), file + RowText(event)[..kept];
            && LedgerFile(after) && d.rows == RowsIn(after) && d.lines == |Lines(after)| && d.tail == TailOf(after)
  {
    CutOnItsOwnLine(file, event, kept);
  }

  lemma CutGluedIsAStep(s: State, file: Text, row: Row, event: Row, kept: nat)
    requires LedgerFile(file) && !Terminated(file) && ProperKind(row.kind) && 0 < kept <= |RowText(event)|
    requires s.rows == RowsIn(file) && s.lines == |Lines(file)| && s.tail == TailOf(file) && event == Stamped(s, row)
    ensures var d, after := Cut(s, row, KeptOf(event, kept)), file + RowText(event)[..kept];
            && LedgerFile(after) && d.rows == RowsIn(after) && d.lines == |Lines(after)| && d.tail == TailOf(after)
  {
    CutGlued(file, event, kept);
    BareRowIsLast(file);
  }

  /** What a crash in the middle of `emit` leaves of any ledger file is what the step says. */
  lemma CutIsAStep(file: Text, registry: Registry, row: Row, event: Row, kept: nat,
                   chain: Escrow.Chain, tasks: seq<Task>, orphans: seq<Escrow.Tx>)
    requires LedgerFile(file) && ProperKind(row.kind) && kept <= |RowText(event)|
    requires event == Row(|Lines(file)| + 1, row.ts, row.kind, row.incidentId, row.nonce, row.txDigest, row.data)
    ensures LedgerFile(file + RowText(event)[..kept])
    ensures StateOf(file + RowText(event)[..kept], registry, chain, tasks, orphans)
         == Cut(StateOf(file, registry, chain, tasks, orphans), row, KeptOf(event, kept))
  {
    var s := StateOf(file, registry, chain, tasks, orphans);
    if kept == 0 {
      assert file + RowText(event)[..0] == file;
    } else if Terminated(file) {
      CutOwnIsAStep(s, file, row, event, kept);
    } else {
      CutGluedIsAStep(s, file, row, event, kept);
    }
  }

  lemma NotesAreProper()
    ensures ProperKind(DUPLICATE_BLOCKED) && ProperKind(VERIFICATION_FAILED) && ProperKind(VERIFIED) && ProperKind(ACTIVATION_OBSERVED)
  {
    assert DUPLICATE_BLOCKED.name[1] == 0x55 && DELIVERY_VERIFIED[1] == 0x45;
    assert |COMMITTED| == 9 && |SETTLED| == 7 && |REFUNDED| == 8 && |RECLAIMED| == 9 && |CLAIM_VERIFIED| == 14;
    assert VERIFIED.name[0] == 0x56 && REFUNDED[0] == 0x52 && |VERIFICATION_FAILED.name| == 19 && |DELIVERY_VERIFIED| == 17;
    assert |DUPLICATE_BLOCKED.name| == 17 && |VERIFIED.name| == 8 && |ACTIVATION_OBSERVED.name| == 19;
  }

  class TrustService {
    const ledger: EventLedger
    /** The chain, which the service reaches only through transactions. */
    var chain: Escrow.Chain
    /** Methods waiting at an await. */
    var tasks: seq<Task>
    /** Transactions whose sender is gone. */
    var orphans: seq<Escrow.Tx>

    ghost predicate Valid()
      reads this, ledger
    {
      LedgerFile(ledger.file)
    }

    ghost function Abstract(): State
      reads this, ledger
    {
      StateOf(ledger.file, ledger.registry, chain, tasks, orphans)
    }

    constructor (ledger: EventLedger, chain: Escrow.Chain, orphans: seq<Escrow.Tx>)
      requires LedgerFile(ledger.file)
      ensures Valid() && this.ledger == ledger
      ensures Abstract() == StateOf(ledger.file, ledger.registry, chain, [], orphans)
    {
      this.ledger := ledger;
      this.chain := chain;
      this.tasks := [];
      this.orphans := orphans;
    }

    /** `this.ledger.emit(…)` */
    method Append(row: Row)
      requires Valid() && ProperKind(row.kind)
      modifies this, ledger
      ensures Valid() && Abstract() == Emitted(old(Abstract()), row)
    {
      ghost var file, registry := ledger.file, ledger.registry;
      var event := ledger.Emit(row.kind, row.incidentId, row.nonce, row.txDigest, row.data, row.ts);
      EmitIsAStep(file, registry, row, event, ledger.file, chain, tasks, orphans);
    }

    /** `commit` up to its chain call. */
    method Commit(offer: Offer, authority: Escrow.Authority, buyer: Text, now: nat)
      requires Valid()
      modifies this, ledger
      ensures Valid() && Abstract() == Next(old(Abstract()), StartCommit(offer, authority, buyer, now))
    {
      NotesAreProper();
      var existing := None;
      if offer.nonce.Some? {
        existing := ledger.Lookup(offer.nonce.value);
      }
      if existing.Some? {
        Append(NoteRow(DUPLICATE_BLOCKED, existing.value.incidentId, Some(existing.value.nonce), now));
        return;
      }
      if offer.built.None? {
        Append(NoteRow(VERIFICATION_FAILED, Some(offer.incidentId), offer.nonce, now));
        return;
      }
      var voucher := offer.built.value;
      var seen := |RowsIn(ledger.file)|;
      Append(NoteRow(VERIFIED, Some(voucher.deal.incidentId), Some(voucher.deal.nonce), now));
      tasks := tasks + [Waiting(Committing(voucher, authority, buyer, seen))];
    }

    /** `confirmZkCommit` up to its chain call. */
    method ConfirmZkCommit(incidentId: Text, nonce: Text, digest: nat, data: Data, now: nat)
      requires Valid()
      modifies this, ledger
      ensures Valid() && Abstract() == Next(old(Abstract()), StartConfirm(incidentId, nonce, digest, data, now))
    {
      NotesAreProper();
      var existing := ledger.Lookup(nonce);
      if existing.Some? {
        Append(NoteRow(DUPLICATE_BLOCKED, existing.value.incidentId, Some(existing.value.nonce), now));
        return;
      }
      tasks := tasks + [Waiting(Confirming(incidentId, nonce, digest, data, |RowsIn(ledger.file)|))];
    }

    /** The first commitment of the incident that is still COMMITTED. */
    method FindOpen(incidentId: Text) returns (found: Option<Entry>)
      requires Valid()
      ensures found == OpenCommitment(Abstract(), incidentId)
    {
      var commitments := ledger.ByIncident(incidentId);
      var i := 0;
      found := None;
      while i < |commitments|
        invariant i <= |commitments|
        invariant FirstCommitted(commitments) == FirstCommitted(commitments[i..])
      {
        if commitments[i].status == Committed {
          return Some(commitments[i]);
        }
        assert commitments[i..][1..] == commitments[i + 1..];
        i := i + 1;
      }
    }

    /** `verifyDelivery` up to its chain call; it throws without an open commitment or a valid report. */
    method VerifyDelivery(incidentId: Text, report: Report)
      requires Valid()
      modifies this
      ensures Valid() && Abstract() == Next(old(Abstract()), StartVerify(incidentId, report))
    {
      var commitment := FindOpen(incidentId);
      if commitment.None? {
        return;
      }
      var check := Delivery.CheckDelivery(report.promised, report.samples, report.tolerance);
      if check.None? {
        return;
      }
      var penalty := Delivery.Penalty(commitment.value.providerAmount.GetOr(0), check.value.penaltyPct);
      tasks := tasks + [Waiting(Verifying(incidentId, commitment.value.nonce, report.logDigest, penalty))];
    }

    /** `activation` up to its chain call. */
    method Activation(incidentId: Text, status: TrustSteps.Activation, now: nat)
      requires Valid()
      modifies this, ledger
      ensures Valid() && Abstract() == StartedActivation(old(Abstract()), incidentId, status, now)
    {
      var commitment := FindOpen(incidentId);
      if commitment.None? {
        return;
      }
      if status == Available {
        tasks := tasks + [Waiting(Settling(incidentId, commitment.value))];
      } else if status == Failed {
        tasks := tasks + [Waiting(Refunding(incidentId, commitment.value))];
      } else {
        NotesAreProper();
        Append(NoteRow(ACTIVATION_OBSERVED, Some(incidentId), Some(commitment.value.nonce), now));
      }
    }

    /** `reclaim` goes straight to the chain. */
    method Reclaim(nonce: Text)
      requires Valid()
      modifies this
      ensures Valid() && Abstract() == Next(old(Abstract()), StartReclaim(nonce))
    {
      tasks := tasks + [Waiting(Reclaiming(nonce))];
    }

    /** What follows the await: the row, once the chain has answered. */
    method Resume(i: nat, now: nat)
      requires Valid() && i < |tasks|
      modifies this, ledger
      ensures Valid() && Abstract() == Finished(old(Abstract()), i, now)
    {
      var row := RowToAppend(tasks[i], now);
      if row.Some? {
        tasks := tasks[i := Ended];
        Append(row.value);
      } else if UnknownDigest(chain, tasks[i]) {
        tasks := tasks[i := Ended];
      }
    }

    method RowToAppend(task: Task, now: nat) returns (row: Option<Row>)
      requires Valid()
      ensures row == FinalRow(Abstract(), task, now) && (row.Some? ==> ProperKind(row.value.kind))
    {
      if task.Ended? || (task.Waiting? && !task.work.Confirming?) || UnknownDigest(chain, task) {
        return None;
      }
      if task.Waiting? && !Confirmable(chain, task.work.digest) {
        NotesAreProper();
        return Some(NoteRow(VERIFICATION_FAILED, Some(task.work.incidentId), Some(task.work.nonce), now));
      }
      var result := BuildRow(task.work, if task.Landed? then task.digest else task.work.digest, now);
      return Some(result);
    }

    /** The payload each method hands to `emit`. */
    method BuildRow(work: Work, digest: nat, now: nat) returns (row: Row)
      requires Valid()
      ensures row == ResultRow(Abstract(), work, digest, now) && ProperKind(row.kind)
    {
      var tx := Some(Digits.NatText(digest));
      match work {
        case Committing(v, _, _, _) =>
          row := Row(0, now, Committed, Some(v.deal.incidentId), Some(v.deal.nonce), tx, CommitData(v));
        case Confirming(incidentId, nonce, _, data, _) =>
          row := Row(0, now, Committed, Some(incidentId), Some(nonce), tx, data);
        case Verifying(incidentId, nonce, logDigest, penalty) =>
          row := Row(0, now, DeliveryVerified, Some(incidentId), Some(nonce), tx,
                     NO_DATA.(penaltyAmount := Some(penalty), connectionLogHash := Some(logDigest)));
        case Settling(incidentId, entry) =>
          row := Row(0, now, Settled, Some(incidentId), Some(entry.nonce), tx, SettleData(entry));
        case Refunding(incidentId, entry) =>
          row := Row(0, now, Refunded, Some(incidentId), Some(entry.nonce), tx, NO_DATA);
        case Reclaiming(nonce) =>
          var state := ledger.Lookup(nonce);
          row := Row(0, now, Reclaimed, if state.Some? then state.value.incidentId else None, Some(nonce), tx, NO_DATA);
      }
    }

    /** The transaction of a waiting method is executed. */
    method TransactionLands(i: nat, now: nat)
      requires Valid()
      modifies this
      ensures Valid() && Abstract() == Next(old(Abstract()), Land(i, now))
    {
      if i < |tasks| && tasks[i].Waiting? && TxOf(tasks[i].work).Some? {
        var outcome := Escrow.Execute(chain, TxOf(tasks[i].work).value, now);
        if outcome.Done? {
          tasks := tasks[i := Landed(tasks[i].work, |chain.log|)];
          chain := outcome.chain;
        } else {
          tasks := tasks[i := Ended];
        }
      }
    }

    /** A crash and the restart after it: memory is lost, the registry is rebuilt from the file. */
    method CrashAndRestart()
      requires Valid()
      modifies this, ledger
      ensures Valid() && Abstract() == Next(old(Abstract()), Step.Crash)
    {
      orphans := orphans + Pending(tasks);
      tasks := [];
      var count := ledger.Rebuild();
    }
  }
}
