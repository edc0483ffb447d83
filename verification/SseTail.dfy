/** The ledger tail that feeds the event stream (src/sui/server.js). */
module SseTail {
  import opened Units
  import opened LedgerText
  import opened Events

  /** What `JSON.parse` makes of each line. */
  function Parsed(lines: seq<Text>): (p: seq<Option<Row>>)
    ensures |p| == |lines| && forall i :: 0 <= i < |lines| ==> p[i] == ReadLine(lines[i])
  {
    seq(|lines|, i requires 0 <= i < |lines| => ReadLine(lines[i]))
  }

  /** The loop over one reading of the file: rows above the last sequence number are sent, and a line that does not
      parse throws, which ends the tick. The rows sent, and the last sequence number after them. */
  function Deliver(parsed: seq<Option<Row>>, lastSeq: nat): (seq<Row>, nat) {
    if parsed == [] || parsed[0].None? then ([], lastSeq)
    else
      var row := parsed[0].value;
      if row.seqNo > lastSeq then
        var more := Deliver(parsed[1..], row.seqNo);
        ([row] + more.0, more.1)
      else Deliver(parsed[1..], lastSeq)
  }

  class Tail {
    var lastSeq: nat
    /** What has been written to every client, oldest first. */
    var sent: seq<Row>

    /** The server starts behind the rows already there: it counts the lines. */
    constructor (file: Text)
      ensures lastSeq == |Lines(file)| && sent == []
    {
      lastSeq := |Lines(file)|;
      sent := [];
    }

    method Tick(file: Text)
      modifies this
      ensures var d := Deliver(Parsed(Lines(file)), old(lastSeq)); sent == old(sent) + d.0 && lastSeq == d.1
    {
      Broadcast(Parsed(Lines(file)));
    }

    /** The loop over the lines of one reading. */
    method Broadcast(parsed: seq<Option<Row>>)
      modifies this
      ensures var d := Deliver(parsed, old(lastSeq)); sent == old(sent) + d.0 && lastSeq == d.1
    {
      var i := 0;
      ghost var all := Deliver(parsed, lastSeq);
      assert parsed[0..] == parsed;
      while i < |parsed|
        invariant i <= |parsed|
        invariant old(sent) + all.0 == sent + Deliver(parsed[i..], lastSeq).0
        invariant all.1 == Deliver(parsed[i..], lastSeq).1
      {
        assert parsed[i..][1..] == parsed[i + 1..];
        if parsed[i].None? {
          return;
        }
        var event := parsed[i].value;
        if event.seqNo > lastSeq {
          lastSeq := event.seqNo;
          sent := sent + [event];
        }
        i := i + 1;
      }
    }
  }

  // ---- A ledger without torn rows -----------------------------------------------------------------

  /** Every line parses, and the k-th carries sequence number k. */
  ghost predicate Whole(parsed: seq<Option<Row>>, rows: seq<Row>) {
    |parsed| == |rows| && forall k :: 0 <= k < |rows| ==> parsed[k] == Some(rows[k]) && rows[k].seqNo == k + 1
  }

  lemma SkipOne(parsed: seq<Option<Row>>, k: nat, last: nat)
    requires k < |parsed| && parsed[k].Some? && parsed[k].value.seqNo <= last
    ensures Deliver(parsed[k..], last) == Deliver(parsed[k + 1..], last)
  {
    assert parsed[k..][1..] == parsed[k + 1..];
  }

  lemma SendOne(parsed: seq<Option<Row>>, k: nat, last: nat)
    requires k < |parsed| && parsed[k].Some? && parsed[k].value.seqNo > last
    ensures var row := parsed[k].value;
            var more := Deliver(parsed[k + 1..], row.seqNo);
            Deliver(parsed[k..], last) == ([row] + more.0, more.1)
  {
    assert parsed[k..][1..] == parsed[k + 1..];
  }

  /** A tick that has sent everything up to `last` sends exactly the rows after it. */
  lemma {:induction false} DeliversTheRest(parsed: seq<Option<Row>>, rows: seq<Row>, k: nat, last: nat)
    requires Whole(parsed, rows) && k <= last <= |rows|
    ensures Deliver(parsed[k..], last) == (rows[last..], |rows|)
    decreases |parsed| - k
  {
    if k < last {
      SkipOne(parsed, k, last);
      DeliversTheRest(parsed, rows, k + 1, last);
    } else if k < |parsed| {
      SendOne(parsed, k, last);
      DeliversTheRest(parsed, rows, k + 1, k + 1);
      assert rows[k..] == [rows[k]] + rows[k + 1..];
    } else {
      assert parsed[k..] == [] && rows[k..] == [];
    }
  }

  /** What a tail that started behind `from` rows has sent when it is up to date with these rows. */
  predicate CaughtUp(sent: seq<Row>, lastSeq: nat, rows: seq<Row>, from: nat) {
    from <= lastSeq == |rows| && sent == rows[from..]
  }

  lemma RestIsSent(sent: seq<Row>, lastSeq: nat, parsed: seq<Option<Row>>, rows: seq<Row>, from: nat)
    requires from <= lastSeq <= |rows| && sent == rows[from..lastSeq] && Whole(parsed, rows)
    ensures var d := Deliver(parsed, lastSeq); CaughtUp(sent + d.0, d.1, rows, from)
  {
    assert parsed[0..] == parsed;
    DeliversTheRest(parsed, rows, 0, lastSeq);
    assert rows[from..] == rows[from..lastSeq] + rows[lastSeq..];
  }

  /** However many rows were appended since the last tick, the next one brings the tail up to date: every row appended
      after the start has then been sent exactly once, in append order. */
  lemma TickCatchesUp(sent: seq<Row>, lastSeq: nat, before: seq<Row>, parsed: seq<Option<Row>>, rows: seq<Row>, from: nat)
    requires CaughtUp(sent, lastSeq, before, from) && Whole(parsed, rows) && before <= rows
    ensures var d := Deliver(parsed, lastSeq); CaughtUp(sent + d.0, d.1, rows, from)
  {
    assert rows[from..lastSeq] == before[from..];
    RestIsSent(sent, lastSeq, parsed, rows, from);
  }

  /** Rows of a file that has one for every line. */
  lemma {:induction false} AllLinesParse(lines: seq<Text>)
    ensures |RowsOf(lines)| <= |lines|
    ensures |RowsOf(lines)| == |lines| ==> forall k :: 0 <= k < |lines| ==> ReadLine(lines[k]) == Some(RowsOf(lines)[k])
  {
    if lines != [] {
      var n := |lines| - 1;
      AllLinesParse(lines[..n]);
      assert lines == lines[..n] + [lines[n]];
      RowsOfAppend(lines[..n], lines[n]);
    }
  }

  /** The files that emits alone leave behind are whole. */
  lemma EmittedFilesAreWhole(file: Text, ops: seq<Op>)
    requires KeepsAll(file, ops)
    ensures Whole(Parsed(Lines(file)), RowsIn(file))
  {
    AllLinesParse(Lines(file));
  }

  // ---- Runs ------------------------------------------------------------------------------------------

  /** Ledger file and tail together. */
  datatype Feed = Feed(file: Text, lastSeq: nat, sent: seq<Row>)

  /** `emit` appends a row or a crash tears one; the timer fires. */
  datatype Move = Append(op: Op) | Fire

  /** After a crash the server starts again behind the lines it finds. */
  function Moved(f: Feed, m: Move): Feed {
    match m
    case Append(op) =>
      var file := FileAfter(f.file, op);
      if op.Emit? then f.(file := file) else Feed(file, |Lines(file)|, f.sent)
    case Fire =>
      var d := Deliver(Parsed(Lines(f.file)), f.lastSeq);
      f.(lastSeq := d.1, sent := f.sent + d.0)
  }

  function Fed(f: Feed, moves: seq<Move>): Feed {
    if moves == [] then f else Moved(Fed(f, moves[..|moves| - 1]), moves[|moves| - 1])
  }

  predicate ProperMove(m: Move) {
    m.Append? ==> ProperOp(m.op)
  }

  predicate EmitsAndFires(moves: seq<Move>) {
    forall i :: 0 <= i < |moves| ==> ProperMove(moves[i]) && (moves[i].Append? ==> moves[i].op.Emit?)
  }

  function Emits(moves: seq<Move>): seq<Op> {
    if moves == [] then []
    else
      var last := moves[|moves| - 1];
      Emits(moves[..|moves| - 1]) + if last.Append? then [last.op] else []
  }

  /** What a tail that started behind `from` rows has sent of these rows at any moment. */
  predicate UpTo(f: Feed, rows: seq<Row>, from: nat) {
    from <= f.lastSeq <= |rows| && f.sent == rows[from..f.lastSeq]
  }

  lemma EmitStaysUpTo(f: Feed, ops: seq<Op>, op: Op, from: nat)
    requires KeepsAll(f.file, ops) && UpTo(f, RowsIn(f.file), from) && op.Emit? && ProperOp(op)
    ensures var d := Moved(f, Append(op)); KeepsAll(d.file, ops + [op]) && UpTo(d, RowsIn(d.file), from)
  {
    var row := Numbered(op.row, f.file);
    EmitSurvivesIffTerminated(f.file, row);
    OneEmit(f.file, op.row, ops);
    assert RowsIn(FileAfter(f.file, op)) == RowsIn(f.file) + [row];
    MoreRows(f, RowsIn(f.file), row, from);
  }

  lemma MoreRows(f: Feed, rows: seq<Row>, row: Row, from: nat)
    requires UpTo(f, rows, from)
    ensures UpTo(f, rows + [row], from)
  {
    assert (rows + [row])[from..f.lastSeq] == rows[from..f.lastSeq];
  }

  lemma FireCatchesUp(f: Feed, ops: seq<Op>, from: nat)
    requires KeepsAll(f.file, ops) && UpTo(f, RowsIn(f.file), from)
    ensures CaughtUp(Moved(f, Fire).sent, Moved(f, Fire).lastSeq, RowsIn(f.file), from)
  {
    EmittedFilesAreWhole(f.file, ops);
    RestIsSent(f.sent, f.lastSeq, Parsed(Lines(f.file)), RowsIn(f.file), from);
  }

  /** The file holds what was emitted, and the tail has sent the first part of it, or after a tick all of it. */
  ghost predicate Follows(f: Feed, ops: seq<Op>, from: nat, ticked: bool) {
    && KeepsAll(f.file, ops) && UpTo(f, RowsIn(f.file), from)
    && (ticked ==> CaughtUp(f.sent, f.lastSeq, RowsIn(f.file), from))
  }

  lemma MoveFollows(f: Feed, ops: seq<Op>, from: nat, ticked: bool, m: Move)
    requires Follows(f, ops, from, ticked) && ProperMove(m) && (m.Append? ==> m.op.Emit?)
    ensures Follows(Moved(f, m), ops + (if m.Append? then [m.op] else []), from, m.Fire?)
  {
    if m.Fire? {
      FireCatchesUp(f, ops, from);
      assert ops + [] == ops;
    } else {
      EmitStaysUpTo(f, ops, m.op, from);
    }
  }

  lemma EmitsOneMore(before: seq<Op>, moves: seq<Move>)
    requires moves != []
    ensures var last := moves[|moves| - 1];
            before + Emits(moves[..|moves| - 1]) + (if last.Append? then [last.op] else []) == before + Emits(moves)
  {}

  /** From a tail started on a ledger that emits alone have written, whatever is emitted and whenever the timer fires:
      after every tick exactly the rows emitted since the start have been sent, each once and in order. */
  lemma {:induction false} EveryTickCatchesUp(file: Text, before: seq<Op>, moves: seq<Move>)
    requires KeepsAll(file, before) && EmitsAndFires(moves)
    ensures var f := Fed(Feed(file, |Lines(file)|, []), moves);
            Follows(f, before + Emits(moves), |before|, moves != [] && moves[|moves| - 1].Fire?)
  {
    if moves == [] {
      assert before + [] == before;
    } else {
      var init, last := moves[..|moves| - 1], moves[|moves| - 1];
      EveryTickCatchesUp(file, before, init);
      MoveFollows(Fed(Feed(file, |Lines(file)|, []), init), before + Emits(init), |before|,
                  init != [] && init[|init| - 1].Fire?, last);
      EmitsOneMore(before, moves);
    }
  }

  /** What has been sent after a tick, row by row: the k-th is the k-th emitted since the start, under its number. */
  lemma SentAreTheEmitted(file: Text, before: seq<Op>, moves: seq<Move>, k: nat)
    requires KeepsAll(file, before) && EmitsAndFires(moves) && moves != [] && moves[|moves| - 1].Fire?
    ensures var f := Fed(Feed(file, |Lines(file)|, []), moves);
            && |f.sent| == |Emits(moves)|
            && (k < |f.sent| ==> f.sent[k] == Emits(moves)[k].row.(seqNo := |before| + k + 1))
  {
    EveryTickCatchesUp(file, before, moves);
    var f := Fed(Feed(file, |Lines(file)|, []), moves);
    CaughtUpRows(f, before, Emits(moves), k);
  }

  lemma CaughtUpRows(f: Feed, before: seq<Op>, emitted: seq<Op>, k: nat)
    requires Follows(f, before + emitted, |before|, true)
    ensures |f.sent| == |emitted|
    ensures k < |f.sent| ==> f.sent[k] == emitted[k].row.(seqNo := |before| + k + 1)
  {
    if k < |f.sent| {
      assert f.sent[k] == RowsIn(f.file)[|before| + k] && (before + emitted)[|before| + k] == emitted[k];
    }
  }

  // ---- A torn row ------------------------------------------------------------------------------------

  /** A line that does not parse ends every tick: no row behind it is ever sent. */
  lemma {:induction false} TornLineBlocks(parsed: seq<Option<Row>>, j: nat, lastSeq: nat)
    requires j < |parsed| && parsed[j].None?
    ensures Deliver(parsed, lastSeq) == Deliver(parsed[..j], lastSeq)
  {
    if j > 0 && parsed[0].Some? {
      assert parsed[1..][j - 1] == parsed[j] && parsed[1..][..j - 1] == parsed[..j][1..];
      var row := parsed[0].value;
      TornLineBlocks(parsed[1..], j - 1, if row.seqNo > lastSeq then row.seqNo else lastSeq);
    }
  }

  /** Line j, counted from 0, does not parse. */
  ghost predicate Unreadable(file: Text, j: nat) {
    LedgerFile(file) && j < |Lines(file)| && ReadLine(Lines(file)[j]).None?
  }

  lemma GlueKeepsUnreadable(lines: seq<Text>, terminated: bool, row: Row, kept: nat, j: nat)
    requires GoodLines(lines) && j < |lines| && ReadLine(lines[j]).None?
    requires ProperKind(row.kind) && 0 < kept <= |RowText(row)|
    ensures var after := Glue(lines, terminated, RowText(row)[..kept]); j < |after| && ReadLine(after[j]).None?
  {
    if !terminated && j == |lines| - 1 {
      GluedLine(lines[j], j + 1, row, kept);
      GoodLineReads(lines[j] + RowText(row)[..kept], j + 1);
    }
  }

  /** Whatever is appended later, a line that does not parse never parses again. */
  lemma OpKeepsUnreadable(file: Text, op: Op, j: nat)
    requires Unreadable(file, j) && ProperOp(op)
    ensures Unreadable(FileAfter(file, op), j)
  {
    var row := Numbered(op.row, file);
    var text := RowText(row);
    var kept := if op.Emit? || op.kept > |text| then |text| else op.kept;
    RowTextShape(row);
    StepKeepsLedger(file, op);
    assert text[..|text|] == text && file + [] == file && text[..0] == [];
    if kept > 0 {
      NewLine(row, kept);
      AppendLines(file, text[..kept]);
      GlueKeepsUnreadable(Lines(file), Terminated(file), row, kept, j);
    }
  }

  /** The rows sent are numbered at most `j`: they stand before line j. */
  predicate AllBefore(sent: seq<Row>, j: nat) {
    forall i :: 0 <= i < |sent| ==> sent[i].seqNo <= j
  }

  lemma {:induction false} DeliveredAreRead(parsed: seq<Option<Row>>, lastSeq: nat, j: nat)
    requires forall k :: 0 <= k < |parsed| && parsed[k].Some? ==> parsed[k].value.seqNo <= j
    ensures AllBefore(Deliver(parsed, lastSeq).0, j)
  {
    if parsed != [] && parsed[0].Some? {
      var row := parsed[0].value;
      DeliveredAreRead(parsed[1..], if row.seqNo > lastSeq then row.seqNo else lastSeq, j);
    }
  }

  lemma FireStaysBefore(file: Text, lastSeq: nat, j: nat)
    requires Unreadable(file, j)
    ensures AllBefore(Deliver(Parsed(Lines(file)), lastSeq).0, j)
  {
    var lines := Lines(file);
    var head := Parsed(lines)[..j];
    TornLineBlocks(Parsed(lines), j, lastSeq);
    forall k | 0 <= k < |head| && head[k].Some? ensures head[k].value.seqNo <= j {
      assert GoodLine(lines[k], k + 1);
      GoodLineReads(lines[k], k + 1);
    }
    DeliveredAreRead(head, lastSeq, j);
  }

  /** A line that does not parse blocks the stream for good: whatever is emitted or torn afterwards, however often the
      server restarts and the timer fires, no row behind that line is ever sent. */
  lemma {:induction false} TornLineBlocksForGood(f: Feed, moves: seq<Move>, j: nat)
    requires Unreadable(f.file, j) && AllBefore(f.sent, j)
    requires forall i :: 0 <= i < |moves| ==> ProperMove(moves[i])
    ensures Unreadable(Fed(f, moves).file, j) && AllBefore(Fed(f, moves).sent, j)
  {
    if moves != [] {
      var before, last := Fed(f, moves[..|moves| - 1]), moves[|moves| - 1];
      TornLineBlocksForGood(f, moves[..|moves| - 1], j);
      if last.Append? {
        OpKeepsUnreadable(before.file, last.op, j);
      } else {
        FireStaysBefore(before.file, before.lastSeq, j);
      }
    }
  }
}
