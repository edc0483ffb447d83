/** The event ledger: an append-only file and the nonce registry over it (src/sui/events.js). */
module Events {
  import opened Units
  import opened TornText
  import opened LedgerText

  // ---- The registry: an insertion-ordered map from nonce to commitment state --------

  datatype Entry = Entry(
    nonce: Text,
    incidentId: Option<Text>,
    txDigest: Option<Text>,
    status: Kind,
    committedAtMs: Option<nat>,
    closedAtMs: Option<nat>,
    amount: Option<nat>,
    providerAmount: Option<nat>,
    platformFee: Option<nat>,
    voucherDigest: Option<Text>,
    penaltyAmount: Option<nat>,
    connectionLogHash: Option<Text>,
    claimStatus: Option<Text>,
    providerNetAmount: Option<int>)

  type Registry = seq<Entry>

  predicate Lifecycle(k: Kind) {
    k in {Committed, Settled, Refunded, Reclaimed}
  }

  predicate Terminal(k: Kind) {
    k in {Settled, Refunded, Reclaimed}
  }

  /** A string JavaScript counts as true. */
  predicate Truthy(t: Option<Text>) {
    t.Some? && t.value != []
  }

  function NewEntry(nonce: Text): Entry {
    Entry(nonce, None, None, Committed, None, None, None, None, None, None, None, None, None, None)
  }

  function IndexOf(reg: Registry, nonce: Text): (i: nat)
    ensures i <= |reg|
    ensures i < |reg| ==> reg[i].nonce == nonce
    ensures forall j :: 0 <= j < i ==> reg[j].nonce != nonce
  {
    if reg == [] || reg[0].nonce == nonce then 0 else 1 + IndexOf(reg[1..], nonce)
  }

  /** `registry.get(nonce)` */
  function Find(reg: Registry, nonce: Text): (r: Option<Entry>)
    ensures r.Some? ==> r.value.nonce == nonce && r.value in reg
    ensures r.None? ==> forall e :: e in reg ==> e.nonce != nonce
  {
    var i := IndexOf(reg, nonce);
    if i < |reg| then Some(reg[i]) else None
  }

  /** `registry.set(e.nonce, e)`: in place, or at the end. */
  function Put(reg: Registry, e: Entry): (r: Registry)
    ensures |r| == if IndexOf(reg, e.nonce) < |reg| then |reg| else |reg| + 1
  {
    var i := IndexOf(reg, e.nonce);
    if i < |reg| then reg[i := e] else reg + [e]
  }

  /** What one row does to the entry of its nonce; None where it leaves the registry alone. */
  function Effect(before: Option<Entry>, row: Row): Option<Entry>
    requires Truthy(row.nonce)
  {
    var d := row.data;
    if row.kind == DeliveryVerified then
      if before.Some? then
        Some(before.value.(penaltyAmount := Some(d.penaltyAmount.GetOr(0)), connectionLogHash := d.connectionLogHash))
      else None
    else if row.kind == ClaimVerified then
      if before.Some? then Some(before.value.(claimStatus := d.auditStatus)) else None
    else if !Lifecycle(row.kind) then None
    else
      var s0 := before.GetOr(NewEntry(row.nonce.value));
      var s1 := if Truthy(row.incidentId) then s0.(incidentId := row.incidentId) else s0;
      var s2 := if Truthy(row.txDigest) then s1.(txDigest := row.txDigest) else s1;
      var s := s2.(status := row.kind);
      match row.kind
      case Committed =>
        Some(s.(committedAtMs := Some(row.ts), amount := d.amount, providerAmount := d.providerAmount,
                platformFee := d.platformFee, voucherDigest := d.voucherDigest))
      case Settled =>
        Some(s.(closedAtMs := Some(row.ts), providerNetAmount := d.providerNetAmount,
                penaltyAmount := Some(d.penaltyAmount.GetOr(s.penaltyAmount.GetOr(0)))))
      case _ => Some(s.(closedAtMs := Some(row.ts)))
  }

  function Index(reg: Registry, row: Row): Registry {
    if !Truthy(row.nonce) then reg
    else
      var e := Effect(Find(reg, row.nonce.value), row);
      if e.Some? then Put(reg, e.value) else reg
  }

  /** The registry a restart builds from the rows. */
  function Replay(rows: seq<Row>): Registry {
    if rows == [] then [] else Index(Replay(rows[..|rows| - 1]), rows[|rows| - 1])
  }

  lemma ReplayAppend(rows: seq<Row>, row: Row)
    ensures Replay(rows + [row]) == Index(Replay(rows), row)
  {
    assert (rows + [row])[..|rows|] == rows;
  }

  lemma ReplayOneMore(lines: seq<Text>, i: nat)
    requires i < |lines|
    ensures var before, row := Replay(RowsOf(lines[..i])), ReadLine(lines[i]);
            Replay(RowsOf(lines[..i + 1])) == if row.Some? then Index(before, row.value) else before
  {
    RowsOfAppend(lines[..i], lines[i]);
    assert lines[..i + 1] == lines[..i] + [lines[i]];
    if ReadLine(lines[i]).Some? {
      ReplayAppend(RowsOf(lines[..i]), ReadLine(lines[i]).value);
    }
  }

  lemma FindPut(reg: Registry, e: Entry, nonce: Text)
    ensures Find(Put(reg, e), nonce) == if nonce == e.nonce then Some(e) else Find(reg, nonce)
  {
    var r, i, j := Put(reg, e), IndexOf(reg, e.nonce), IndexOf(reg, nonce);
    var k := IndexOf(r, nonce);
    if nonce == e.nonce {
      assert r[i] == e;
      assert k == i;
    } else if j < |reg| {
      assert r[j] == reg[j];
      assert k == j;
    } else {
      assert forall i :: 0 <= i < |r| ==> r[i] == e || r[i] == reg[i];
    }
  }

  /** A row touches the entry of its own nonce and no other. */
  lemma FindIndex(reg: Registry, row: Row, nonce: Text)
    ensures Find(Index(reg, row), nonce) ==
            if row.nonce == Some(nonce) && Truthy(row.nonce) && Effect(Find(reg, nonce), row).Some?
            then Effect(Find(reg, nonce), row) else Find(reg, nonce)
  {
    if Truthy(row.nonce) {
      var e := Effect(Find(reg, row.nonce.value), row);
      if e.Some? {
        assert e.value.nonce == row.nonce.value;
        FindPut(reg, e.value, nonce);
      }
    }
  }

  // ---- What the registry says: the latest word of the rows ------------------------------

  /** What a row can tell about its nonce. */
  datatype Topic = Status | Terms | Closing | Incident | Digest | Net | Penalty | Log | Claim

  predicate Tells(row: Row, topic: Topic) {
    match topic
    case Status => Lifecycle(row.kind)
    case Terms => row.kind == Committed
    case Closing => Terminal(row.kind)
    case Incident => Lifecycle(row.kind) && Truthy(row.incidentId)
    case Digest => Lifecycle(row.kind) && Truthy(row.txDigest)
    case Net => row.kind == Settled
    case Penalty => row.kind == DeliveryVerified || (row.kind == Settled && row.data.penaltyAmount.Some?)
    case Log => row.kind == DeliveryVerified
    case Claim => row.kind == ClaimVerified
  }

  /** The last row of this nonce that tells about the topic; verdicts and claims count only once a row has opened
      the nonce. */
  function Latest(rows: seq<Row>, nonce: Text, topic: Topic): Option<Row> {
    if rows == [] then None
    else
      var earlier, row := rows[..|rows| - 1], rows[|rows| - 1];
      if row.nonce == Some(nonce) && Tells(row, topic) && (Lifecycle(row.kind) || Latest(earlier, nonce, Status).Some?)
      then Some(row) else Latest(earlier, nonce, topic)
  }

  /** A row of this nonce that tells about the topic, once the nonce is open. */
  predicate Counts(rows: seq<Row>, nonce: Text, topic: Topic, i: nat) {
    && i < |rows| && rows[i].nonce == Some(nonce) && Tells(rows[i], topic)
    && (Lifecycle(rows[i].kind) || exists j :: 0 <= j < i && Opening(rows[j], nonce))
  }

  predicate IsLast(rows: seq<Row>, nonce: Text, topic: Topic, i: nat) {
    Counts(rows, nonce, topic, i) && forall j: nat :: i < j < |rows| ==> !Counts(rows, nonce, topic, j)
  }

  /** No row tells about the topic; or this is the last that does. */
  ghost predicate TheLast(rows: seq<Row>, nonce: Text, topic: Topic, word: Option<Row>) {
    match word
    case Some(row) => exists i: nat :: IsLast(rows, nonce, topic, i) && rows[i] == row
    case None => forall i: nat :: !Counts(rows, nonce, topic, i)
  }

  /** The latest word is that of the last row that counts, and there is none exactly when no row does. */
  lemma {:induction false} LatestIsTheLast(rows: seq<Row>, nonce: Text, topic: Topic)
    ensures TheLast(rows, nonce, topic, Latest(rows, nonce, topic))
  {
    if rows != [] {
      var n: nat := |rows| - 1;
      LatestIsTheLast(rows[..n], nonce, topic);
      CountsIff(rows, nonce, topic);
      LastAmongMore(rows, nonce, topic, Latest(rows[..n], nonce, topic));
    }
  }

  lemma LastAmongMore(rows: seq<Row>, nonce: Text, topic: Topic, word: Option<Row>)
    requires rows != [] && TheLast(rows[..|rows| - 1], nonce, topic, word)
    ensures TheLast(rows, nonce, topic, if Counts(rows, nonce, topic, |rows| - 1) then Some(rows[|rows| - 1]) else word)
  {
    var n: nat := |rows| - 1;
    forall i: nat | i < n ensures Counts(rows, nonce, topic, i) <==> Counts(rows[..n], nonce, topic, i) {
      CountsBefore(rows, nonce, topic, i);
    }
    if Counts(rows, nonce, topic, n) {
      assert IsLast(rows, nonce, topic, n);
    } else if word.Some? {
      var i: nat :| IsLast(rows[..n], nonce, topic, i) && rows[..n][i] == word.value;
      assert IsLast(rows, nonce, topic, i);
    }
  }

  lemma CountsBefore(rows: seq<Row>, nonce: Text, topic: Topic, i: nat)
    requires rows != [] && i < |rows| - 1
    ensures Counts(rows, nonce, topic, i) <==> Counts(rows[..|rows| - 1], nonce, topic, i)
  {
    var init := rows[..|rows| - 1];
    assert forall j :: 0 <= j <= i ==> init[j] == rows[j];
  }

  lemma CountsIff(rows: seq<Row>, nonce: Text, topic: Topic)
    requires rows != []
    ensures var row := rows[|rows| - 1];
            Counts(rows, nonce, topic, |rows| - 1) <==>
              row.nonce == Some(nonce) && Tells(row, topic) && (Lifecycle(row.kind) || Latest(rows[..|rows| - 1], nonce, Status).Some?)
  {
    OpenedIff(rows[..|rows| - 1], nonce);
  }

  predicate Opening(row: Row, nonce: Text) {
    row.nonce == Some(nonce) && Lifecycle(row.kind)
  }

  lemma {:induction false} OpenedIff(rows: seq<Row>, nonce: Text)
    ensures Latest(rows, nonce, Status).Some? <==> exists j :: 0 <= j < |rows| && Opening(rows[j], nonce)
  {
    if rows != [] {
      OpenedIff(rows[..|rows| - 1], nonce);
    }
  }

  /** All that the rows last told of one nonce. */
  datatype Words = Words(
    status: Option<Row>,
    terms: Option<Row>,
    closing: Option<Row>,
    incident: Option<Row>,
    digest: Option<Row>,
    net: Option<Row>,
    penalty: Option<Row>,
    log: Option<Row>,
    claim: Option<Row>)

  function WordsOf(rows: seq<Row>, nonce: Text): Words {
    Words(Latest(rows, nonce, Status), Latest(rows, nonce, Terms), Latest(rows, nonce, Closing),
          Latest(rows, nonce, Incident), Latest(rows, nonce, Digest), Latest(rows, nonce, Net),
          Latest(rows, nonce, Penalty), Latest(rows, nonce, Log), Latest(rows, nonce, Claim))
  }

  /** The terms are those of the last COMMITTED row, one and all. */
  predicate TermsAreTold(e: Entry, terms: Option<Row>) {
    if terms.None? then
      && e.committedAtMs.None? && e.amount.None? && e.providerAmount.None? && e.platformFee.None? && e.voucherDigest.None?
    else
      var r := terms.value;
      && e.committedAtMs == Some(r.ts) && e.amount == r.data.amount && e.providerAmount == r.data.providerAmount
      && e.platformFee == r.data.platformFee && e.voucherDigest == r.data.voucherDigest
  }

  predicate NamesAreTold(e: Entry, incident: Option<Row>, digest: Option<Row>) {
    && e.incidentId == (if incident.Some? then incident.value.incidentId else None)
    && e.txDigest == (if digest.Some? then digest.value.txDigest else None)
  }

  predicate ClosingIsTold(e: Entry, closing: Option<Row>, net: Option<Row>) {
    && e.closedAtMs == (if closing.Some? then Some(closing.value.ts) else None)
    && e.providerNetAmount == (if net.Some? then net.value.data.providerNetAmount else None)
  }

  /** The penalty is the last one told; a settlement that tells none leaves 0 where there was none. */
  predicate VerdictIsTold(e: Entry, penalty: Option<Row>, log: Option<Row>, claim: Option<Row>, settled: bool) {
    && (penalty.Some? ==> e.penaltyAmount == Some(penalty.value.data.penaltyAmount.GetOr(0)))
    && (penalty.None? ==> e.penaltyAmount == if settled then Some(0) else None)
    && e.connectionLogHash == (if log.Some? then log.value.data.connectionLogHash else None)
    && e.claimStatus == (if claim.Some? then claim.value.data.auditStatus else None)
  }

  /** An entry against what was told: every field is the last word on it. */
  predicate EntryIsTold(e: Entry, nonce: Text, w: Words) {
    && e.nonce == nonce && w.status.Some? && e.status == w.status.value.kind
    && TermsAreTold(e, w.terms) && NamesAreTold(e, w.incident, w.digest) && ClosingIsTold(e, w.closing, w.net)
    && VerdictIsTold(e, w.penalty, w.log, w.claim, w.net.Some?)
  }

  /** There is an entry exactly when a row has opened the nonce, and it is the one told. */
  predicate AsTold(entry: Option<Entry>, nonce: Text, w: Words) {
    match entry
    case Some(e) => EntryIsTold(e, nonce, w)
    case None => w.status.None?
  }

  /** The registry a restart builds says of every nonce what the rows last said, field by field. */
  lemma {:induction false} RegistryIsTheLatestWord(rows: seq<Row>, nonce: Text)
    requires nonce != []
    ensures AsTold(Find(Replay(rows), nonce), nonce, WordsOf(rows, nonce))
  {
    if rows != [] {
      var init, row := rows[..|rows| - 1], rows[|rows| - 1];
      RegistryIsTheLatestWord(init, nonce);
      FindIndex(Replay(init), row, nonce);
      NothingTold(init, nonce);
      WordsOfMore(rows, nonce);
      if row.nonce == Some(nonce) {
        OneMoreWord(Find(Replay(init), nonce), WordsOf(init, nonce), row);
      }
    }
  }

  /** What was told after one more row of the nonce. */
  function Heard(w: Words, row: Row): Words {
    if Lifecycle(row.kind) then
      w.(status := Some(row),
         terms := if Tells(row, Terms) then Some(row) else w.terms,
         closing := if Tells(row, Closing) then Some(row) else w.closing,
         incident := if Tells(row, Incident) then Some(row) else w.incident,
         digest := if Tells(row, Digest) then Some(row) else w.digest,
         net := if Tells(row, Net) then Some(row) else w.net,
         penalty := if Tells(row, Penalty) then Some(row) else w.penalty)
    else if w.status.None? then w
    else
      w.(penalty := if Tells(row, Penalty) then Some(row) else w.penalty,
         log := if Tells(row, Log) then Some(row) else w.log,
         claim := if Tells(row, Claim) then Some(row) else w.claim)
  }

  lemma WordsOfMore(rows: seq<Row>, nonce: Text)
    requires rows != []
    ensures var w, row := WordsOf(rows[..|rows| - 1], nonce), rows[|rows| - 1];
            WordsOf(rows, nonce) == if row.nonce == Some(nonce) then Heard(w, row) else w
  {}

  predicate Silent(w: Words) {
    w == Words(None, None, None, None, None, None, None, None, None)
  }

  /** Before the nonce is opened nothing has been told of it. */
  lemma {:induction false} NothingTold(rows: seq<Row>, nonce: Text)
    ensures WordsOf(rows, nonce).status.None? ==> Silent(WordsOf(rows, nonce))
  {
    if rows != [] {
      NothingTold(rows[..|rows| - 1], nonce);
      WordsOfMore(rows, nonce);
    }
  }

  lemma OneMoreWord(before: Option<Entry>, w: Words, row: Row)
    requires Truthy(row.nonce) && AsTold(before, row.nonce.value, w) && (w.status.None? ==> Silent(w))
    ensures AsTold(if Effect(before, row).Some? then Effect(before, row) else before, row.nonce.value, Heard(w, row))
  {
    if before.None? {
      FirstWord(w, row);
    } else if Lifecycle(row.kind) {
      OpeningTells(before.value, w, row);
    } else {
      VerdictTells(before.value, w, row);
    }
  }

  lemma FirstWord(w: Words, row: Row)
    requires Truthy(row.nonce) && Silent(w)
    ensures AsTold(Effect(None, row), row.nonce.value, Heard(w, row))
  {
    var e := NewEntry(row.nonce.value);
    if Lifecycle(row.kind) {
      OpeningTells(e, w, row);
      assert Effect(None, row) == Effect(Some(e), row);
    }
  }

  lemma OpeningTells(e: Entry, w: Words, row: Row)
    requires Truthy(row.nonce) && Lifecycle(row.kind)
    requires EntryIsTold(e, row.nonce.value, w) || (e == NewEntry(row.nonce.value) && Silent(w))
    ensures Effect(Some(e), row).Some? && EntryIsTold(Effect(Some(e), row).value, row.nonce.value, Heard(w, row))
  {
    OpeningTellsTerms(e, w, row);
    OpeningTellsNames(e, w, row);
    OpeningTellsTheRest(e, w, row);
  }

  lemma OpeningTellsTerms(e: Entry, w: Words, row: Row)
    requires Truthy(row.nonce) && Lifecycle(row.kind) && TermsAreTold(e, w.terms)
    ensures TermsAreTold(Effect(Some(e), row).value, Heard(w, row).terms)
  {}

  lemma OpeningTellsNames(e: Entry, w: Words, row: Row)
    requires Truthy(row.nonce) && Lifecycle(row.kind) && NamesAreTold(e, w.incident, w.digest)
    ensures NamesAreTold(Effect(Some(e), row).value, Heard(w, row).incident, Heard(w, row).digest)
  {}

  lemma OpeningTellsTheRest(e: Entry, w: Words, row: Row)
    requires Truthy(row.nonce) && Lifecycle(row.kind)
    requires ClosingIsTold(e, w.closing, w.net) && VerdictIsTold(e, w.penalty, w.log, w.claim, w.net.Some?)
    ensures var after, v := Effect(Some(e), row).value, Heard(w, row);
            ClosingIsTold(after, v.closing, v.net) && VerdictIsTold(after, v.penalty, v.log, v.claim, v.net.Some?)
  {}

  lemma VerdictTells(e: Entry, w: Words, row: Row)
    requires Truthy(row.nonce) && !Lifecycle(row.kind) && EntryIsTold(e, row.nonce.value, w)
    ensures EntryIsTold(if Effect(Some(e), row).Some? then Effect(Some(e), row).value else e, row.nonce.value, Heard(w, row))
  {}

  // ---- The ledger ------------------------------------------------------------------

  class EventLedger {
    /** The contents of the ledger file: the durable state. */
    var file: Text
    /** `this.registry`: an index, lost in a crash and rebuilt from the file. */
    var registry: Registry

    constructor (contents: Text)
      ensures file == contents && registry == Replay(RowsIn(contents))
    {
      file := contents;
      registry := [];
      new;
      var count := Rebuild();
    }

    /** Clears the registry and feeds it every line that parses; counts all lines. */
    method Rebuild() returns (count: nat)
      modifies this`registry
      ensures registry == Replay(RowsIn(file)) && count == |Lines(file)|
    {
      registry := [];
      var lines := Lines(file);
      var i := 0;
      while i < |lines|
        invariant i <= |lines|
        invariant registry == Replay(RowsOf(lines[..i]))
      {
        var row := ReadLine(lines[i]);
        ReplayOneMore(lines, i);
        if row.Some? {
          IndexEvent(row.value);
        }
        i := i + 1;
      }
      assert lines[..i] == lines;
      return |lines|;
    }

    method IndexEvent(event: Row)
      modifies this`registry
      ensures registry == Index(old(registry), event)
    {
      if !Truthy(event.nonce) {
        return;
      }
      var nonce := event.nonce.value;
      var found := Find(registry, nonce);
      if event.kind == DeliveryVerified {
        if found.Some? {
          registry := Put(registry, found.value.(penaltyAmount := Some(event.data.penaltyAmount.GetOr(0)),
                                                 connectionLogHash := event.data.connectionLogHash));
        }
        return;
      }
      if event.kind == ClaimVerified && found.Some? {
        registry := Put(registry, found.value.(claimStatus := event.data.auditStatus));
      }
      if !Lifecycle(event.kind) {
        return;
      }
      var state := found.GetOr(NewEntry(nonce));
      if Truthy(event.incidentId) {
        state := state.(incidentId := event.incidentId);
      }
      if Truthy(event.txDigest) {
        state := state.(txDigest := event.txDigest);
      }
      state := state.(status := event.kind);
      if event.kind == Committed {
        state := state.(committedAtMs := Some(event.ts), amount := event.data.amount,
                        providerAmount := event.data.providerAmount, platformFee := event.data.platformFee,
                        voucherDigest := event.data.voucherDigest);
      } else if event.kind == Settled {
        state := state.(closedAtMs := Some(event.ts), providerNetAmount := event.data.providerNetAmount,
                        penaltyAmount := Some(event.data.penaltyAmount.GetOr(state.penaltyAmount.GetOr(0))));
      } else {
        state := state.(closedAtMs := Some(event.ts));
      }
      registry := Put(registry, state);
    }

    /** Numbers the row by the lines already there, appends it and indexes it. */
    method Emit(kind: Kind, incidentId: Option<Text>, nonce: Option<Text>, txDigest: Option<Text>, data: Data, now: nat)
      returns (event: Row)
      modifies this
      ensures event == Row(|Lines(old(file))| + 1, now, kind, incidentId, nonce, txDigest, data)
      ensures file == old(file) + RowText(event) + [NEWLINE]
      ensures registry == Index(Replay(RowsIn(old(file))), event)
    {
      var count := Rebuild();
      event := Row(count + 1, now, kind, incidentId, nonce, txDigest, data);
      file := file + RowText(event) + [NEWLINE];
      IndexEvent(event);
    }

    /** The entry of a nonce: there is one in the answer exactly when there is one in the registry. */
    method Lookup(nonce: Text) returns (r: Option<Entry>)
      ensures r.Some? <==> exists i :: 0 <= i < |registry| && registry[i].nonce == nonce
      ensures r.Some? ==> r.value in registry && r.value.nonce == nonce
      ensures r == Find(registry, nonce)
    {
      r := Find(registry, nonce);
    }

    /** The commitments of one incident: exactly the matching entries, in the order of the registry. */
    method ByIncident(incidentId: Text) returns (r: seq<Entry>)
      ensures var at := Positions(registry, incidentId);
              |r| == |at| && forall k :: 0 <= k < |r| ==> r[k] == registry[at[k]]
      ensures r == OfIncident(registry, incidentId)
    {
      r := [];
      var i := 0;
      while i < |registry|
        invariant i <= |registry|
        invariant r == OfIncident(registry[..i], incidentId)
      {
        assert registry[..i + 1][..i] == registry[..i];
        if registry[i].incidentId == Some(incidentId) {
          r := r + [registry[i]];
        }
        i := i + 1;
      }
      assert registry[..i] == registry;
      MatchesAreAtPositions(registry, incidentId);
    }
  }

  function OfIncident(reg: Registry, incidentId: Text): (r: seq<Entry>)
    ensures forall e :: e in r <==> e in reg && e.incidentId == Some(incidentId)
  {
    if reg == [] then []
    else
      var n := |reg| - 1;
      OfIncident(reg[..n], incidentId) + (if reg[n].incidentId == Some(incidentId) then [reg[n]] else [])
  }

  /** The places of an incident's entries in the registry, in increasing order. */
  ghost function Positions(reg: Registry, incidentId: Text): (at: seq<nat>)
    ensures forall k :: 0 <= k < |at| ==> at[k] < |reg| && reg[at[k]].incidentId == Some(incidentId)
    ensures forall j, k :: 0 <= j < k < |at| ==> at[j] < at[k]
    ensures forall i :: 0 <= i < |reg| && reg[i].incidentId == Some(incidentId) ==> i in at
  {
    if reg == [] then []
    else
      var n := |reg| - 1;
      Positions(reg[..n], incidentId) + (if reg[n].incidentId == Some(incidentId) then [n] else [])
  }

  lemma {:induction false} MatchesAreAtPositions(reg: Registry, incidentId: Text)
    ensures var r, at := OfIncident(reg, incidentId), Positions(reg, incidentId);
            |r| == |at| && forall k :: 0 <= k < |r| ==> r[k] == reg[at[k]]
  {
    if reg != [] {
      MatchesAreAtPositions(reg[..|reg| - 1], incidentId);
    }
  }

  /** Nonces keep their places in the registry and a new one goes to the end: entries stand in the order in which
      their first row was written, oldest first. */
  lemma NoncesKeepTheirPlaces(rows: seq<Row>, row: Row)
    ensures var before, after := Replay(rows), Replay(rows + [row]);
            && |before| <= |after| <= |before| + 1
            && (forall i :: 0 <= i < |before| ==> after[i].nonce == before[i].nonce)
            && (|after| > |before| ==> row.nonce == Some(after[|before|].nonce) && Find(before, after[|before|].nonce).None?)
  {
    ReplayAppend(rows, row);
    var before := Replay(rows);
    if Truthy(row.nonce) && Effect(Find(before, row.nonce.value), row).Some? {
      PutKeepsPlaces(before, Effect(Find(before, row.nonce.value), row).value);
    }
  }

  lemma PutKeepsPlaces(reg: Registry, e: Entry)
    ensures |reg| <= |Put(reg, e)| <= |reg| + 1
    ensures forall i :: 0 <= i < |reg| ==> Put(reg, e)[i].nonce == reg[i].nonce
    ensures |Put(reg, e)| > |reg| ==> Put(reg, e)[|reg|] == e && Find(reg, e.nonce).None?
  {}

  // ---- Every file that emits and crashes can leave behind ---------------------------

  /** A crash during `appendFileSync` keeps the first `kept` units of the line and its newline. */
  datatype Op = Emit(row: Row) | Crash(row: Row, kept: nat)

  predicate ProperOp(op: Op) {
    ProperKind(op.row.kind)
  }

  /** The row that `emit` writes: the caller's payload under the next line number. */
  function Numbered(row: Row, file: Text): Row {
    row.(seqNo := |Lines(file)| + 1)
  }

  function FileAfter(file: Text, op: Op): Text {
    var text := RowText(Numbered(op.row, file));
    match op
    case Emit(_) => file + text + [NEWLINE]
    case Crash(_, kept) => file + text[..if kept <= |text| then kept else |text|]
  }

  function FileAfterAll(file: Text, ops: seq<Op>): Text {
    if ops == [] then file else FileAfter(FileAfterAll(file, ops[..|ops| - 1]), ops[|ops| - 1])
  }

  /** A line is the text of the row with that line number, or it does not parse. */
  ghost predicate GoodLine(line: Text, number: nat) {
    line != [] && line[0] == LBRACE && OneLine(line) && (Torn(line) || WrittenAs(line, number))
  }

  predicate Torn(line: Text) {
    Broken(Run(START, line))
  }

  ghost predicate WrittenAs(line: Text, number: nat) {
    exists row: Row :: ProperKind(row.kind) && row.seqNo == number && line == RowText(row)
  }

  ghost predicate GoodLines(lines: seq<Text>) {
    forall i :: 0 <= i < |lines| ==> GoodLine(lines[i], i + 1)
  }

  /** Whatever follows the last newline starts an object. */
  ghost predicate Shaped(file: Text) {
    !Terminated(file) ==> exists head, tail ::
      file == head + tail && Terminated(head) && OneLine(tail) && tail != [] && tail[0] == LBRACE
  }

  ghost predicate LedgerFile(file: Text) {
    Shaped(file) && GoodLines(Lines(file))
  }

  /** Appending `e` starts a new line, or glues onto an unterminated last one. */
  function Glue(lines: seq<Text>, terminated: bool, e: Text): (r: seq<Text>)
    ensures r != []
    ensures forall i :: 0 <= i < |r| - 1 ==> i < |lines| && r[i] == lines[i]
  {
    if terminated || lines == [] then lines + [e] else lines[..|lines| - 1] + [lines[|lines| - 1] + e]
  }

  lemma NotBlank(line: Text)
    requires line != [] && line[0] == LBRACE
    ensures !LedgerText.Blank(line)
  {}

  lemma Parts(file: Text) returns (head: Text, tail: Text)
    requires Shaped(file)
    ensures file == head + tail && Terminated(head) && OneLine(tail)
    ensures Terminated(file) <==> tail == []
    ensures tail != [] ==> tail[0] == LBRACE
    ensures Lines(file) == Lines(head) + (if tail == [] then [] else [tail])
  {
    if Terminated(file) {
      head, tail := file, [];
    } else {
      head, tail :| file == head + tail && Terminated(head) && OneLine(tail) && tail != [] && tail[0] == LBRACE;
      NotBlank(tail);
    }
    LinesOfHeadAndTail(head, tail);
  }

  lemma AppendShaped(file: Text, e: Text)
    requires Shaped(file) && e != [] && e[0] == LBRACE && OneLine(e)
    ensures Shaped(file + e) && !Terminated(file + e) && Terminated(file + e + [NEWLINE])
  {
    LastUnit(file, e);
    if Terminated(file) {
      assert Terminated(file) && OneLine(e);
    } else {
      var head, tail :| file == head + tail && Terminated(head) && OneLine(tail) && tail != [] && tail[0] == LBRACE;
      var line := tail + e;
      assert file + e == head + line && OneLine(line) && line[0] == LBRACE;
    }
  }

  lemma LastUnit(file: Text, e: Text)
    requires e != [] && OneLine(e)
    ensures !Terminated(file + e) && Terminated(file + e + [NEWLINE])
  {
    assert (file + e)[|file + e| - 1] == e[|e| - 1];
  }

  lemma AppendLines(file: Text, e: Text)
    requires Shaped(file) && e != [] && e[0] == LBRACE && OneLine(e)
    ensures !Terminated(file) ==> Lines(file) != []
    ensures Lines(file + e) == Glue(Lines(file), Terminated(file), e)
    ensures Lines(file + e + [NEWLINE]) == Lines(file + e)
  {
    var head, tail := Parts(file);
    NotBlank(tail + e);
    LinesAfterAppend(head, tail, e);
    GlueTail(Lines(head), tail, e);
  }

  lemma GlueTail(lines: seq<Text>, tail: Text, e: Text)
    ensures Glue(lines + (if tail == [] then [] else [tail]), tail == [], e) == lines + [tail + e]
  {
    if tail == [] {
      assert tail + e == e && lines + [] == lines;
    }
  }

  /** The start of a row on a line of its own. */
  lemma NewLine(row: Row, kept: nat)
    requires ProperKind(row.kind) && 0 < kept <= |RowText(row)|
    ensures GoodLine(RowText(row)[..kept], row.seqNo)
    ensures kept < |RowText(row)| ==> Torn(RowText(row)[..kept])
    ensures RowText(row)[..kept][0] == LBRACE && OneLine(RowText(row)[..kept])
  {
    RowTextShape(row);
    if kept < |RowText(row)| {
      CutBreaks(RowText(row), kept);
    } else {
      assert RowText(row)[..kept] == RowText(row);
    }
  }

  /** The start of a row glued onto a line that lost its newline. */
  lemma GluedLine(line: Text, number: nat, row: Row, kept: nat)
    requires GoodLine(line, number) && ProperKind(row.kind) && 0 < kept <= |RowText(row)|
    ensures GoodLine(line + RowText(row)[..kept], number) && Torn(line + RowText(row)[..kept])
  {
    var e := RowText(row)[..kept];
    RowTextShape(row);
    if !Torn(line) {
      var was: Row :| ProperKind(was.kind) && was.seqNo == number && line == RowText(was);
      RowTextShape(was);
    }
    RunConcat(START, line, e);
    GlueBreaks(Run(START, line), RowText(row), kept);
  }

  lemma AppendKeeps(file: Text, row: Row, kept: nat)
    requires LedgerFile(file) && ProperKind(row.kind)
    requires row.seqNo == |Lines(file)| + 1 && 0 < kept <= |RowText(row)|
    ensures GoodLines(Glue(Lines(file), Terminated(file), RowText(row)[..kept]))
    ensures LedgerFile(file + RowText(row)[..kept]) && LedgerFile(file + RowText(row)[..kept] + [NEWLINE])
  {
    var e, lines := RowText(row)[..kept], Lines(file);
    NewLine(row, kept);
    AppendLines(file, e);
    AppendShaped(file, e);
    if !Terminated(file) {
      GluedLine(lines[|lines| - 1], |lines|, row, kept);
    }
  }

  /** Emits and crashes, in any order, keep the file a ledger file. */
  lemma {:induction false} RunKeepsLedger(ops: seq<Op>)
    requires forall i :: 0 <= i < |ops| ==> ProperOp(ops[i])
    ensures LedgerFile(FileAfterAll([], ops))
  {
    if ops == [] {
      EmptyFile();
    } else {
      RunKeepsLedger(ops[..|ops| - 1]);
      StepKeepsLedger(FileAfterAll([], ops[..|ops| - 1]), ops[|ops| - 1]);
    }
  }

  lemma StepKeepsLedger(file: Text, op: Op)
    requires LedgerFile(file) && ProperOp(op)
    ensures LedgerFile(FileAfter(file, op))
  {
    var row := Numbered(op.row, file);
    var n := |RowText(row)|;
    var kept := if op.Emit? || op.kept > n then n else op.kept;
    RowTextShape(row);
    assert RowText(row)[..n] == RowText(row) && file + [] == file && RowText(row)[..0] == [];
    if kept > 0 {
      AppendKeeps(file, row, kept);
    }
  }

  lemma GoodLineReads(line: Text, number: nat)
    requires GoodLine(line, number)
    ensures ReadLine(line).Some? ==> ReadLine(line).value.seqNo == number
    ensures Torn(line) ==> ReadLine(line).None?
  {
    if Torn(line) {
      BrokenDoesNotParse(line);
    } else {
      var row: Row :| ProperKind(row.kind) && row.seqNo == number && line == RowText(row);
      ReadWritten(row);
    }
  }

  lemma RowsOfAppend(lines: seq<Text>, line: Text)
    ensures ReadLine(line).Some? ==> RowsOf(lines + [line]) == RowsOf(lines) + [ReadLine(line).value]
    ensures ReadLine(line).None? ==> RowsOf(lines + [line]) == RowsOf(lines)
  {
    assert (lines + [line])[..|lines|] == lines;
    assert RowsOf(lines) + [] == RowsOf(lines);
  }

  /** The line a row was read from carries its number. */
  predicate ReadFrom(lines: seq<Text>, r: Row) {
    1 <= r.seqNo <= |lines| && ReadLine(lines[r.seqNo - 1]) == Some(r)
  }

  predicate Increasing(rows: seq<Row>) {
    forall i, j :: 0 <= i < j < |rows| ==> rows[i].seqNo < rows[j].seqNo
  }

  ghost predicate AllReadFrom(lines: seq<Text>, rows: seq<Row>) {
    forall r :: r in rows ==> ReadFrom(lines, r)
  }

  lemma LinesGrow(init: seq<Text>, last: Text, rows: seq<Row>)
    requires AllReadFrom(init, rows)
    ensures AllReadFrom(init + [last], rows) && forall r :: r in rows ==> r.seqNo <= |init|
  {
    forall r | r in rows ensures ReadFrom(init + [last], r) && r.seqNo <= |init| {
      assert ReadFrom(init, r);
    }
  }

  lemma RowsGrow(rows: seq<Row>, r: Row)
    requires Increasing(rows) && forall x :: x in rows ==> x.seqNo < r.seqNo
    ensures Increasing(rows + [r])
  {}

  lemma ReadableStep(init: seq<Text>, last: Text)
    requires GoodLine(last, |init| + 1)
    requires AllReadFrom(init, RowsOf(init)) && Increasing(RowsOf(init))
    ensures AllReadFrom(init + [last], RowsOf(init + [last])) && Increasing(RowsOf(init + [last]))
  {
    var rows := RowsOf(init);
    GoodLineReads(last, |init| + 1);
    RowsOfAppend(init, last);
    LinesGrow(init, last, rows);
    if ReadLine(last).Some? {
      var r := ReadLine(last).value;
      RowsGrow(rows, r);
      assert ReadFrom(init + [last], r);
    }
  }

  lemma {:induction false} ReadableRows(lines: seq<Text>)
    requires GoodLines(lines)
    ensures AllReadFrom(lines, RowsOf(lines))
    ensures Increasing(RowsOf(lines))
  {
    if lines != [] {
      var n := |lines| - 1;
      ReadableRows(lines[..n]);
      ReadableStep(lines[..n], lines[n]);
      assert lines == lines[..n] + [lines[n]];
    }
  }

  /** After any emits, crashes and restarts, the row a restart reads from line k has `seq` k,
      so the rows come in strictly increasing `seq`. */
  lemma SeqIsLineNumber(ops: seq<Op>)
    requires forall i :: 0 <= i < |ops| ==> ProperOp(ops[i])
    ensures var file := FileAfterAll([], ops);
            AllReadFrom(Lines(file), RowsIn(file)) && Increasing(RowsIn(file))
  {
    RunKeepsLedger(ops);
    ReadableRows(Lines(FileAfterAll([], ops)));
  }

  /** The rows of a file without its last line. */
  function RowsBeforeLast(file: Text): seq<Row> {
    var lines := Lines(file);
    if lines == [] then [] else RowsOf(lines[..|lines| - 1])
  }

  lemma EmitLines(file: Text, row: Row)
    requires LedgerFile(file) && ProperKind(row.kind) && row.seqNo == |Lines(file)| + 1
    ensures var after := file + RowText(row) + [NEWLINE];
            && LedgerFile(after) && Terminated(after)
            && Lines(after) == Glue(Lines(file), Terminated(file), RowText(row))
            && (!Terminated(file) ==> Lines(file) != [])
  {
    var text := RowText(row);
    RowTextShape(row);
    assert text[..|text|] == text;
    AppendKeeps(file, row, |text|);
    NewLine(row, |text|);
    AppendShaped(file, text);
    AppendLines(file, text);
  }

  lemma GluedReadsNothing(line: Text, number: nat, row: Row)
    requires GoodLine(line, number) && ProperKind(row.kind)
    ensures ReadLine(line + RowText(row)).None?
  {
    var text := RowText(row);
    RowTextShape(row);
    assert text[..|text|] == text;
    GluedLine(line, number, row, |text|);
    GoodLineReads(line + text, number);
  }

  lemma GluedRowIsLost(lines: seq<Text>, row: Row)
    requires GoodLines(lines) && ProperKind(row.kind) && lines != []
    ensures RowsOf(Glue(lines, false, RowText(row))) == RowsOf(lines[..|lines| - 1])
  {
    var n := |lines| - 1;
    GluedReadsNothing(lines[n], n + 1, row);
    RowsOfAppend(lines[..n], lines[n] + RowText(row));
  }

  lemma ReadRowsAreSmaller(lines: seq<Text>, rows: seq<Row>, row: Row)
    requires AllReadFrom(lines, rows) && row.seqNo > |lines|
    ensures row !in rows
  {
    assert !ReadFrom(lines, row);
  }

  lemma EarlierRowsAreSmaller(lines: seq<Text>, row: Row)
    requires GoodLines(lines) && row.seqNo > |lines|
    ensures row !in RowsOf(lines)
  {
    ReadableRows(lines);
    ReadRowsAreSmaller(lines, RowsOf(lines), row);
  }

  /** The row just emitted survives a restart exactly when the file ended in a newline.
      When it did not, the row takes the unterminated last line down with it. */
  lemma EmitSurvivesIffTerminated(file: Text, row: Row)
    requires LedgerFile(file) && ProperKind(row.kind) && row.seqNo == |Lines(file)| + 1
    ensures var after := file + RowText(row) + [NEWLINE];
            && LedgerFile(after) && Terminated(after)
            && RowsIn(after) == (if Terminated(file) then RowsIn(file) + [row] else RowsBeforeLast(file))
            && (row in RowsIn(after) <==> Terminated(file))
  {
    EmitLines(file, row);
    if Terminated(file) {
      ReadWritten(row);
      RowsOfAppend(Lines(file), RowText(row));
    } else {
      GluedRowIsLost(Lines(file), row);
      EarlierRowsAreSmaller(Lines(file)[..|Lines(file)| - 1], row);
    }
  }

  /** A crash in the middle of an append to a terminated file loses that row and nothing else. */
  lemma CrashLosesOnlyTheTornRow(file: Text, row: Row, kept: nat)
    requires LedgerFile(file) && Terminated(file) && ProperKind(row.kind)
    requires row.seqNo == |Lines(file)| + 1 && 0 < kept <= |RowText(row)|
    ensures var after := file + RowText(row)[..kept];
            && LedgerFile(after) && !Terminated(after)
            && RowsIn(after) == RowsIn(file) + (if kept == |RowText(row)| then [row] else [])
  {
    var e := RowText(row)[..kept];
    NewLine(row, kept);
    AppendKeeps(file, row, kept);
    AppendShaped(file, e);
    AppendLines(file, e);
    RowsOfAppend(Lines(file), e);
    GoodLineReads(e, row.seqNo);
    if kept == |RowText(row)| {
      assert e == RowText(row);
      ReadWritten(row);
    }
  }

  /** The row the k-th of several emits left behind. */
  ghost predicate NumberedFromOne(rows: seq<Row>, ops: seq<Op>) {
    |rows| == |ops| && forall k :: 0 <= k < |ops| ==> rows[k] == ops[k].row.(seqNo := k + 1)
  }

  /** Every emit left its own row, numbered by its place, on its own line. */
  ghost predicate KeepsAll(file: Text, ops: seq<Op>) {
    LedgerFile(file) && Terminated(file) && |Lines(file)| == |ops| && NumberedFromOne(RowsIn(file), ops)
  }

  lemma EmptyFile()
    ensures LedgerFile([]) && Lines([]) == [] && KeepsAll([], [])
  {
    assert Split([]) == [[]];
    NonBlankOne([]);
  }

  /** From an empty ledger, emits without a crash keep every row, and the k-th row has `seq` k. */
  lemma {:induction false} EmitsNumberTheRows(start: Text, ops: seq<Op>)
    requires KeepsAll(start, [])
    requires forall i :: 0 <= i < |ops| ==> ops[i].Emit? && ProperOp(ops[i])
    ensures KeepsAll(FileAfterAll(start, ops), ops)
  {
    if ops != [] {
      var init, last := ops[..|ops| - 1], ops[|ops| - 1];
      EmitsNumberTheRows(start, init);
      EmitOneMore(start, init, last);
      assert ops == init + [last];
    }
  }

  lemma EmitOneMore(start: Text, init: seq<Op>, last: Op)
    requires KeepsAll(FileAfterAll(start, init), init) && last.Emit? && ProperOp(last)
    ensures KeepsAll(FileAfterAll(start, init + [last]), init + [last])
  {
    OneEmit(FileAfterAll(start, init), last.row, init);
    LastOp(start, init, last);
  }

  lemma LastOp(start: Text, init: seq<Op>, last: Op)
    ensures FileAfterAll(start, init + [last]) == FileAfter(FileAfterAll(start, init), last)
  {
    assert (init + [last])[..|init|] == init;
  }

  lemma OneEmit(file: Text, row: Row, ops: seq<Op>)
    requires KeepsAll(file, ops) && ProperKind(row.kind)
    ensures KeepsAll(FileAfter(file, Emit(row)), ops + [Emit(row)])
  {
    var r := Numbered(row, file);
    EmitLines(file, r);
    EmitSurvivesIffTerminated(file, r);
  }

  /** On a file that ends in a newline, what `emit` leaves in memory is what a restart rebuilds. */
  lemma RegistryAgreesAfterEmit(file: Text, row: Row)
    requires LedgerFile(file) && Terminated(file) && ProperKind(row.kind) && row.seqNo == |Lines(file)| + 1
    ensures Index(Replay(RowsIn(file)), row) == Replay(RowsIn(file + RowText(row) + [NEWLINE]))
  {
    EmitSurvivesIffTerminated(file, row);
    ReplayAppend(RowsIn(file), row);
  }

  /** The same in-memory registry disagrees with a restart when a commitment is glued to a torn line. */
  lemma GluedCommitIsForgotten(file: Text, row: Row)
    requires LedgerFile(file) && row.kind == Committed && row.seqNo == |Lines(file)| + 1 && !Terminated(file)
    requires Truthy(row.nonce) && Find(Replay(RowsIn(file)), row.nonce.value).None?
    requires forall r :: r in RowsIn(file) ==> r.nonce != row.nonce
    ensures Find(Index(Replay(RowsIn(file)), row), row.nonce.value).Some?
    ensures Find(Replay(RowsIn(file + RowText(row) + [NEWLINE])), row.nonce.value).None?
  {
    EmitSurvivesIffTerminated(file, row);
    EmitLines(file, row);
    FindIndex(Replay(RowsIn(file)), row, row.nonce.value);
    BeforeLastIsPrefix(file);
    UnmentionedIsUnknown(RowsBeforeLast(file), row.nonce.value);
  }

  lemma BeforeLastIsPrefix(file: Text)
    ensures RowsBeforeLast(file) <= RowsIn(file)
  {
    var lines := Lines(file);
    if lines != [] {
      var n := |lines| - 1;
      assert lines == lines[..n] + [lines[n]];
      RowsOfAppend(lines[..n], lines[n]);
    }
  }

  lemma {:induction false} UnmentionedIsUnknown(rows: seq<Row>, nonce: Text)
    requires forall r :: r in rows ==> r.nonce != Some(nonce)
    ensures Find(Replay(rows), nonce).None?
  {
    if rows != [] {
      var n := |rows| - 1;
      UnmentionedIsUnknown(rows[..n], nonce);
      FindIndex(Replay(rows[..n]), rows[n], nonce);
    }
  }
}
