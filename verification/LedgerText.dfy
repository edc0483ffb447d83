/** Ledger rows and the text file that holds them, one JSON object a line (src/sui/events.js). */
module LedgerText {
  import opened Units
  import opened Json
  import opened Digits
  import opened TornText

  // ---- Rows ------------------------------------------------------------------------

  /** Event types the registry reacts to; every other type is a note. */
  datatype Kind = Committed | Settled | Refunded | Reclaimed | DeliveryVerified | ClaimVerified | Note(name: Text)

  const COMMITTED: Text := Ascii("COMMITTED")
  const SETTLED: Text := Ascii("SETTLED")
  const REFUNDED: Text := Ascii("REFUNDED")
  const RECLAIMED: Text := Ascii("RECLAIMED")
  const DELIVERY_VERIFIED: Text := Ascii("DELIVERY_VERIFIED")
  const CLAIM_VERIFIED: Text := Ascii("CLAIM_VERIFIED")

  function KindName(k: Kind): Text {
    match k
    case Committed => COMMITTED
    case Settled => SETTLED
    case Refunded => REFUNDED
    case Reclaimed => RECLAIMED
    case DeliveryVerified => DELIVERY_VERIFIED
    case ClaimVerified => CLAIM_VERIFIED
    case Note(name) => name
  }

  function KindOf(name: Text): Kind {
    if name == COMMITTED then Committed
    else if name == SETTLED then Settled
    else if name == REFUNDED then Refunded
    else if name == RECLAIMED then Reclaimed
    else if name == DELIVERY_VERIFIED then DeliveryVerified
    else if name == CLAIM_VERIFIED then ClaimVerified
    else Note(name)
  }

  /** A note never borrows the name of another type. */
  predicate ProperKind(k: Kind) {
    k.Note? ==> KindOf(k.name) == k
  }

  /** The payload fields the registry reads; an absent field is null. Amounts are base units;
      the net amount alone can come out negative. */
  datatype Data = Data(
    amount: Option<nat>,
    providerAmount: Option<nat>,
    platformFee: Option<nat>,
    penaltyAmount: Option<nat>,
    providerNetAmount: Option<int>,
    voucherDigest: Option<Text>,
    connectionLogHash: Option<Text>,
    auditStatus: Option<Text>)

  const NO_DATA := Data(None, None, None, None, None, None, None, None)

  datatype Row = Row(
    seqNo: nat,
    ts: nat,
    kind: Kind,
    incidentId: Option<Text>,
    nonce: Option<Text>,
    txDigest: Option<Text>,
    data: Data)

  function OptNat(n: Option<nat>): Json {
    if n.Some? then Num(NatText(n.value)) else Null
  }

  function OptInt(n: Option<int>): Json {
    if n.Some? then Num(IntText(n.value)) else Null
  }

  function OptText(t: Option<Text>): Json {
    if t.Some? then Str(t.value) else Null
  }

  const SEQ: Text := Ascii("seq")
  const ROW_KEYS: seq<Text> := [SEQ, Ascii("ts"), Ascii("type"), Ascii("incidentId"), Ascii("nonce"), Ascii("txDigest"), Ascii("data")]
  const DATA_KEYS: seq<Text> := [Ascii("amount"), Ascii("providerAmount"), Ascii("platformFee"), Ascii("penaltyAmount"),
                                 Ascii("providerNetAmount"), Ascii("voucherDigest"), Ascii("connectionLogHash"), Ascii("status")]

  function DataJson(d: Data): Json {
    Obj(DataMembers(DATA_KEYS, d))
  }

  function DataMembers(keys: seq<Text>, d: Data): seq<Member>
    requires |keys| == 8
  {
    [Member(keys[0], OptNat(d.amount)), Member(keys[1], OptNat(d.providerAmount)),
     Member(keys[2], OptNat(d.platformFee)), Member(keys[3], OptNat(d.penaltyAmount)),
     Member(keys[4], OptInt(d.providerNetAmount)), Member(keys[5], OptText(d.voucherDigest)),
     Member(keys[6], OptText(d.connectionLogHash)), Member(keys[7], OptText(d.auditStatus))]
  }

  function RowJson(r: Row): Json {
    Obj([Member(ROW_KEYS[0], Num(NatText(r.seqNo))), Member(ROW_KEYS[1], Num(NatText(r.ts))),
         Member(ROW_KEYS[2], Str(KindName(r.kind))), Member(ROW_KEYS[3], OptText(r.incidentId)),
         Member(ROW_KEYS[4], OptText(r.nonce)), Member(ROW_KEYS[5], OptText(r.txDigest)),
         Member(ROW_KEYS[6], DataJson(r.data))])
  }

  /** The line that `emit` appends, before its newline. */
  function RowText(r: Row): Text {
    Stringify(RowJson(r))
  }

  function NatOf(v: Json): Option<nat> {
    if v.Num? then ReadNat(v.token) else None
  }

  function IntOf(v: Json): Option<int> {
    if v.Num? then ReadInt(v.token) else None
  }

  function TextOf(v: Json): Option<Text> {
    if v.Str? then Some(v.s) else None
  }

  function DataOf(v: Json): Data {
    if v.Obj? && |v.members| == 8 then
      var ms := v.members;
      Data(NatOf(ms[0].value), NatOf(ms[1].value), NatOf(ms[2].value), NatOf(ms[3].value), IntOf(ms[4].value),
           TextOf(ms[5].value), TextOf(ms[6].value), TextOf(ms[7].value))
    else NO_DATA
  }

  function RowOf(v: Json): Option<Row> {
    if v.Obj? && |v.members| == 7 && v.members[2].value.Str? then
      var ms := v.members;
      Some(Row(NatOf(ms[0].value).GetOr(0), NatOf(ms[1].value).GetOr(0), KindOf(ms[2].value.s),
               TextOf(ms[3].value), TextOf(ms[4].value), TextOf(ms[5].value), DataOf(ms[6].value)))
    else None
  }

  /** One line of the file as `rebuild` reads it: None where `JSON.parse` throws, or where the line is JSON of another
      shape than `emit` writes. */
  function ReadLine(line: Text): Option<Row> {
    var v := Parse(line);
    if v.Some? then RowOf(v.value) else None
  }

  lemma KindRoundTrip(k: Kind)
    requires ProperKind(k)
    ensures KindOf(KindName(k)) == k
  {
    assert |COMMITTED| == 9 && |SETTLED| == 7 && |REFUNDED| == 8 && |RECLAIMED| == 9;
    assert |DELIVERY_VERIFIED| == 17 && |CLAIM_VERIFIED| == 14;
    assert COMMITTED[0] == 0x43 && RECLAIMED[0] == 0x52;
  }

  lemma OptValid(n: Option<nat>, t: Option<Text>)
    ensures Valid(OptNat(n)) && NatOf(OptNat(n)) == n
    ensures Valid(OptText(t)) && TextOf(OptText(t)) == t
  {
    if n.Some? {
      NatRoundTrip(n.value);
      NatTextIsNumber(n.value);
    }
  }

  lemma OptIntValid(n: Option<int>)
    ensures Valid(OptInt(n)) && IntOf(OptInt(n)) == n
  {
    if n.Some? {
      IntRoundTrip(n.value);
    }
  }

  lemma DataRoundTrip(d: Data)
    ensures Valid(DataJson(d)) && DataOf(DataJson(d)) == d
  {
    MembersAreRead(DATA_KEYS, d);
  }

  lemma MembersAreRead(keys: seq<Text>, d: Data)
    requires |keys| == 8
    ensures Valid(Obj(DataMembers(keys, d))) && DataOf(Obj(DataMembers(keys, d))) == d
  {
    MembersAreValid(keys, d);
    AmountsAreRead(keys, d);
    TextsAreRead(keys, d);
  }

  lemma MembersAreValid(keys: seq<Text>, d: Data)
    requires |keys| == 8
    ensures Valid(Obj(DataMembers(keys, d)))
  {
    OptValid(d.amount, d.voucherDigest);
    OptValid(d.providerAmount, d.connectionLogHash);
    OptValid(d.platformFee, d.auditStatus);
    OptValid(d.penaltyAmount, None);
    OptIntValid(d.providerNetAmount);
  }

  lemma AmountsAreRead(keys: seq<Text>, d: Data)
    requires |keys| == 8
    ensures var r := DataOf(Obj(DataMembers(keys, d)));
            && r.amount == d.amount && r.providerAmount == d.providerAmount && r.platformFee == d.platformFee
            && r.penaltyAmount == d.penaltyAmount && r.providerNetAmount == d.providerNetAmount
  {
    OptValid(d.amount, None);
    OptValid(d.providerAmount, None);
    OptValid(d.platformFee, None);
    OptValid(d.penaltyAmount, None);
    OptIntValid(d.providerNetAmount);
  }

  lemma TextsAreRead(keys: seq<Text>, d: Data)
    requires |keys| == 8
    ensures var r := DataOf(Obj(DataMembers(keys, d)));
            r.voucherDigest == d.voucherDigest && r.connectionLogHash == d.connectionLogHash && r.auditStatus == d.auditStatus
  {}

  lemma RowJsonRoundTrip(r: Row)
    requires ProperKind(r.kind)
    ensures Valid(RowJson(r)) && RowOf(RowJson(r)) == Some(r)
  {
    OptValid(Some(r.seqNo), r.incidentId);
    OptValid(Some(r.ts), r.nonce);
    OptValid(None, r.txDigest);
    DataRoundTrip(r.data);
    KindRoundTrip(r.kind);
  }

  /** Reading a written row gives the row back. */
  lemma ReadWritten(r: Row)
    requires ProperKind(r.kind)
    ensures ReadLine(RowText(r)) == Some(r)
  {
    RowJsonRoundTrip(r);
    RoundTrip(RowJson(r));
  }

  lemma SeqKey()
    ensures StrText(SEQ)[0] == QUOTE && StrText(SEQ)[1] == 0x73
  {
    assert |SEQ| == 3 && SEQ[0] == 0x73;
    assert Escape(SEQ) == [SEQ[0]] + Escape(SEQ[1..]);
  }

  lemma ObjectEdges(ms: seq<Member>)
    requires ms != []
    ensures var t, key := Stringify(Obj(ms)), StrText(ms[0].key);
            && |t| >= 3 && |key| >= 2
            && t[0] == LBRACE && t[1] == key[0] && t[2] == key[1] && t[|t| - 1] == RBRACE
  {
    var key := StrText(ms[0].key);
    assert MembersText(ms)[..2] == key[..2];
  }

  lemma RowTextShape(r: Row)
    requires ProperKind(r.kind)
    ensures RowLike(RowText(r)) && NoControls(RowText(r))
  {
    RowJsonRoundTrip(r);
    StringifyUnits(RowJson(r));
    RoundTrip(RowJson(r));
    SeqKey();
    ObjectEdges(RowJson(r).members);
    AcceptedEnds(RowText(r));
  }

  // ---- Lines of the file -----------------------------------------------------------

  /** `text.split("\n")` */
  function Split(t: Text): (r: seq<Text>)
    ensures r != []
  {
    if t == [] then [[]]
    else if t[0] == NEWLINE then [[]] + Split(t[1..])
    else
      var more := Split(t[1..]);
      [[t[0]] + more[0]] + more[1..]
  }

  /** What `trim` removes. */
  predicate White(u: CodeUnit) {
    0x09 <= u <= 0x0D || u in {0x20, 0xA0, 0x1680, 0x2028, 0x2029, 0x202F, 0x205F, 0x3000, 0xFEFF} || 0x2000 <= u <= 0x200A
  }

  predicate Blank(line: Text) {
    forall i :: 0 <= i < |line| ==> White(line[i])
  }

  function NonBlank(lines: seq<Text>): seq<Text> {
    if lines == [] then []
    else (if Blank(lines[0]) then [] else [lines[0]]) + NonBlank(lines[1..])
  }

  /** The lines `rebuild` counts. */
  function Lines(file: Text): seq<Text> {
    NonBlank(Split(file))
  }

  function RowsOf(lines: seq<Text>): seq<Row> {
    if lines == [] then []
    else
      var n, last := |lines| - 1, ReadLine(lines[|lines| - 1]);
      RowsOf(lines[..n]) + (if last.Some? then [last.value] else [])
  }

  /** The rows a restart would see. */
  function RowsIn(file: Text): seq<Row> {
    RowsOf(Lines(file))
  }

  predicate OneLine(t: Text) {
    forall i :: 0 <= i < |t| ==> t[i] != NEWLINE
  }

  /** Nothing is left over after the last newline. */
  predicate Terminated(file: Text) {
    file == [] || file[|file| - 1] == NEWLINE
  }

  lemma {:induction false} SplitOneLine(t: Text)
    requires OneLine(t)
    ensures Split(t) == [t]
  {
    if t != [] {
      SplitOneLine(t[1..]);
      assert t == [t[0]] + t[1..];
    }
  }

  /** `u` in front of the first of several lines. */
  function OntoFirst(u: CodeUnit, lines: seq<Text>): seq<Text>
    requires lines != []
  {
    [[u] + lines[0]] + lines[1..]
  }

  lemma OntoFirstConcat(u: CodeUnit, a: seq<Text>, b: seq<Text>)
    requires a != []
    ensures OntoFirst(u, a + b) == OntoFirst(u, a) + b
    ensures [[]] + (a + b) == [[]] + a + b
  {}

  lemma SplitCons(u: CodeUnit, t: Text)
    ensures Split([u] + t) == if u == NEWLINE then [[]] + Split(t) else OntoFirst(u, Split(t))
  {
    assert ([u] + t)[1..] == t;
  }

  lemma {:induction false} SplitAt(a: Text, b: Text)
    ensures Split(a + [NEWLINE] + b) == Split(a) + Split(b)
  {
    if a == [] {
      SplitCons(NEWLINE, b);
      assert a + [NEWLINE] + b == [NEWLINE] + b;
    } else {
      var u, more := a[0], a[1..];
      SplitAt(more, b);
      SplitCons(u, more + [NEWLINE] + b);
      SplitCons(u, more);
      assert a == [u] + more;
      Regroup([u], more, [NEWLINE], b);
      OntoFirstConcat(u, Split(more), Split(b));
    }
  }

  lemma {:induction false} NonBlankConcat(a: seq<Text>, b: seq<Text>)
    ensures NonBlank(a + b) == NonBlank(a) + NonBlank(b)
  {
    if a == [] {
      assert a + b == b;
    } else {
      assert (a + b)[1..] == a[1..] + b;
      NonBlankConcat(a[1..], b);
    }
  }

  lemma NonBlankOne(x: Text)
    ensures NonBlank([x]) == if Blank(x) then [] else [x]
  {
    assert [x][1..] == [];
  }

  /** A text that ends in a newline, with a last piece behind it. */
  lemma LinesBehindNewline(body: Text, tail: Text)
    requires OneLine(tail)
    ensures Lines(body + [NEWLINE] + tail) == NonBlank(Split(body)) + NonBlank([tail])
  {
    SplitOneLine(tail);
    SplitAt(body, tail);
    NonBlankConcat(Split(body), [tail]);
  }

  /** `head` is the file up to its last newline, `tail` what follows it. */
  lemma LinesOfHeadAndTail(head: Text, tail: Text)
    requires Terminated(head) && OneLine(tail)
    ensures Lines(head + tail) == Lines(head) + (if Blank(tail) then [] else [tail])
  {
    NonBlankOne(tail);
    NonBlankOne([]);
    if head == [] {
      SplitOneLine(tail);
      assert head + tail == tail && Split(head) == [[]];
    } else {
      LinesBehindBody(head[..|head| - 1], tail);
      assert head == head[..|head| - 1] + [NEWLINE];
    }
  }

  lemma LinesBehindBody(body: Text, tail: Text)
    requires OneLine(tail)
    ensures Lines(body + [NEWLINE] + tail) == Lines(body + [NEWLINE]) + (if Blank(tail) then [] else [tail])
  {
    var head := NonBlank(Split(body));
    LinesBehindNewline(body, []);
    LinesBehindNewline(body, tail);
    NonBlankOne(tail);
    NonBlankOne([]);
    assert body + [NEWLINE] + [] == body + [NEWLINE];
    assert head + [] == head;
  }

  /** Appending a line to what follows the last newline glues the two together. */
  lemma LinesAfterAppend(head: Text, tail: Text, line: Text)
    requires Terminated(head) && OneLine(tail) && OneLine(line) && !Blank(tail + line)
    ensures Lines(head + tail + line) == Lines(head) + [tail + line]
    ensures Lines(head + tail + line + [NEWLINE]) == Lines(head) + [tail + line]
  {
    assert head + tail + line == head + (tail + line);
    LinesOfHeadAndTail(head, tail + line);
    var t := head + (tail + line);
    assert Terminated(t + [NEWLINE]);
    SplitAt(t, []);
    assert t + [NEWLINE] + [] == t + [NEWLINE];
    NonBlankConcat(Split(t), [[]]);
    NonBlankOne([]);
    assert head + tail + line + [NEWLINE] == t + [NEWLINE];
  }
}
