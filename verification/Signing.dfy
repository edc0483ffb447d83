/** Canonical JSON and the two payloads that get signed (src/a2a/signing.js). */
module Signing {
  import opened Units
  import opened Json
  import opened StableSort
  import Utf8

  // ---- The printer ---------------------------------------------------------------

  datatype Entry = Entry(key: Text, text: Text)

  predicate EntryLe(a: Entry, b: Entry) {
    TextLe(a.key, b.key)
  }

  predicate MemberLe(a: Member, b: Member) {
    TextLe(a.key, b.key)
  }

  /** `canonicalJson`: recursively key-sorted, no whitespace. */
  function Canonical(v: Json): Text
    decreases v, 1
  {
    match v
    case Arr(items) => [LBRACKET] + Join(CanonicalItems(items)) + [RBRACKET]
    case Obj(members) => [LBRACE] + Join(EntryTexts(Sort(CanonicalEntries(members), EntryLe))) + [RBRACE]
    case _ => Stringify(v)
  }

  function CanonicalItems(items: seq<Json>): (r: seq<Text>)
    ensures |r| == |items|
    decreases items, 0
  {
    if items == [] then [] else [Canonical(items[0])] + CanonicalItems(items[1..])
  }

  function CanonicalEntries(members: seq<Member>): seq<Entry>
    decreases members, 0
  {
    if members == [] then []
    else [Entry(members[0].key, Canonical(members[0].value))] + CanonicalEntries(members[1..])
  }

  function EntryTexts(entries: seq<Entry>): (r: seq<Text>)
    ensures |r| == |entries|
  {
    if entries == [] then []
    else [StrText(entries[0].key) + [COLON] + entries[0].text] + EntryTexts(entries[1..])
  }

  /** `parts.join(",")` */
  function Join(parts: seq<Text>): Text {
    if parts == [] then []
    else if |parts| == 1 then parts[0]
    else parts[0] + [COMMA] + Join(parts[1..])
  }

  function CanonicalBytes(v: Json): seq<Utf8.Byte> {
    Utf8.Encode(Canonical(v))
  }

  // ---- What the printer forgets: the order of members -----------------------------

  /** Members sorted by key, all the way down. */
  function Normalize(v: Json): Json
    decreases v, 1
  {
    match v
    case Arr(items) => Arr(NormalizeItems(items))
    case Obj(members) => Obj(Sort(NormalizeMembers(members), MemberLe))
    case _ => v
  }

  function NormalizeItems(items: seq<Json>): (r: seq<Json>)
    ensures |r| == |items|
    decreases items, 0
  {
    if items == [] then [] else [Normalize(items[0])] + NormalizeItems(items[1..])
  }

  function NormalizeMembers(members: seq<Member>): (r: seq<Member>)
    ensures |r| == |members|
    decreases members, 0
  {
    if members == [] then []
    else [Member(members[0].key, Normalize(members[0].value))] + NormalizeMembers(members[1..])
  }

  /** A JavaScript object holds each key once. */
  predicate UniqueKeys(v: Json) {
    match v
    case Arr(items) => forall i :: 0 <= i < |items| ==> UniqueKeys(items[i])
    case Obj(members) =>
      && DistinctKeys(members)
      && forall i :: 0 <= i < |members| ==> UniqueKeys(members[i].value)
    case _ => true
  }

  predicate DistinctKeys(members: seq<Member>) {
    forall i, j :: 0 <= i < j < |members| ==> members[i].key != members[j].key
  }

  predicate Has(members: seq<Member>, key: Text) {
    exists i :: 0 <= i < |members| && members[i].key == key
  }

  function Get(members: seq<Member>, key: Text): (r: Json)
    requires Has(members, key)
    ensures exists i :: 0 <= i < |members| && members[i] == Member(key, r)
  {
    if members[0].key == key then
      assert members[0] == Member(key, members[0].value);
      members[0].value
    else
      var i :| 0 <= i < |members| && members[i].key == key;
      assert members[1..][i - 1].key == key;
      Get(members[1..], key)
  }

  lemma GetUnique(members: seq<Member>, i: nat)
    requires DistinctKeys(members) && i < |members|
    ensures Has(members, members[i].key) && Get(members, members[i].key) == members[i].value
  {}

  /** Equal as JavaScript values: same keys with the same values, in any order. */
  predicate SameValue(v: Json, w: Json)
    decreases v
  {
    match v
    case Arr(items) => w.Arr? && |items| == |w.items| && forall i :: 0 <= i < |items| ==> SameValue(items[i], w.items[i])
    case Obj(members) =>
      && w.Obj?
      && (forall i :: 0 <= i < |w.members| ==> Has(members, w.members[i].key))
      && (forall i :: 0 <= i < |members| ==>
            Has(w.members, members[i].key) && SameValue(members[i].value, Get(w.members, members[i].key)))
    case _ => v == w
  }

  // ---- Canonical text is the text of the normal form ------------------------------

  lemma MemberOrder()
    ensures TotalPreorder(MemberLe)
  {
    forall a: Member, b: Member ensures MemberLe(a, b) || MemberLe(b, a) {
      TextLeTotal(a.key, b.key);
    }
    forall a: Member, b: Member, c: Member | MemberLe(a, b) && MemberLe(b, c) ensures MemberLe(a, c) {
      TextLeTransitive(a.key, b.key, c.key);
    }
  }

  function Printed(m: Member): Entry {
    Entry(m.key, Stringify(m.value))
  }

  function PrintedAll(members: seq<Member>): (r: seq<Entry>)
    ensures |r| == |members|
  {
    if members == [] then [] else [Printed(members[0])] + PrintedAll(members[1..])
  }

  lemma {:induction false} InsertPrinted(m: Member, members: seq<Member>)
    ensures Insert(Printed(m), PrintedAll(members), EntryLe) == PrintedAll(Insert(m, members, MemberLe))
  {
    if members == [] {
      assert PrintedAll([m]) == [Printed(m)];
    } else if MemberLe(m, members[0]) {
      assert ([m] + members)[1..] == members;
    } else {
      InsertPrinted(m, members[1..]);
      assert PrintedAll(members)[1..] == PrintedAll(members[1..]);
      var more := Insert(m, members[1..], MemberLe);
      assert ([members[0]] + more)[1..] == more;
    }
  }

  lemma {:induction false} SortPrinted(members: seq<Member>)
    ensures Sort(PrintedAll(members), EntryLe) == PrintedAll(Sort(members, MemberLe))
  {
    if members != [] {
      SortPrinted(members[1..]);
      assert PrintedAll(members)[1..] == PrintedAll(members[1..]);
      InsertPrinted(members[0], Sort(members[1..], MemberLe));
    }
  }

  lemma {:induction false} JoinMembers(members: seq<Member>)
    ensures Join(EntryTexts(PrintedAll(members))) == MembersText(members)
  {
    if members != [] {
      JoinMembers(members[1..]);
      assert PrintedAll(members)[1..] == PrintedAll(members[1..]);
      assert EntryTexts(PrintedAll(members))[1..] == EntryTexts(PrintedAll(members[1..]));
    }
  }

  lemma {:induction false} CanonicalIsNormalText(v: Json)
    ensures Canonical(v) == Stringify(Normalize(v))
    decreases v, 1
  {
    match v
    case Arr(items) =>
      CanonicalItemsText(items);
    case Obj(members) =>
      CanonicalEntriesText(members);
      SortPrinted(NormalizeMembers(members));
      JoinMembers(Sort(NormalizeMembers(members), MemberLe));
    case _ =>
  }

  lemma {:induction false} CanonicalItemsText(items: seq<Json>)
    ensures Join(CanonicalItems(items)) == ItemsText(NormalizeItems(items))
    decreases items, 0
  {
    if items != [] {
      CanonicalIsNormalText(items[0]);
      CanonicalItemsText(items[1..]);
      assert CanonicalItems(items)[1..] == CanonicalItems(items[1..]);
      assert NormalizeItems(items)[1..] == NormalizeItems(items[1..]);
    }
  }

  lemma {:induction false} CanonicalEntriesText(members: seq<Member>)
    ensures CanonicalEntries(members) == PrintedAll(NormalizeMembers(members))
    decreases members, 0
  {
    if members != [] {
      CanonicalIsNormalText(members[0].value);
      CanonicalEntriesText(members[1..]);
      assert NormalizeMembers(members)[1..] == NormalizeMembers(members[1..]);
    }
  }

  // ---- Canonical text parses back to the normal form -------------------------------

  lemma {:induction false} NormalizeAt(members: seq<Member>, i: nat)
    requires i < |members|
    ensures NormalizeMembers(members)[i] == Member(members[i].key, Normalize(members[i].value))
  {
    if i > 0 {
      NormalizeAt(members[1..], i - 1);
    }
  }

  lemma {:induction false} NormalizeItemAt(items: seq<Json>, i: nat)
    requires i < |items|
    ensures NormalizeItems(items)[i] == Normalize(items[i])
  {
    if i > 0 {
      NormalizeItemAt(items[1..], i - 1);
    }
  }

  lemma {:induction false} NormalizeValid(v: Json)
    requires Valid(v)
    ensures Valid(Normalize(v))
  {
    match v
    case Arr(items) =>
      forall i | 0 <= i < |items| ensures Valid(NormalizeItems(items)[i]) {
        NormalizeItemAt(items, i);
        NormalizeValid(items[i]);
      }
    case Obj(members) =>
      var ms := NormalizeMembers(members);
      forall m | m in ms ensures Valid(m.value) {
        var i :| 0 <= i < |ms| && ms[i] == m;
        NormalizeAt(members, i);
        NormalizeValid(members[i].value);
      }
      SortPermutes(ms, MemberLe);
      forall i | 0 <= i < |ms| ensures Valid(Sort(ms, MemberLe)[i].value) {
        assert Sort(ms, MemberLe)[i] in multiset(ms);
      }
    case _ =>
  }

  /** A JSON parser undoes the canonical printer up to the order of members. */
  lemma CanonicalRoundTrip(v: Json)
    requires Valid(v)
    ensures Parse(Canonical(v)) == Some(Normalize(v))
  {
    CanonicalIsNormalText(v);
    NormalizeValid(v);
    RoundTrip(Normalize(v));
  }

  // ---- Equal texts are equal values -------------------------------------------------

  lemma {:induction false} NormalEqualIsSame(v: Json, w: Json)
    requires UniqueKeys(v) && UniqueKeys(w) && Normalize(v) == Normalize(w)
    ensures SameValue(v, w)
  {
    match v
    case Arr(items) =>
      forall i | 0 <= i < |items| ensures SameValue(items[i], w.items[i]) {
        NormalizeItemAt(items, i);
        NormalizeItemAt(w.items, i);
        NormalEqualIsSame(items[i], w.items[i]);
      }
    case Obj(members) =>
      var ns := w.members;
      forall i | 0 <= i < |members|
        ensures Has(ns, members[i].key) && SameValue(members[i].value, Get(ns, members[i].key))
      {
        var j := Counterpart(members, ns, i);
        GetUnique(ns, j);
        NormalEqualIsSame(members[i].value, ns[j].value);
      }
      forall i | 0 <= i < |ns| ensures Has(members, ns[i].key) {
        var j := Counterpart(ns, members, i);
      }
    case _ =>
  }

  /** Where the member at `i` of one object is found in an object with the same normal form. */
  lemma Counterpart(ms: seq<Member>, ns: seq<Member>, i: nat) returns (j: nat)
    requires i < |ms| && Sort(NormalizeMembers(ms), MemberLe) == Sort(NormalizeMembers(ns), MemberLe)
    ensures j < |ns| && ns[j].key == ms[i].key && Normalize(ns[j].value) == Normalize(ms[i].value)
  {
    SortPermutes(NormalizeMembers(ms), MemberLe);
    SortPermutes(NormalizeMembers(ns), MemberLe);
    NormalizeAt(ms, i);
    var m := NormalizeMembers(ms)[i];
    assert m in multiset(NormalizeMembers(ms));
    assert m in NormalizeMembers(ns);
    j :| 0 <= j < |ns| && NormalizeMembers(ns)[j] == m;
    NormalizeAt(ns, j);
  }

  lemma {:induction false} SameIsNormalEqual(v: Json, w: Json)
    requires UniqueKeys(v) && UniqueKeys(w) && SameValue(v, w)
    ensures Normalize(v) == Normalize(w)
  {
    match v
    case Arr(items) =>
      forall i | 0 <= i < |items| ensures NormalizeItems(items)[i] == NormalizeItems(w.items)[i] {
        NormalizeItemAt(items, i);
        NormalizeItemAt(w.items, i);
        SameIsNormalEqual(items[i], w.items[i]);
      }
      assert NormalizeItems(items) == NormalizeItems(w.items);
    case Obj(members) =>
      var ms, ns := NormalizeMembers(members), NormalizeMembers(w.members);
      forall i | 0 <= i < |ms| ensures ms[i] in ns {
        NormalizeAt(members, i);
        var j :| 0 <= j < |w.members| && w.members[j] == Member(members[i].key, Get(w.members, members[i].key));
        NormalizeAt(w.members, j);
        SameIsNormalEqual(members[i].value, w.members[j].value);
        assert ns[j] == ms[i];
      }
      forall j | 0 <= j < |ns| ensures ns[j] in ms {
        NormalizeAt(w.members, j);
        var i :| 0 <= i < |members| && members[i].key == w.members[j].key;
        NormalizeAt(members, i);
        GetUnique(w.members, j);
        SameIsNormalEqual(members[i].value, w.members[j].value);
        assert ms[i] == ns[j];
      }
      NormalKeysDistinct(members);
      NormalKeysDistinct(w.members);
      SameElementsSortAlike(ms, ns);
    case _ =>
  }

  lemma NormalKeysDistinct(members: seq<Member>)
    requires DistinctKeys(members)
    ensures DistinctKeys(NormalizeMembers(members))
  {
    forall i | 0 <= i < |members| ensures NormalizeMembers(members)[i].key == members[i].key {
      NormalizeAt(members, i);
    }
  }

  lemma {:induction false} DistinctCount(ms: seq<Member>, m: Member)
    requires DistinctKeys(ms)
    ensures multiset(ms)[m] == if m in ms then 1 else 0
  {
    if ms != [] {
      assert ms == [ms[0]] + ms[1..];
      DistinctCount(ms[1..], m);
      if m == ms[0] {
        assert m !in ms[1..];
      }
    }
  }

  lemma SameElementsSortAlike(ms: seq<Member>, ns: seq<Member>)
    requires DistinctKeys(ms) && DistinctKeys(ns)
    requires (forall i :: 0 <= i < |ms| ==> ms[i] in ns) && (forall j :: 0 <= j < |ns| ==> ns[j] in ms)
    ensures Sort(ms, MemberLe) == Sort(ns, MemberLe)
  {
    forall m ensures multiset(ms)[m] == multiset(ns)[m] {
      DistinctCount(ms, m);
      DistinctCount(ns, m);
      assert m in ms <==> m in ns;
    }
    assert multiset(ms) == multiset(ns);
    MemberOrder();
    var a, b := Sort(ms, MemberLe), Sort(ns, MemberLe);
    SortPermutes(ms, MemberLe);
    SortPermutes(ns, MemberLe);
    SortSorted(ms, MemberLe);
    SortSorted(ns, MemberLe);
    forall x, y | x in a && y in a && MemberLe(x, y) && MemberLe(y, x) ensures x == y {
      TextLeAntisymmetric(x.key, y.key);
      assert x in multiset(ms) && y in multiset(ms);
      var i :| 0 <= i < |ms| && ms[i] == x;
      var j :| 0 <= j < |ms| && ms[j] == y;
    }
    SortUnique(a, b, MemberLe);
  }

  /** Canonical texts agree exactly when the values do, whatever the order of keys. */
  lemma CanonicalInjective(v: Json, w: Json)
    requires Valid(v) && Valid(w) && UniqueKeys(v) && UniqueKeys(w)
    ensures Canonical(v) == Canonical(w) <==> SameValue(v, w)
  {
    if Canonical(v) == Canonical(w) {
      CanonicalRoundTrip(v);
      CanonicalRoundTrip(w);
      NormalEqualIsSame(v, w);
    }
    if SameValue(v, w) {
      SameIsNormalEqual(v, w);
      CanonicalIsNormalText(v);
      CanonicalIsNormalText(w);
    }
  }

  /** The bytes handed to ed25519 and SHA-256 agree exactly when the values do. */
  lemma CanonicalBytesInjective(v: Json, w: Json)
    requires Valid(v) && Valid(w) && UniqueKeys(v) && UniqueKeys(w)
    ensures CanonicalBytes(v) == CanonicalBytes(w) <==> SameValue(v, w)
  {
    CanonicalInjective(v, w);
    CanonicalIsNormalText(v);
    CanonicalIsNormalText(w);
    NormalizeValid(v);
    NormalizeValid(w);
    StringifyUnits(Normalize(v));
    StringifyUnits(Normalize(w));
    if CanonicalBytes(v) == CanonicalBytes(w) {
      Utf8.Utf8Injective(Canonical(v), Canonical(w));
    }
  }

  // ---- Signed payloads ---------------------------------------------------------------

  const SIGNATURE: Text := Ascii("signature")
  const INCIDENT_ID: Text := Ascii("incidentId")
  const SELECTED_PROVIDER: Text := Ascii("selectedProvider")
  const AGREEMENT: Text := Ascii("agreement")

  function Without(members: seq<Member>, key: Text): (r: seq<Member>)
    ensures forall i :: 0 <= i < |r| ==> r[i] in members && r[i].key != key
  {
    if members == [] then []
    else if members[0].key == key then Without(members[1..], key)
    else [members[0]] + Without(members[1..], key)
  }

  /** The whole offer minus its own signature. */
  function OfferSigningPayload(offer: Json): Json
    requires offer.Obj?
  {
    Obj(Without(offer.members, SIGNATURE))
  }

  predicate HasBuyerTerms(selected: Json) {
    selected.Obj? && Has(selected.members, INCIDENT_ID) && Has(selected.members, SELECTED_PROVIDER) && Has(selected.members, AGREEMENT)
  }

  /** The deal terms the buyer signs: nothing else of the selected offer. */
  function BuyerAgreementPayload(selected: Json): Json
    requires HasBuyerTerms(selected)
  {
    BuyerTerms(Get(selected.members, INCIDENT_ID), Get(selected.members, SELECTED_PROVIDER), Get(selected.members, AGREEMENT))
  }

  function BuyerTerms(incidentId: Json, provider: Json, agreement: Json): Json {
    Obj([Member(INCIDENT_ID, incidentId), Member(SELECTED_PROVIDER, provider), Member(AGREEMENT, agreement)])
  }

  lemma HasCons(m: Member, ms: seq<Member>, key: Text)
    ensures Has([m] + ms, key) <==> m.key == key || Has(ms, key)
  {
    var all := [m] + ms;
    assert all[0] == m;
    if Has(ms, key) {
      var i :| 0 <= i < |ms| && ms[i].key == key;
      assert all[i + 1].key == key;
    }
    if Has(all, key) && m.key != key {
      var i :| 0 <= i < |all| && all[i].key == key;
      assert ms[i - 1].key == key;
    }
  }

  lemma GetCons(m: Member, ms: seq<Member>, key: Text)
    requires Has(ms, key) && m.key != key
    ensures Has([m] + ms, key) && Get([m] + ms, key) == Get(ms, key)
  {
    HasCons(m, ms, key);
    assert ([m] + ms)[1..] == ms;
  }

  lemma {:induction false} WithoutHas(members: seq<Member>, key: Text, other: Text)
    requires other != key
    ensures Has(Without(members, key), other) <==> Has(members, other)
    ensures Has(members, other) ==> Get(Without(members, key), other) == Get(members, other)
  {
    if members != [] {
      var m, ms := members[0], members[1..];
      assert members == [m] + ms;
      WithoutHas(ms, key, other);
      HasCons(m, ms, other);
      HasCons(m, Without(ms, key), other);
      if m.key != other && Has(ms, other) {
        GetCons(m, ms, other);
        GetCons(m, Without(ms, key), other);
      }
    }
  }

  lemma {:induction false} WithoutDistinct(members: seq<Member>, key: Text)
    requires DistinctKeys(members)
    ensures DistinctKeys(Without(members, key))
  {
    if members != [] {
      WithoutDistinct(members[1..], key);
      forall m | m in Without(members[1..], key) ensures m.key != members[0].key {
        assert m in members[1..];
      }
    }
  }

  /** Both objects hold the key with the same value, or neither holds it. */
  predicate Agree(p: seq<Member>, q: seq<Member>, key: Text) {
    && (Has(p, key) <==> Has(q, key))
    && (Has(p, key) ==> SameValue(Get(p, key), Get(q, key)))
  }

  lemma SameAgree(p: seq<Member>, q: seq<Member>, key: Text)
    requires DistinctKeys(p) && SameValue(Obj(p), Obj(q))
    ensures Agree(p, q, key)
  {
    if Has(p, key) {
      var i :| 0 <= i < |p| && p[i].key == key;
      GetUnique(p, i);
    }
  }

  lemma AgreeSame(p: seq<Member>, q: seq<Member>)
    requires DistinctKeys(p) && DistinctKeys(q) && forall key :: Agree(p, q, key)
    ensures SameValue(Obj(p), Obj(q))
  {
    forall i | 0 <= i < |p| ensures Has(q, p[i].key) && SameValue(p[i].value, Get(q, p[i].key)) {
      GetUnique(p, i);
      assert Agree(p, q, p[i].key);
    }
    forall i | 0 <= i < |q| ensures Has(p, q[i].key) {
      GetUnique(q, i);
      assert Agree(p, q, q[i].key);
    }
  }

  /** Two offers have equal signing bytes exactly when they agree on every field but the signature. */
  lemma OfferBytesFixEveryField(a: Json, b: Json)
    requires a.Obj? && b.Obj? && Valid(a) && Valid(b) && UniqueKeys(a) && UniqueKeys(b)
    ensures CanonicalBytes(OfferSigningPayload(a)) == CanonicalBytes(OfferSigningPayload(b)) <==>
            forall key :: key != SIGNATURE ==> Agree(a.members, b.members, key)
  {
    var p, q := Without(a.members, SIGNATURE), Without(b.members, SIGNATURE);
    WithoutDistinct(a.members, SIGNATURE);
    WithoutDistinct(b.members, SIGNATURE);
    CanonicalBytesInjective(Obj(p), Obj(q));
    forall key | key != SIGNATURE ensures Agree(p, q, key) <==> Agree(a.members, b.members, key) {
      WithoutHas(a.members, SIGNATURE, key);
      WithoutHas(b.members, SIGNATURE, key);
    }
    if SameValue(Obj(p), Obj(q)) {
      forall key ensures Agree(p, q, key) {
        SameAgree(p, q, key);
      }
    }
    assert !Has(p, SIGNATURE) && !Has(q, SIGNATURE);
    if forall key :: key != SIGNATURE ==> Agree(a.members, b.members, key) {
      forall key ensures Agree(p, q, key) {}
      AgreeSame(p, q);
    }
  }

  lemma AlignedMembers(p: seq<Member>, q: seq<Member>)
    requires |p| == |q| && DistinctKeys(p) && forall i :: 0 <= i < |p| ==> p[i].key == q[i].key
    ensures SameValue(Obj(p), Obj(q)) <==> forall i :: 0 <= i < |p| ==> SameValue(p[i].value, q[i].value)
  {
    forall i | 0 <= i < |p| ensures Has(p, q[i].key) && Has(q, p[i].key) && Get(q, p[i].key) == q[i].value {
      GetUnique(p, i);
      GetUnique(q, i);
    }
  }

  lemma TermsSame(i: Json, s: Json, a: Json, j: Json, t: Json, b: Json)
    ensures SameValue(BuyerTerms(i, s, a), BuyerTerms(j, t, b)) <==> SameValue(i, j) && SameValue(s, t) && SameValue(a, b)
  {
    assert |INCIDENT_ID| == 10 && |SELECTED_PROVIDER| == 16 && |AGREEMENT| == 9;
    var p, q := BuyerTerms(i, s, a).members, BuyerTerms(j, t, b).members;
    assert p[0].value == i && p[1].value == s && p[2].value == a;
    assert q[0].value == j && q[1].value == t && q[2].value == b;
    AlignedMembers(p, q);
  }

  lemma TermsShape(i: Json, s: Json, a: Json)
    requires UniqueKeys(i) && UniqueKeys(s) && UniqueKeys(a) && Valid(i) && Valid(s) && Valid(a)
    ensures UniqueKeys(BuyerTerms(i, s, a)) && Valid(BuyerTerms(i, s, a))
  {
    assert |INCIDENT_ID| == 10 && |SELECTED_PROVIDER| == 16 && |AGREEMENT| == 9;
  }

  lemma GetIn(members: seq<Member>, key: Text)
    requires Has(members, key) && Valid(Obj(members)) && UniqueKeys(Obj(members))
    ensures Valid(Get(members, key)) && UniqueKeys(Get(members, key))
  {}

  /** Two selected offers have equal buyer bytes exactly when incident, provider and agreement agree;
      rejected offers, timing and activation are free to differ. */
  lemma BuyerBytesFixTheDeal(a: Json, b: Json)
    requires HasBuyerTerms(a) && HasBuyerTerms(b) && Valid(a) && Valid(b) && UniqueKeys(a) && UniqueKeys(b)
    ensures CanonicalBytes(BuyerAgreementPayload(a)) == CanonicalBytes(BuyerAgreementPayload(b)) <==>
            && SameValue(Get(a.members, INCIDENT_ID), Get(b.members, INCIDENT_ID))
            && SameValue(Get(a.members, SELECTED_PROVIDER), Get(b.members, SELECTED_PROVIDER))
            && SameValue(Get(a.members, AGREEMENT), Get(b.members, AGREEMENT))
  {
    var ms, ns := a.members, b.members;
    GetIn(ms, INCIDENT_ID);
    GetIn(ms, SELECTED_PROVIDER);
    GetIn(ms, AGREEMENT);
    GetIn(ns, INCIDENT_ID);
    GetIn(ns, SELECTED_PROVIDER);
    GetIn(ns, AGREEMENT);
    TermsSame(Get(ms, INCIDENT_ID), Get(ms, SELECTED_PROVIDER), Get(ms, AGREEMENT),
              Get(ns, INCIDENT_ID), Get(ns, SELECTED_PROVIDER), Get(ns, AGREEMENT));
    TermsShape(Get(ms, INCIDENT_ID), Get(ms, SELECTED_PROVIDER), Get(ms, AGREEMENT));
    TermsShape(Get(ns, INCIDENT_ID), Get(ns, SELECTED_PROVIDER), Get(ns, AGREEMENT));
    CanonicalBytesInjective(BuyerAgreementPayload(a), BuyerAgreementPayload(b));
  }
}
