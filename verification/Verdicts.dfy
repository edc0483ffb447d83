/** Merging the models' verdicts on a claim (`mergeVerdicts` in src/a2a/claimAgent.js). Scores are exact reals. */
module Verdicts {
  import opened Units
  import opened Rounding
  import opened StableSort

  datatype Answer = Answer(verdict: Text, score: real)

  /** A verdict with its number of votes; entries stand in the order of first mention. */
  datatype Entry = Entry(verdict: Text, votes: nat)

  function Votes(answers: seq<Answer>, verdict: Text): nat {
    if answers == [] then 0
    else Votes(answers[..|answers| - 1], verdict) + (if answers[|answers| - 1].verdict == verdict then 1 else 0)
  }

  function Place(entries: seq<Entry>, verdict: Text): (i: nat)
    ensures i <= |entries| && (i < |entries| ==> entries[i].verdict == verdict)
    ensures forall j :: 0 <= j < i ==> entries[j].verdict != verdict
  {
    if entries == [] || entries[0].verdict == verdict then 0 else 1 + Place(entries[1..], verdict)
  }

  predicate Exact(entries: seq<Entry>, answers: seq<Answer>) {
    forall i :: 0 <= i < |entries| ==> entries[i].votes == Votes(answers, entries[i].verdict) && entries[i].votes > 0
  }

  predicate Apart(entries: seq<Entry>) {
    forall i, j :: 0 <= i < j < |entries| ==> entries[i].verdict != entries[j].verdict
  }

  ghost predicate Covers(entries: seq<Entry>, answers: seq<Answer>) {
    forall v: Text :: Votes(answers, v) > 0 ==> Place(entries, v) < |entries|
  }

  /** The vote table holds each verdict that has votes once, with their number. */
  ghost predicate Tallied(entries: seq<Entry>, answers: seq<Answer>) {
    Exact(entries, answers) && Apart(entries) && Covers(entries, answers)
  }

  lemma VotesOneMore(answers: seq<Answer>, a: Answer, verdict: Text)
    ensures Votes(answers + [a], verdict) == Votes(answers, verdict) + if a.verdict == verdict then 1 else 0
  {
    assert (answers + [a])[..|answers|] == answers;
  }

  /** `weights.set(verdict, (weights.get(verdict) ?? 0) + 1)` */
  function Add(entries: seq<Entry>, verdict: Text): seq<Entry> {
    var k := Place(entries, verdict);
    if k < |entries| then entries[k := Entry(verdict, entries[k].votes + 1)] else entries + [Entry(verdict, 1)]
  }

  method Tally(answers: seq<Answer>) returns (entries: seq<Entry>)
    ensures Tallied(entries, answers)
  {
    entries := [];
    var i := 0;
    while i < |answers|
      invariant i <= |answers| && Tallied(entries, answers[..i])
    {
      assert answers[..i + 1] == answers[..i] + [answers[i]];
      CountOne(entries, answers[..i], answers[i]);
      entries := Add(entries, answers[i].verdict);
      i := i + 1;
    }
    assert answers[..i] == answers;
  }

  lemma {:induction false} CountOne(entries: seq<Entry>, answers: seq<Answer>, a: Answer)
    requires Tallied(entries, answers)
    ensures Tallied(Add(entries, a.verdict), answers + [a])
  {
    CountExact(entries, answers, a);
    CountApart(entries, a.verdict);
    CountCovers(entries, answers, a);
  }

  lemma {:induction false} CountExact(entries: seq<Entry>, answers: seq<Answer>, a: Answer)
    requires Tallied(entries, answers)
    ensures Exact(Add(entries, a.verdict), answers + [a])
  {
    var after, k := Add(entries, a.verdict), Place(entries, a.verdict);
    VotesOneMore(answers, a, a.verdict);
    forall i | 0 <= i < |after| ensures after[i].votes == Votes(answers + [a], after[i].verdict) && after[i].votes > 0 {
      VotesOneMore(answers, a, after[i].verdict);
      if i != k {
        assert after[i] == entries[i];
      }
    }
  }

  lemma {:induction false} CountApart(entries: seq<Entry>, verdict: Text)
    requires Apart(entries)
    ensures Apart(Add(entries, verdict))
  {
    var after, k := Add(entries, verdict), Place(entries, verdict);
    assert forall i :: 0 <= i < |entries| ==> after[i].verdict == entries[i].verdict;
  }

  lemma {:induction false} CountCovers(entries: seq<Entry>, answers: seq<Answer>, a: Answer)
    requires Covers(entries, answers)
    ensures Covers(Add(entries, a.verdict), answers + [a])
  {
    var after := Add(entries, a.verdict);
    forall v: Text | Votes(answers + [a], v) > 0 ensures Place(after, v) < |after| {
      VotesOneMore(answers, a, v);
      PlaceAfter(entries, after, a.verdict, Place(entries, a.verdict), v);
    }
  }

  lemma {:induction false} PlaceAfter(before: seq<Entry>, after: seq<Entry>, verdict: Text, k: nat, v: Text)
    requires k == Place(before, verdict) && |after| == (if k < |before| then |before| else |before| + 1)
    requires after[k].verdict == verdict && forall i :: 0 <= i < |before| && i != k ==> after[i] == before[i]
    ensures Place(after, v) == if v == verdict then k else if Place(before, v) < |before| then Place(before, v) else |after|
  {
    var p := Place(after, v);
    var q := Place(before, v);
    if v == verdict {
      assert forall j :: 0 <= j < k ==> after[j].verdict != v;
    } else if q < |before| {
      assert after[q] == before[q];
      assert forall j :: 0 <= j < q ==> after[j].verdict != v;
    } else {
      assert forall j :: 0 <= j < |after| ==> after[j].verdict != v;
    }
  }

  lemma TableIsNotEmpty(answers: seq<Answer>, entries: seq<Entry>)
    requires Tallied(entries, answers) && answers != []
    ensures entries != []
  {
    assert Votes(answers, answers[|answers| - 1].verdict) > 0;
  }

  predicate MoreVotes(a: Entry, b: Entry) {
    a.votes >= b.votes
  }

  function Sum(scores: seq<Answer>): real {
    if scores == [] then 0.0 else Sum(scores[..|scores| - 1]) + scores[|scores| - 1].score
  }

  function Mean(answers: seq<Answer>): real
    requires answers != []
  {
    Sum(answers) / |answers| as real
  }

  function Highest(answers: seq<Answer>): (m: real)
    requires answers != []
    ensures forall a :: a in answers ==> a.score <= m
    ensures exists a :: a in answers && a.score == m
  {
    var last := answers[|answers| - 1];
    if |answers| == 1 then last.score
    else
      var rest := Highest(answers[..|answers| - 1]);
      assert answers == answers[..|answers| - 1] + [last];
      if last.score > rest then last.score else rest
  }

  function Lowest(answers: seq<Answer>): (m: real)
    requires answers != []
    ensures forall a :: a in answers ==> m <= a.score
    ensures exists a :: a in answers && a.score == m
  {
    var last := answers[|answers| - 1];
    if |answers| == 1 then last.score
    else
      var rest := Lowest(answers[..|answers| - 1]);
      assert answers == answers[..|answers| - 1] + [last];
      if last.score < rest then last.score else rest
  }

  datatype Merged = Merged(verdict: Text, agree: nat, score: int, bandLow: int, bandHigh: int)

  function AtLeast0(x: real): real {
    if x > 0.0 then x else 0.0
  }

  function AtMost100(x: real): real {
    if x < 100.0 then x else 100.0
  }

  function HalfSpread(answers: seq<Answer>): real
    requires answers != []
  {
    (Highest(answers) - Lowest(answers)) / 2.0
  }

  /** The first verdict mentioned among those with the most votes. */
  predicate FirstMost(table: seq<Entry>, i: nat, e: Entry) {
    && i < |table| && table[i] == e
    && (forall j :: 0 <= j < |table| ==> table[j].votes <= e.votes)
    && (forall j :: 0 <= j < i ==> table[j].votes < e.votes)
  }

  method Leading(table: seq<Entry>) returns (first: Entry)
    requires table != []
    ensures exists i: nat :: FirstMost(table, i, first)
  {
    FirstOfSorted(table);
    var sorted := Sort(table, MoreVotes);
    first := sorted[0];
  }

  /** None for no usable answer: the verdict is then UNVERIFIABLE. */
  method MergeVerdicts(ok: seq<Answer>) returns (m: Option<Merged>, table: seq<Entry>)
    ensures m.None? <==> ok == []
    ensures Tallied(table, ok)
    ensures m.Some? ==>
      && (exists i: nat :: FirstMost(table, i, Entry(m.value.verdict, m.value.agree)))
      && m.value.score == Round(Mean(ok))
      && m.value.bandLow == Round(AtLeast0(Mean(ok) - HalfSpread(ok)))
      && m.value.bandHigh == Round(AtMost100(Mean(ok) + HalfSpread(ok)))
  {
    table := Tally(ok);
    if |ok| == 0 {
      return None, table;
    }
    TableIsNotEmpty(ok, table);
    var mean := Mean(ok);
    var spread := HalfSpread(ok);
    var first := Leading(table);
    m := Some(Merged(first.verdict, first.votes, Round(mean), Round(AtLeast0(mean - spread)), Round(AtMost100(mean + spread))));
  }

  lemma FirstOfCons(x: Entry, rest: seq<Entry>, i: nat, first: Entry)
    requires FirstMost(rest, i, first)
    ensures MoreVotes(x, first) ==> FirstMost([x] + rest, 0, x)
    ensures !MoreVotes(x, first) ==> FirstMost([x] + rest, i + 1, first)
  {
    var all := [x] + rest;
    forall j | 0 <= j < |all| ensures all[j] == if j == 0 then x else rest[j - 1] {}
    assert all[i + 1] == first;
  }

  /** The first entry after a stable sort by votes: none has more, and none before it in the table has as many. */
  lemma {:induction false} FirstOfSorted(table: seq<Entry>)
    requires table != []
    ensures Sort(table, MoreVotes) != [] && exists i: nat :: FirstMost(table, i, Sort(table, MoreVotes)[0])
  {
    if |table| > 1 {
      FirstOfSorted(table[1..]);
      var rest := Sort(table[1..], MoreVotes);
      var i: nat :| FirstMost(table[1..], i, rest[0]);
      FirstOfCons(table[0], table[1..], i, rest[0]);
      assert table == [table[0]] + table[1..];
    } else {
      assert Sort(table[1..], MoreVotes) == [];
      assert Sort(table, MoreVotes) == [table[0]];
      assert FirstMost(table, 0, Sort(table, MoreVotes)[0]);
    }
  }

  /** The mean is the total of the scores over their number; the total is additive. */
  lemma MeanIsTotalOverCount(ok: seq<Answer>)
    requires ok != []
    ensures Mean(ok) * |ok| as real == Sum(ok)
  {}

  lemma {:induction false} SumOfParts(a: seq<Answer>, b: seq<Answer>)
    ensures Sum(a + b) == Sum(a) + Sum(b)
  {
    if b == [] {
      assert a + b == a;
    } else {
      assert (a + b)[..|a + b| - 1] == a + b[..|b| - 1];
      SumOfParts(a, b[..|b| - 1]);
    }
  }

  lemma SumOfOne(x: Answer)
    ensures Sum([x]) == x.score
  {
    assert [x][..0] == [];
  }

  /** The spread is half the way from the lowest score to the highest, whichever answers gave them. */
  lemma SpreadIsHalfTheRange(ok: seq<Answer>, low: Answer, high: Answer)
    requires low in ok && high in ok && forall a :: a in ok ==> low.score <= a.score <= high.score
    ensures 2.0 * HalfSpread(ok) == high.score - low.score
  {
    var h :| h in ok && h.score == Highest(ok);
    var l :| l in ok && l.score == Lowest(ok);
  }

  /** The band holds the score, and stays between 0 and 100, when the scores do. */
  lemma BandHoldsTheScore(ok: seq<Answer>)
    requires ok != [] && forall a :: a in ok ==> 0.0 <= a.score <= 100.0
    ensures 0 <= Round(AtLeast0(Mean(ok) - HalfSpread(ok))) <= Round(Mean(ok)) <= Round(AtMost100(Mean(ok) + HalfSpread(ok))) <= 100
  {
    MeanBounds(ok);
    var mean, half := Mean(ok), HalfSpread(ok);
    var low, high := AtLeast0(mean - half), AtMost100(mean + half);
    RoundsTo(0.0, 0);
    RoundsTo(100.0, 100);
    RoundMonotone(0.0, low);
    RoundMonotone(low, mean);
    RoundMonotone(mean, high);
    RoundMonotone(high, 100.0);
  }

  lemma RoundMonotone(x: real, y: real)
    requires x <= y
    ensures Round(x) <= Round(y)
  {}

  lemma {:induction false} SumBounds(ok: seq<Answer>)
    requires forall a :: a in ok ==> 0.0 <= a.score <= 100.0
    ensures 0.0 <= Sum(ok) <= 100.0 * |ok| as real
  {
    if ok != [] {
      SumBounds(ok[..|ok| - 1]);
    }
  }

  lemma MeanBounds(ok: seq<Answer>)
    requires ok != [] && forall a :: a in ok ==> 0.0 <= a.score <= 100.0
    ensures 0.0 <= Mean(ok) <= 100.0
  {
    SumBounds(ok);
    var n := |ok| as real;
    assert Mean(ok) * n == Sum(ok);
    ScaleLt(Mean(ok), 0.0, n);
    ScaleLt(100.0, Mean(ok), n);
  }
}
