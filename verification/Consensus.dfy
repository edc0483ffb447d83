/** Merging the models' ballots into one ranking (src/a2a/gonkaRanker.js). */
module Consensus {
  import opened Units
  import opened StableSort

  type Ballot = seq<Text>

  predicate Distinct(xs: seq<Text>) {
    forall i, j :: 0 <= i < j < |xs| ==> xs[i] != xs[j]
  }

  function IndexOf(xs: seq<Text>, x: Text): (i: nat)
    ensures i <= |xs| && (i < |xs| <==> x in xs)
    ensures i < |xs| ==> xs[i] == x
    ensures forall j :: 0 <= j < i ==> xs[j] != x
  {
    if xs == [] || xs[0] == x then 0 else 1 + IndexOf(xs[1..], x)
  }

  // ---- Scores ----------------------------------------------------------------------------

  /** What one ballot adds for a provider: the positions at which it stands. */
  function Positions(ballot: Ballot, id: Text): nat {
    if ballot == [] then 0
    else
      var n := |ballot| - 1;
      Positions(ballot[..n], id) + (if ballot[n] == id then n else 0)
  }

  function PositionSum(votes: seq<Ballot>, id: Text): nat {
    if votes == [] then 0 else PositionSum(votes[..|votes| - 1], id) + Positions(votes[|votes| - 1], id)
  }

  predicate Ranked(votes: seq<Ballot>, id: Text) {
    exists i :: 0 <= i < |votes| && id in votes[i]
  }

  /** A provider that no ballot ranks stands at the number of providers. */
  function Score(votes: seq<Ballot>, order: seq<Text>, id: Text): nat {
    if Ranked(votes, id) then PositionSum(votes, id) else |order|
  }

  predicate Beats(votes: seq<Ballot>, order: seq<Text>, a: Text, b: Text) {
    var x, y := Score(votes, order, a), Score(votes, order, b);
    if x != y then x < y else IndexOf(order, a) <= IndexOf(order, b)
  }

  function Merged(votes: seq<Ballot>, order: seq<Text>): seq<Text> {
    Sort(order, (a, b) => Beats(votes, order, a, b))
  }

  // ---- The accumulation ---------------------------------------------------------------------

  lemma PositionsOneMore(ballot: Ballot, j: nat, id: Text)
    requires j < |ballot|
    ensures Positions(ballot[..j + 1], id) == Positions(ballot[..j], id) + if ballot[j] == id then j else 0
  {
    assert ballot[..j + 1][..j] == ballot[..j];
  }

  lemma SumOneMore(votes: seq<Ballot>, i: nat, id: Text)
    requires i < |votes|
    ensures PositionSum(votes[..i + 1], id) == PositionSum(votes[..i], id) + Positions(votes[i], id)
    ensures Ranked(votes[..i + 1], id) <==> Ranked(votes[..i], id) || id in votes[i]
  {
    assert votes[..i + 1][..i] == votes[..i];
    if Ranked(votes[..i], id) {
      var k :| 0 <= k < i && id in votes[..i][k];
      assert id in votes[..i + 1][k];
    }
    if id in votes[i] {
      assert id in votes[..i + 1][i];
    }
  }

  /** The map holds exactly the ranked providers, each with its sum of positions. */
  ghost predicate Accumulated(sums: map<Text, nat>, votes: seq<Ballot>, part: Ballot) {
    forall id: Text ::
      && (id in sums <==> Ranked(votes, id) || id in part)
      && (id in sums ==> sums[id] == PositionSum(votes, id) + Positions(part, id))
  }

  method MergeVotes(votes: seq<Ballot>, order: seq<Text>) returns (ranking: seq<Text>)
    ensures ranking == Merged(votes, order)
  {
    var positionSum: map<Text, nat> := map[];
    var i := 0;
    while i < |votes|
      invariant i <= |votes| && Accumulated(positionSum, votes[..i], [])
    {
      var vote := votes[i];
      var j := 0;
      while j < |vote|
        invariant j <= |vote| && Accumulated(positionSum, votes[..i], vote[..j])
      {
        var before := if vote[j] in positionSum then positionSum[vote[j]] else 0;
        AccumulateOne(positionSum, votes[..i], vote, j);
        positionSum := positionSum[vote[j] := before + j];
        j := j + 1;
      }
      assert vote[..j] == vote;
      AccumulateBallot(positionSum, votes, i);
      i := i + 1;
    }
    assert votes[..i] == votes;
    ranking := Sort(order, (a, b) => Precedes(positionSum, order, a, b));
    PrecedesIsBeats(positionSum, votes, order);
  }

  /** The comparator, over the accumulated sums. */
  predicate Precedes(sums: map<Text, nat>, order: seq<Text>, a: Text, b: Text) {
    var x, y := if a in sums then sums[a] else |order|, if b in sums then sums[b] else |order|;
    if x != y then x < y else IndexOf(order, a) <= IndexOf(order, b)
  }

  lemma PrecedesIsBeats(sums: map<Text, nat>, votes: seq<Ballot>, order: seq<Text>)
    requires Accumulated(sums, votes, [])
    ensures Sort(order, (a, b) => Precedes(sums, order, a, b)) == Merged(votes, order)
  {
    SameComparator(order, (a, b) => Precedes(sums, order, a, b), (a, b) => Beats(votes, order, a, b));
  }

  lemma AccumulateOne(sums: map<Text, nat>, votes: seq<Ballot>, vote: Ballot, j: nat)
    requires j < |vote| && Accumulated(sums, votes, vote[..j])
    ensures Accumulated(sums[vote[j] := (if vote[j] in sums then sums[vote[j]] else 0) + j], votes, vote[..j + 1])
  {
    assert vote[..j + 1] == vote[..j] + [vote[j]];
    forall id: Text
      ensures Positions(vote[..j + 1], id) == Positions(vote[..j], id) + if vote[j] == id then j else 0
      ensures id !in sums ==> PositionSum(votes, id) == 0 && Positions(vote[..j], id) == 0
    {
      PositionsOneMore(vote, j, id);
      if id !in sums {
        UnrankedSums(votes, id);
        AbsentPositions(vote[..j], id);
      }
    }
  }

  lemma {:induction false} AbsentPositions(ballot: Ballot, id: Text)
    requires id !in ballot
    ensures Positions(ballot, id) == 0
  {
    if ballot != [] {
      AbsentPositions(ballot[..|ballot| - 1], id);
    }
  }

  lemma {:induction false} UnrankedSums(votes: seq<Ballot>, id: Text)
    requires !Ranked(votes, id)
    ensures PositionSum(votes, id) == 0
  {
    if votes != [] {
      var n := |votes| - 1;
      assert id !in votes[n];
      AbsentPositions(votes[n], id);
      assert forall i :: 0 <= i < n ==> votes[..n][i] == votes[i];
      UnrankedSums(votes[..n], id);
    }
  }

  lemma AccumulateBallot(sums: map<Text, nat>, votes: seq<Ballot>, i: nat)
    requires i < |votes| && Accumulated(sums, votes[..i], votes[i])
    ensures Accumulated(sums, votes[..i + 1], [])
  {
    forall id: Text
      ensures PositionSum(votes[..i + 1], id) == PositionSum(votes[..i], id) + Positions(votes[i], id)
      ensures Ranked(votes[..i + 1], id) <==> Ranked(votes[..i], id) || id in votes[i]
    {
      SumOneMore(votes, i, id);
    }
  }

  lemma {:induction false} SameComparator(xs: seq<Text>, f: (Text, Text) -> bool, g: (Text, Text) -> bool)
    requires forall a, b :: f(a, b) == g(a, b)
    ensures Sort(xs, f) == Sort(xs, g)
  {
    if xs != [] {
      SameComparator(xs[1..], f, g);
      SameInsert(xs[0], Sort(xs[1..], g), f, g);
    }
  }

  lemma {:induction false} SameInsert(x: Text, xs: seq<Text>, f: (Text, Text) -> bool, g: (Text, Text) -> bool)
    requires forall a, b :: f(a, b) == g(a, b)
    ensures Insert(x, xs, f) == Insert(x, xs, g)
  {
    if xs != [] && !f(x, xs[0]) {
      SameInsert(x, xs[1..], f, g);
    }
  }

  // ---- What the merged ranking is -------------------------------------------------------------

  lemma BeatsIsAnOrder(votes: seq<Ballot>, order: seq<Text>)
    ensures TotalPreorder((a: Text, b: Text) => Beats(votes, order, a, b))
  {}

  /** Whatever the ballots, the ranking is a rearrangement of the deterministic order. */
  lemma MergedPermutes(votes: seq<Ballot>, order: seq<Text>)
    ensures multiset(Merged(votes, order)) == multiset(order) && |Merged(votes, order)| == |order|
  {
    SortPermutes(order, (a: Text, b: Text) => Beats(votes, order, a, b));
  }

  ghost predicate SortedBy(votes: seq<Ballot>, order: seq<Text>, ranking: seq<Text>) {
    forall i, j :: 0 <= i < j < |ranking| ==> Beats(votes, order, ranking[i], ranking[j])
  }

  /** The ranking is the only rearrangement in which every provider beats those after it. */
  lemma MergedIsUnique(votes: seq<Ballot>, order: seq<Text>, ranking: seq<Text>)
    requires multiset(ranking) == multiset(order)
    ensures SortedBy(votes, order, ranking) <==> ranking == Merged(votes, order)
  {
    var le := (a: Text, b: Text) => Beats(votes, order, a, b);
    BeatsIsAnOrder(votes, order);
    SortSorted(order, le);
    MergedPermutes(votes, order);
    if SortedBy(votes, order, ranking) {
      forall x, y | x in ranking && y in ranking && le(x, y) && le(y, x) ensures x == y {
        assert x in multiset(ranking) && y in multiset(ranking);
        assert x in order && y in order;
      }
      SortUnique(ranking, Merged(votes, order), le);
    }
  }

  /** In a sorted order without ties, one element stands before another exactly when it comes first in the comparison. */
  lemma SortedStands(order: seq<Text>, le: (Text, Text) -> bool, a: Text, b: Text)
    requires TotalPreorder(le) && a in order && b in order && a != b && !(le(a, b) && le(b, a))
    ensures var m := Sort(order, le);
            && IndexOf(m, a) != IndexOf(m, b)
            && (IndexOf(m, a) < IndexOf(m, b) <==> le(a, b))
  {
    var m := Sort(order, le);
    SortPermutes(order, le);
    SortSorted(order, le);
    assert a in multiset(m) && b in multiset(m);
    var i, j := IndexOf(m, a), IndexOf(m, b);
    assert i < j ==> le(m[i], m[j]);
    assert j < i ==> le(m[j], m[i]);
  }

  /** `a` stands before `b` in the ranking exactly when it beats it. */
  lemma StandsBefore(votes: seq<Ballot>, order: seq<Text>, a: Text, b: Text)
    requires Distinct(order) && a in order && b in order && a != b
    ensures IndexOf(Merged(votes, order), a) < IndexOf(Merged(votes, order), b) <==> Beats(votes, order, a, b)
  {
    BeatsIsAnOrder(votes, order);
    assert IndexOf(order, a) != IndexOf(order, b);
    SortedStands(order, (x: Text, y: Text) => Beats(votes, order, x, y), a, b);
  }

  // ---- The order of the ballots does not matter --------------------------------------------------

  lemma {:induction false} SumWithout(votes: seq<Ballot>, k: nat, id: Text)
    requires k < |votes|
    ensures PositionSum(votes, id) == PositionSum(votes[..k] + votes[k + 1..], id) + Positions(votes[k], id)
  {
    var n := |votes| - 1;
    var rest := votes[..k] + votes[k + 1..];
    if k < n {
      SumWithout(votes[..n], k, id);
      assert rest[..|rest| - 1] == votes[..n][..k] + votes[..n][k + 1..];
      assert rest[|rest| - 1] == votes[n];
    } else {
      assert rest == votes[..n];
    }
  }

  lemma WithoutMultiset(votes: seq<Ballot>, k: nat)
    requires k < |votes|
    ensures multiset(votes[..k] + votes[k + 1..]) == multiset(votes) - multiset{votes[k]}
  {
    assert votes == votes[..k] + [votes[k]] + votes[k + 1..];
  }

  lemma {:induction false} SumOfSameBallots(u: seq<Ballot>, v: seq<Ballot>, id: Text)
    requires multiset(u) == multiset(v)
    ensures PositionSum(u, id) == PositionSum(v, id)
    decreases |u|
  {
    assert |multiset(u)| == |u| && |multiset(v)| == |v|;
    if u != [] {
      var n := |u| - 1;
      assert u[n] in multiset(v);
      var k :| 0 <= k < |v| && v[k] == u[n];
      SumWithout(v, k, id);
      WithoutMultiset(v, k);
      WithoutMultiset(u, n);
      assert u[..n] + u[n + 1..] == u[..n];
      SumOfSameBallots(u[..n], v[..k] + v[k + 1..], id);
    }
  }

  lemma RankedInSameBallots(u: seq<Ballot>, v: seq<Ballot>, id: Text)
    requires multiset(u) == multiset(v) && Ranked(u, id)
    ensures Ranked(v, id)
  {
    var i :| 0 <= i < |u| && id in u[i];
    assert u[i] in multiset(v);
  }

  /** Answers may arrive in any order. */
  lemma BallotOrderIsIrrelevant(u: seq<Ballot>, v: seq<Ballot>, order: seq<Text>)
    requires multiset(u) == multiset(v)
    ensures Merged(u, order) == Merged(v, order)
  {
    forall a, b ensures Beats(u, order, a, b) == Beats(v, order, a, b) {
      ScoreOfSameBallots(u, v, order, a);
      ScoreOfSameBallots(u, v, order, b);
    }
    SameComparator(order, (a, b) => Beats(u, order, a, b), (a, b) => Beats(v, order, a, b));
  }

  lemma ScoreOfSameBallots(u: seq<Ballot>, v: seq<Ballot>, order: seq<Text>, id: Text)
    requires multiset(u) == multiset(v)
    ensures Score(u, order, id) == Score(v, order, id)
  {
    SumOfSameBallots(u, v, id);
    if Ranked(u, id) {
      RankedInSameBallots(u, v, id);
    }
    if Ranked(v, id) {
      RankedInSameBallots(v, u, id);
    }
  }

  // ---- Complete ballots: Borda's rule -------------------------------------------------------------

  predicate Complete(ballot: Ballot, order: seq<Text>) {
    Distinct(ballot) && multiset(ballot) == multiset(order)
  }

  predicate AllComplete(votes: seq<Ballot>, order: seq<Text>) {
    forall i :: 0 <= i < |votes| ==> Complete(votes[i], order)
  }

  /** The Borda count: over all ballots, how many providers stand above this one. */
  function BordaCount(votes: seq<Ballot>, id: Text): nat {
    if votes == [] then 0 else BordaCount(votes[..|votes| - 1], id) + IndexOf(votes[|votes| - 1], id)
  }

  lemma {:induction false} PositionsOfDistinct(ballot: Ballot, id: Text)
    requires Distinct(ballot) && id in ballot
    ensures Positions(ballot, id) == IndexOf(ballot, id)
  {
    var n := |ballot| - 1;
    if ballot[n] == id {
      AbsentPositions(ballot[..n], id);
      assert IndexOf(ballot, id) == n;
    } else {
      PositionsOfDistinct(ballot[..n], id);
      assert ballot[..n][IndexOf(ballot[..n], id)] == id;
      assert IndexOf(ballot, id) == IndexOf(ballot[..n], id);
    }
  }

  lemma {:induction false} SumIsBorda(votes: seq<Ballot>, order: seq<Text>, id: Text)
    requires AllComplete(votes, order) && id in order
    ensures PositionSum(votes, id) == BordaCount(votes, id)
    ensures votes != [] ==> Ranked(votes, id)
  {
    if votes != [] {
      var n := |votes| - 1;
      SumIsBorda(votes[..n], order, id);
      assert Complete(votes[n], order) && id in multiset(votes[n]);
      assert id in votes[n];
      PositionsOfDistinct(votes[n], id);
    }
  }

  /** On complete ballots the ranking is the Borda order, ties broken by the deterministic order. */
  lemma MergedIsBorda(votes: seq<Ballot>, order: seq<Text>, a: Text, b: Text)
    requires votes != [] && AllComplete(votes, order) && Distinct(order) && a in order && b in order && a != b
    ensures IndexOf(Merged(votes, order), a) < IndexOf(Merged(votes, order), b)
       <==> BordaCount(votes, a) < BordaCount(votes, b)
            || (BordaCount(votes, a) == BordaCount(votes, b) && IndexOf(order, a) < IndexOf(order, b))
  {
    SumIsBorda(votes, order, a);
    SumIsBorda(votes, order, b);
    StandsBefore(votes, order, a, b);
    assert IndexOf(order, a) != IndexOf(order, b);
  }

  predicate Unanimous(votes: seq<Ballot>, a: Text, b: Text) {
    forall i :: 0 <= i < |votes| ==> IndexOf(votes[i], a) < IndexOf(votes[i], b)
  }

  lemma {:induction false} UnanimousCount(votes: seq<Ballot>, a: Text, b: Text)
    requires Unanimous(votes, a, b)
    ensures BordaCount(votes, a) + |votes| <= BordaCount(votes, b)
  {
    if votes != [] {
      UnanimousCount(votes[..|votes| - 1], a, b);
    }
  }

  /** A provider that every model puts before another comes out before it. */
  lemma UnanimityIsRespected(votes: seq<Ballot>, order: seq<Text>, a: Text, b: Text)
    requires votes != [] && AllComplete(votes, order) && Distinct(order) && a in order && b in order && a != b
    requires Unanimous(votes, a, b)
    ensures IndexOf(Merged(votes, order), a) < IndexOf(Merged(votes, order), b)
  {
    UnanimousCount(votes, a, b);
    MergedIsBorda(votes, order, a, b);
  }

  lemma {:induction false} BordaOfUnion(u: seq<Ballot>, v: seq<Ballot>, id: Text)
    ensures BordaCount(u + v, id) == BordaCount(u, id) + BordaCount(v, id)
  {
    if v == [] {
      assert u + v == u;
    } else {
      BordaOfUnion(u, v[..|v| - 1], id);
      assert (u + v)[..|u + v| - 1] == u + v[..|v| - 1];
    }
  }

  /** Reinforcement: what two groups of models agree on, their union agrees on. */
  lemma Reinforcement(u: seq<Ballot>, v: seq<Ballot>, order: seq<Text>, a: Text, b: Text)
    requires u != [] && v != [] && AllComplete(u, order) && AllComplete(v, order) && Distinct(order)
    requires a in order && b in order && a != b
    requires IndexOf(Merged(u, order), a) < IndexOf(Merged(u, order), b)
    requires IndexOf(Merged(v, order), a) < IndexOf(Merged(v, order), b)
    ensures IndexOf(Merged(u + v, order), a) < IndexOf(Merged(u + v, order), b)
  {
    MergedIsBorda(u, order, a, b);
    MergedIsBorda(v, order, a, b);
    BordaOfUnion(u, v, a);
    BordaOfUnion(u, v, b);
    forall i | 0 <= i < |u + v| ensures Complete((u + v)[i], order) {
      assert (u + v)[i] == if i < |u| then u[i] else v[i - |u|];
    }
    MergedIsBorda(u + v, order, a, b);
  }

  // ---- Incomplete ballots -----------------------------------------------------------------------------

  /** An incomplete ballot can win: a provider that one model leaves out keeps only the positions the others
      gave it. Here `a` is first on one ballot and missing from the other, and beats `b`, which both rank. */
  lemma LeftOutCanWin(a: Text, b: Text)
    requires a != b
    ensures Merged([[a, b], [b]], [b, a]) == [a, b]
  {
    var votes, order := [[a, b], [b]], [b, a];
    TwoBallots([a, b], [b], a);
    TwoBallots([a, b], [b], b);
    TwoPositions(a, b);
    assert Positions([b], b) == 0 && Positions([b], a) == 0 by { assert [b][..0] == []; }
    assert votes[0] == [a, b] && a in votes[0] && b in votes[0];
    assert Score(votes, order, a) == 0 && Score(votes, order, b) == 1;
    assert Beats(votes, order, a, b);
    assert multiset([a, b]) == multiset([b, a]);
    MergedIsUnique(votes, order, [a, b]);
  }

  lemma TwoBallots(u: Ballot, v: Ballot, id: Text)
    ensures PositionSum([u, v], id) == Positions(u, id) + Positions(v, id)
  {
    assert [u, v][..1] == [u] && [u][..0] == [];
    assert PositionSum([u], id) == PositionSum([], id) + Positions(u, id);
  }

  lemma TwoPositions(a: Text, b: Text)
    requires a != b
    ensures Positions([a, b], a) == 0 && Positions([a, b], b) == 1
  {
    assert [a, b][..1] == [a] && [a][..0] == [];
    assert Positions([a], a) == 0 && Positions([a], b) == 0;
  }

  /** A provider that no model ranks comes before one that some model ranks exactly when that one's positions
      add up to more than the number of providers, or to just as much with a worse deterministic place. */
  lemma UnrankedBeatsRankedIff(votes: seq<Ballot>, order: seq<Text>, a: Text, b: Text)
    requires Distinct(order) && a in order && b in order && a != b && !Ranked(votes, a) && Ranked(votes, b)
    ensures IndexOf(Merged(votes, order), a) < IndexOf(Merged(votes, order), b)
       <==> PositionSum(votes, b) > |order| || (PositionSum(votes, b) == |order| && IndexOf(order, a) < IndexOf(order, b))
  {
    StandsBefore(votes, order, a, b);
    assert IndexOf(order, a) != IndexOf(order, b);
  }

  /** How many ballots leave the provider out. */
  function Omissions(votes: seq<Ballot>, id: Text): nat {
    if votes == [] then 0 else Omissions(votes[..|votes| - 1], id) + (if id in votes[|votes| - 1] then 0 else 1)
  }

  /** The score the source's comment describes: every omission counts as the place behind all providers. */
  function IntendedScore(votes: seq<Ballot>, order: seq<Text>, id: Text): nat {
    PositionSum(votes, id) + |order| * Omissions(votes, id)
  }

  predicate ShouldBeat(votes: seq<Ballot>, order: seq<Text>, a: Text, b: Text) {
    var x, y := IntendedScore(votes, order, a), IntendedScore(votes, order, b);
    if x != y then x < y else IndexOf(order, a) <= IndexOf(order, b)
  }

  function Intended(votes: seq<Ballot>, order: seq<Text>): seq<Text> {
    Sort(order, (a, b) => ShouldBeat(votes, order, a, b))
  }

  /** The omissions that the code does not count: all of a ranked provider's, all but one of an unranked one's. */
  function Forgotten(votes: seq<Ballot>, id: Text): int {
    if Ranked(votes, id) then Omissions(votes, id) else Omissions(votes, id) - 1
  }

  /** What they come to, at the number of providers each. */
  function Worth(votes: seq<Ballot>, order: seq<Text>, id: Text): int {
    |order| * Forgotten(votes, id)
  }

  lemma {:induction false} UnrankedOmissions(votes: seq<Ballot>, id: Text)
    requires !Ranked(votes, id)
    ensures Omissions(votes, id) == |votes|
  {
    if votes != [] {
      var n := |votes| - 1;
      assert id !in votes[n];
      assert forall i :: 0 <= i < n ==> votes[..n][i] == votes[i];
      UnrankedOmissions(votes[..n], id);
    }
  }

  lemma IntendedIsMore(votes: seq<Ballot>, order: seq<Text>, id: Text)
    ensures IntendedScore(votes, order, id) == Score(votes, order, id) + Worth(votes, order, id)
  {
    if !Ranked(votes, id) {
      UnrankedSums(votes, id);
      assert |order| * (Omissions(votes, id) - 1) == |order| * Omissions(votes, id) - |order|;
    }
  }

  lemma IntendedStandsBefore(votes: seq<Ballot>, order: seq<Text>, a: Text, b: Text)
    requires Distinct(order) && a in order && b in order && a != b
    ensures IndexOf(Intended(votes, order), a) < IndexOf(Intended(votes, order), b) <==> ShouldBeat(votes, order, a, b)
  {
    assert IndexOf(order, a) != IndexOf(order, b);
    SortedStands(order, (x: Text, y: Text) => ShouldBeat(votes, order, x, y), a, b);
  }

  /** For any two providers and any ballots, complete or not: where the code puts `a` before `b`, the intended order
      puts `b` before `a` exactly when the omissions that the code forgets, at the number of providers each, are worth
      more than the lead of `a`, or just as much with the better deterministic place for `b`. */
  lemma OrderIsWrongIff(votes: seq<Ballot>, order: seq<Text>, a: Text, b: Text)
    requires Distinct(order) && a in order && b in order && a != b
    requires IndexOf(Merged(votes, order), a) < IndexOf(Merged(votes, order), b)
    ensures var lead := Score(votes, order, b) - Score(votes, order, a);
            var worth := Worth(votes, order, a) - Worth(votes, order, b);
            IndexOf(Intended(votes, order), b) < IndexOf(Intended(votes, order), a)
            <==> worth > lead || (worth == lead && IndexOf(order, b) < IndexOf(order, a))
  {
    StandsBefore(votes, order, a, b);
    IntendedStandsBefore(votes, order, b, a);
    IntendedIsMore(votes, order, a);
    IntendedIsMore(votes, order, b);
  }

  /** So the code orders two ranked providers as intended whenever equally many ballots leave them out. */
  lemma EqualOmissionsAreFair(votes: seq<Ballot>, order: seq<Text>, a: Text, b: Text)
    requires Distinct(order) && a in order && b in order && a != b
    requires Ranked(votes, a) && Ranked(votes, b) && Omissions(votes, a) == Omissions(votes, b)
    ensures IndexOf(Merged(votes, order), a) < IndexOf(Merged(votes, order), b)
       <==> IndexOf(Intended(votes, order), a) < IndexOf(Intended(votes, order), b)
  {
    StandsBefore(votes, order, a, b);
    IntendedStandsBefore(votes, order, a, b);
    IntendedIsMore(votes, order, a);
    IntendedIsMore(votes, order, b);
  }

  /** In the ballots of `LeftOutCanWin` the intended order is the other one. */
  lemma LeftOutShouldLose(a: Text, b: Text)
    requires a != b
    ensures Merged([[a, b], [b]], [b, a]) == [a, b]
    ensures IndexOf(Intended([[a, b], [b]], [b, a]), b) < IndexOf(Intended([[a, b], [b]], [b, a]), a)
  {
    var votes, order := [[a, b], [b]], [b, a];
    LeftOutCanWin(a, b);
    LeftOutScores(a, b);
    IntendedStandsBefore(votes, order, b, a);
  }

  lemma LeftOutScores(a: Text, b: Text)
    requires a != b
    ensures IntendedScore([[a, b], [b]], [b, a], a) == 2 && IntendedScore([[a, b], [b]], [b, a], b) == 1
  {
    var u, v: Ballot := [a, b], [b];
    TwoBallots(u, v, a);
    TwoBallots(u, v, b);
    TwoPositions(a, b);
    assert Positions(v, b) == 0 && Positions(v, a) == 0 by { assert v[..0] == []; }
    assert [u, v][..1] == [u];
    assert Omissions([u], a) == 0 && Omissions([u], b) == 0;
    assert Omissions([u, v], a) == 1 && Omissions([u, v], b) == 0;
  }

  // ---- Reading one ballot ----------------------------------------------------------------------------

  /** `idMap.get(…)`: the last provider whose normalised id is this one. */
  function IdFor(ids: seq<Text>, norm: Text -> Text, name: Text): (r: Option<Text>)
    ensures r.Some? ==> r.value in ids && norm(r.value) == norm(name)
    ensures r.None? ==> forall i :: 0 <= i < |ids| ==> norm(ids[i]) != norm(name)
  {
    if ids == [] then None
    else if norm(ids[|ids| - 1]) == norm(name) then Some(ids[|ids| - 1])
    else IdFor(ids[..|ids| - 1], norm, name)
  }

  /** The known providers named in the answer, each at its first mention; `None` entries are not strings. */
  function Mentioned(ids: seq<Text>, norm: Text -> Text, answer: seq<Option<Text>>): seq<Text> {
    if answer == [] then []
    else
      var before, last := Mentioned(ids, norm, answer[..|answer| - 1]), answer[|answer| - 1];
      var id := if last.Some? then IdFor(ids, norm, last.value) else None;
      if id.Some? && id.value != [] && id.value !in before then before + [id.value] else before
  }

  /** The ranking list of one answer, as a ballot; None where no known provider is named. */
  function ParseVote(ids: seq<Text>, norm: Text -> Text, answer: seq<Option<Text>>): Option<Ballot> {
    var unique := Mentioned(ids, norm, answer);
    if unique == [] then None else Some(unique)
  }

  /** Whatever a model answers, its ballot names only quoting providers, none of them twice. */
  lemma {:induction false} BallotsAreClean(ids: seq<Text>, norm: Text -> Text, answer: seq<Option<Text>>)
    ensures Distinct(Mentioned(ids, norm, answer)) && forall id :: id in Mentioned(ids, norm, answer) ==> id in ids
  {
    if answer != [] {
      BallotsAreClean(ids, norm, answer[..|answer| - 1]);
    }
  }

  predicate NormalisedApart(ids: seq<Text>, norm: Text -> Text) {
    forall i, j :: 0 <= i < j < |ids| ==> norm(ids[i]) != norm(ids[j])
  }

  /** An answer that spells every provider its own way, each once, is read back as that ballot. */
  lemma {:induction false} FaithfulAnswersAreRead(ids: seq<Text>, norm: Text -> Text, answer: seq<Option<Text>>, ballot: Ballot)
    requires NormalisedApart(ids, norm) && Distinct(ballot) && |answer| == |ballot|
    requires forall i :: 0 <= i < |ballot| ==>
      ballot[i] in ids && ballot[i] != [] && answer[i].Some? && norm(answer[i].value) == norm(ballot[i])
    ensures Mentioned(ids, norm, answer) == ballot
  {
    if answer != [] {
      var n := |answer| - 1;
      FaithfulAnswersAreRead(ids, norm, answer[..n], ballot[..n]);
      var id := IdFor(ids, norm, answer[n].value);
      var i :| 0 <= i < |ids| && ids[i] == ballot[n];
      assert id.Some?;
      var j :| 0 <= j < |ids| && ids[j] == id.value;
      assert id.value == ballot[n];
      assert ballot == ballot[..n] + [ballot[n]];
    }
  }

  /** The ranking the consensus returns, or None for the deterministic fallback. */
  function Ranking(answers: seq<seq<Option<Text>>>, order: seq<Text>, norm: Text -> Text): Option<seq<Text>> {
    var votes := Votes(answers, order, norm);
    if |order| < 2 || votes == [] then None else Some(Merged(votes, order))
  }

  function Votes(answers: seq<seq<Option<Text>>>, ids: seq<Text>, norm: Text -> Text): seq<Ballot> {
    if answers == [] then []
    else
      var vote := ParseVote(ids, norm, answers[|answers| - 1]);
      Votes(answers[..|answers| - 1], ids, norm) + if vote.Some? then [vote.value] else []
  }

  /** The answer names some quoting provider. */
  predicate Names(ids: seq<Text>, norm: Text -> Text, answer: seq<Option<Text>>) {
    exists i, j :: 0 <= i < |answer| && 0 <= j < |ids| && answer[i].Some? && ids[j] != [] && norm(ids[j]) == norm(answer[i].value)
  }

  predicate NoEmptyIds(ids: seq<Text>) {
    forall j :: 0 <= j < |ids| ==> ids[j] != []
  }

  lemma {:induction false} MentionsSomeIff(ids: seq<Text>, norm: Text -> Text, answer: seq<Option<Text>>)
    requires NoEmptyIds(ids)
    ensures Mentioned(ids, norm, answer) != [] <==> Names(ids, norm, answer)
  {
    if answer != [] {
      var init, last := answer[..|answer| - 1], answer[|answer| - 1];
      MentionsSomeIff(ids, norm, init);
      var id := if last.Some? then IdFor(ids, norm, last.value) else None;
      if Names(ids, norm, init) {
        var i, j :| 0 <= i < |init| && 0 <= j < |ids| && init[i].Some? && ids[j] != [] && norm(ids[j]) == norm(init[i].value);
        assert answer[i] == init[i];
      }
      if id.Some? {
        var j :| 0 <= j < |ids| && ids[j] == id.value;
        assert answer[|answer| - 1].Some? && norm(ids[j]) == norm(answer[|answer| - 1].value);
      }
      if Names(ids, norm, answer) {
        var i, j :| 0 <= i < |answer| && 0 <= j < |ids| && answer[i].Some? && ids[j] != [] && norm(ids[j]) == norm(answer[i].value);
        if i < |init| {
          assert init[i] == answer[i];
        } else {
          assert id.Some?;
        }
      }
    }
  }

  /** There is a consensus ranking exactly when there are two candidates to rank and some model's answer names one. */
  lemma RankingIff(answers: seq<seq<Option<Text>>>, order: seq<Text>, norm: Text -> Text)
    requires NoEmptyIds(order)
    ensures Ranking(answers, order, norm).Some?
       <==> |order| >= 2 && exists a :: 0 <= a < |answers| && Names(order, norm, answers[a])
  {
    VotesIff(answers, order, norm);
  }

  lemma {:induction false} VotesIff(answers: seq<seq<Option<Text>>>, ids: seq<Text>, norm: Text -> Text)
    requires NoEmptyIds(ids)
    ensures Votes(answers, ids, norm) != [] <==> exists a :: 0 <= a < |answers| && Names(ids, norm, answers[a])
  {
    if answers != [] {
      var n := |answers| - 1;
      VotesIff(answers[..n], ids, norm);
      MentionsSomeIff(ids, norm, answers[n]);
      if a :| 0 <= a < n && Names(ids, norm, answers[..n][a]) {
        assert Names(ids, norm, answers[a]);
      }
      if a :| 0 <= a < |answers| && Names(ids, norm, answers[a]) {
        assert a < n ==> Names(ids, norm, answers[..n][a]);
      }
    }
  }

  /** Every model that spells the providers its own way, each once, has its ballot counted, and the ranking is then the
      merge of exactly these ballots. */
  lemma {:induction false} FaithfulAnswersAreCounted(answers: seq<seq<Option<Text>>>, ballots: seq<Ballot>, order: seq<Text>,
                                                     norm: Text -> Text)
    requires NormalisedApart(order, norm) && |answers| == |ballots|
    requires forall a :: 0 <= a < |ballots| ==> Spells(answers[a], ballots[a], order, norm)
    ensures Votes(answers, order, norm) == ballots
  {
    if answers != [] {
      var n := |answers| - 1;
      FaithfulAnswersAreCounted(answers[..n], ballots[..n], order, norm);
      assert Spells(answers[n], ballots[n], order, norm);
      FaithfulAnswersAreRead(order, norm, answers[n], ballots[n]);
      assert ballots == ballots[..n] + [ballots[n]];
    }
  }

  /** The answer names the providers of this ballot in its order, each once, in a spelling of its own. */
  predicate Spells(answer: seq<Option<Text>>, ballot: Ballot, ids: seq<Text>, norm: Text -> Text) {
    && ballot != [] && Distinct(ballot) && |answer| == |ballot|
    && forall i :: 0 <= i < |ballot| ==>
         ballot[i] in ids && ballot[i] != [] && answer[i].Some? && norm(answer[i].value) == norm(ballot[i])
  }

  /** The consensus of such answers is the merged ranking of their ballots. */
  lemma FaithfulConsensus(answers: seq<seq<Option<Text>>>, ballots: seq<Ballot>, order: seq<Text>, norm: Text -> Text)
    requires NormalisedApart(order, norm) && |answers| == |ballots| > 0 && |order| >= 2
    requires forall a :: 0 <= a < |ballots| ==> Spells(answers[a], ballots[a], order, norm)
    ensures Ranking(answers, order, norm) == Some(Merged(ballots, order))
  {
    FaithfulAnswersAreCounted(answers, ballots, order, norm);
  }

  /** No answer of any model can add, drop or repeat a provider: the caller always gets every viable one. */
  lemma ConsensusKeepsEveryProvider(answers: seq<seq<Option<Text>>>, order: seq<Text>, norm: Text -> Text)
    ensures var r := Ranking(answers, order, norm); r.Some? ==> multiset(r.value) == multiset(order)
  {
    MergedPermutes(Votes(answers, order, norm), order);
  }
}
