/** The rolled provider market (src/a2a/dynamicProviders.js) and the quote built from it
    (src/agents/providerAgent.js). Draws are reals in [0, 1). */
module Market {
  import opened Units
  import opened Offers
  import opened Rounding
  import opened StableSort

  datatype Range = Range(min: real, max: real)

  datatype Key = Premium | Balanced | Budget

  datatype Tier = Tier(
    key: Key,
    capacityMbps: Range,
    baseFee: Range,
    pricePer100: Range,
    latencyMs: Range,
    packetLossPercent: Range,
    reliabilityScore: Range,
    standardMs: Range,
    p0Ms: Range)

  const PREMIUM := Tier(Premium, Range(380.0, 500.0), Range(0.4, 0.8), Range(0.5, 0.7), Range(16.0, 32.0),
    Range(0.05, 0.25), Range(0.994, 0.9999), Range(1800.0, 3500.0), Range(700.0, 1400.0))
  const BALANCED := Tier(Balanced, Range(220.0, 340.0), Range(0.3, 0.7), Range(0.5, 0.9), Range(26.0, 48.0),
    Range(0.15, 0.5), Range(0.992, 0.998), Range(2200.0, 4200.0), Range(1000.0, 2000.0))
  const BUDGET := Tier(Budget, Range(200.0, 320.0), Range(0.2, 0.5), Range(0.4, 0.7), Range(38.0, 70.0),
    Range(0.3, 0.9), Range(0.99, 0.994), Range(3000.0, 6500.0), Range(1500.0, 2800.0))

  const TIERS: seq<Tier> := [PREMIUM, BALANCED, BUDGET]

  /** A random stream: the k-th draw. */
  type Stream = nat -> real

  ghost predicate Uniform(rng: Stream) {
    forall k: nat :: 0.0 <= rng(k) < 1.0
  }

  // ---- Shuffling the tiers ---------------------------------------------------------------------

  function Swapped<T>(ts: seq<T>, i: nat, j: nat): (r: seq<T>)
    requires i < |ts| && j < |ts|
    ensures |r| == |ts|
  {
    ts[i := ts[j]][j := ts[i]]
  }

  /** The exchange at position i: with the draw scaled to 0..i. */
  function Pick(draw: real, i: nat): (j: nat)
    requires 0.0 <= draw < 1.0
    ensures j <= i
  {
    PickBounds(draw, i);
    (draw * (i + 1) as real).Floor
  }

  lemma PickBounds(draw: real, i: nat)
    requires 0.0 <= draw < 1.0
    ensures 0 <= (draw * (i + 1) as real).Floor <= i
  {
    ScaleLe(0.0, draw, (i + 1) as real);
    ScaleLt(draw, 1.0, (i + 1) as real);
    FloorOf(draw * (i + 1) as real, 0);
    FloorOf(draw * (i + 1) as real, i + 1);
  }

  function Shuffled<T>(ts: seq<T>, i: nat, rng: Stream, k: nat): (r: seq<T>)
    requires i < |ts| && Uniform(rng)
    ensures |r| == |ts|
    decreases i
  {
    if i == 0 then ts else Shuffled(Swapped(ts, i, Pick(rng(k), i)), i - 1, rng, k + 1)
  }

  /** Whatever the draws, a shuffle is a rearrangement. */
  lemma {:induction false} ShuffledPermutes<T>(ts: seq<T>, i: nat, rng: Stream, k: nat)
    requires i < |ts| && Uniform(rng)
    ensures multiset(Shuffled(ts, i, rng, k)) == multiset(ts)
    decreases i
  {
    if i > 0 {
      ShuffledPermutes(Swapped(ts, i, Pick(rng(k), i)), i - 1, rng, k + 1);
      SwapPermutes(ts, i, Pick(rng(k), i));
    }
  }

  lemma SwapPermutes<T>(ts: seq<T>, i: nat, j: nat)
    requires i < |ts| && j < |ts|
    ensures multiset(Swapped(ts, i, j)) == multiset(ts)
  {}

  lemma ShuffleStep<T>(ts: seq<T>, after: seq<T>, i: nat, rng: Stream, k: nat, goal: seq<T>)
    requires 0 < i < |ts| && Uniform(rng) && after == Swapped(ts, i, Pick(rng(k), i)) && Shuffled(ts, i, rng, k) == goal
    ensures Shuffled(after, i - 1, rng, k + 1) == goal
  {}

  lemma ShuffleEnd<T>(ts: seq<T>, rng: Stream, k: nat)
    requires ts != [] && Uniform(rng)
    ensures Shuffled(ts, 0, rng, k) == ts
  {}

  /** The exchange partner: the draws in [j/(i+1), (j+1)/(i+1)) pick place j, so every place up to i is as likely. */
  lemma PickIff(draw: real, i: nat, j: nat)
    requires 0.0 <= draw < 1.0
    ensures Pick(draw, i) == j <==> j as real <= draw * (i + 1) as real < (j + 1) as real
  {
    FloorOf(draw * (i + 1) as real, j);
    FloorOf(draw * (i + 1) as real, j + 1);
  }

  /** A draw that picks place j. */
  function DrawFor(i: nat, j: nat): (draw: real)
    requires j <= i
    ensures 0.0 <= draw < 1.0 && Pick(draw, i) == j
  {
    var draw := j as real / (i + 1) as real;
    assert draw * (i + 1) as real == j as real;
    QuotientBelowOne(j, i + 1);
    PickIff(draw, i, j);
    draw
  }

  lemma QuotientBelowOne(j: nat, n: nat)
    requires j < n
    ensures 0.0 <= j as real / n as real < 1.0
  {}

  function Cons(draw: real, rest: Stream, k: nat): Stream {
    (m: nat) => if m == k then draw else rest(m)
  }

  lemma {:induction false} LaterDrawsDecide<T>(ts: seq<T>, i: nat, a: Stream, b: Stream, k: nat)
    requires i < |ts| && Uniform(a) && Uniform(b) && forall m: nat :: m >= k ==> a(m) == b(m)
    ensures Shuffled(ts, i, a, k) == Shuffled(ts, i, b, k)
    decreases i
  {
    if i > 0 {
      LaterDrawsDecide(Swapped(ts, i, Pick(a(k), i)), i - 1, a, b, k + 1);
    }
  }

  lemma {:induction false} ShuffleFixesTheRest<T>(ts: seq<T>, i: nat, rng: Stream, k: nat)
    requires i < |ts| && Uniform(rng)
    ensures Shuffled(ts, i, rng, k)[i + 1..] == ts[i + 1..]
    decreases i
  {
    if i > 0 {
      var after := Swapped(ts, i, Pick(rng(k), i));
      ShuffleFixesTheRest(after, i - 1, rng, k + 1);
      assert Shuffled(after, i - 1, rng, k + 1)[i..][1..] == after[i..][1..];
      assert Shuffled(after, i - 1, rng, k + 1)[i..][1..] == Shuffled(after, i - 1, rng, k + 1)[i + 1..];
      assert after[i..][1..] == after[i + 1..] && after[i + 1..] == ts[i + 1..];
    } else {
      assert Shuffled(ts, i, rng, k) == ts;
    }
  }

  /** Every rearrangement of the first places comes up for some draws. */
  lemma {:induction false} EveryArrangementIsReached<T>(ts: seq<T>, goal: seq<T>, i: nat, k: nat) returns (rng: Stream)
    requires i < |ts| && |goal| == |ts| && ts[i + 1..] == goal[i + 1..] && multiset(ts) == multiset(goal)
    ensures Uniform(rng) && Shuffled(ts, i, rng, k) == goal
    decreases i
  {
    if i == 0 {
      rng := (m: nat) => 0.0;
      OneLeft(ts, goal);
    } else {
      var j := PlaceOf(ts, goal, i);
      var after := Swapped(ts, i, j);
      SwapPermutes(ts, i, j);
      assert after[i..] == goal[i..];
      var rest := EveryArrangementIsReached(after, goal, i - 1, k + 1);
      rng := Cons(DrawFor(i, j), rest, k);
      LaterDrawsDecide(after, i - 1, rng, rest, k + 1);
    }
  }

  lemma OneLeft<T>(ts: seq<T>, goal: seq<T>)
    requires |ts| == |goal| > 0 && ts[1..] == goal[1..] && multiset(ts) == multiset(goal)
    ensures ts == goal
  {
    assert ts == [ts[0]] + ts[1..] && goal == [goal[0]] + goal[1..];
    assert multiset(ts) == multiset{ts[0]} + multiset(ts[1..]);
    assert multiset(goal) == multiset{goal[0]} + multiset(ts[1..]);
    assert multiset{ts[0]} == multiset(ts) - multiset(ts[1..]) == multiset{goal[0]};
    assert ts[0] in multiset{goal[0]};
  }

  lemma PlaceOf<T>(ts: seq<T>, goal: seq<T>, i: nat) returns (j: nat)
    requires i < |ts| && |goal| == |ts| && ts[i + 1..] == goal[i + 1..] && multiset(ts) == multiset(goal)
    ensures j <= i && ts[j] == goal[i]
  {
    var a, b := ts[..i + 1], goal[..i + 1];
    assert ts == a + ts[i + 1..] && goal == b + ts[i + 1..];
    assert multiset(a) == multiset(ts) - multiset(ts[i + 1..]) == multiset(b);
    assert b[i] in multiset(b);
    assert goal[i] in a;
    j :| 0 <= j < |a| && a[j] == goal[i];
  }

  method Swap<T>(ts: array<T>, i: nat, j: nat)
    requires i < ts.Length && j < ts.Length
    modifies ts
    ensures ts[..] == Swapped(old(ts[..]), i, j)
  {
    ts[i], ts[j] := ts[j], ts[i];
  }

  method FisherYates<T>(tiers: array<T>, rng: Stream, k: nat)
    requires tiers.Length > 0 && Uniform(rng)
    modifies tiers
    ensures tiers[..] == Shuffled(old(tiers[..]), tiers.Length - 1, rng, k)
  {
    var i, draw := tiers.Length - 1, k;
    ghost var goal := Shuffled(tiers[..], tiers.Length - 1, rng, k);
    while i > 0
      invariant 0 <= i < tiers.Length
      invariant Shuffled(tiers[..], i, rng, draw) == goal
    {
      ghost var before := tiers[..];
      Swap(tiers, i, Pick(rng(draw), i));
      ShuffleStep(before, tiers[..], i, rng, draw, goal);
      i, draw := i - 1, draw + 1;
    }
    ShuffleEnd(tiers[..], rng, draw);
    assert tiers[..] == goal;
  }

  // ---- Rolling a persona -----------------------------------------------------------------------

  datatype Persona = Persona(
    capacityMbps: real,
    baseFee: real,
    pricePer100: real,
    latencyMs: real,
    packetLossPercent: real,
    reliabilityScore: real,
    standardMs: real,
    p0Ms: real)

  function Between(draw: real, r: Range): real {
    r.min + draw * (r.max - r.min)
  }

  function Whole(x: real): real {
    Round(x) as real
  }

  /** The draws of one slot, from draw k on, after the trait has taken the first. */
  function Rolled(t: Tier, rng: Stream, k: nat): Persona {
    Persona(Whole(Between(rng(k + 1), t.capacityMbps)), Round2(Between(rng(k + 2), t.baseFee)),
            Round2(Between(rng(k + 3), t.pricePer100)), Whole(Between(rng(k + 4), t.latencyMs)),
            Round2(Between(rng(k + 5), t.packetLossPercent)), Round2(Between(rng(k + 6), t.reliabilityScore)),
            Whole(Between(rng(k + 7), t.standardMs)), Whole(Between(rng(k + 8), t.p0Ms)))
  }

  /** A value on a grid of so many steps to the unit, and the grid point next to `x`. */
  predicate NearestStep(value: real, x: real, steps: real) {
    (value * steps).Floor as real == value * steps && -0.5 <= value * steps - x * steps <= 0.5
  }

  lemma WholeIsNearest(x: real)
    ensures NearestStep(Whole(x), x, 1.0)
  {
    RoundIsNear(x);
  }

  lemma Round2IsNearest(x: real)
    ensures NearestStep(Round2(x), x, 100.0)
  {
    RoundIsNear(x * 100.0);
    assert Round2(x) * 100.0 == Round(x * 100.0) as real;
  }

  /** Each rolled value is the grid point next to where its own draw falls between the ends of its range: whole numbers
      for capacity, latency and times, hundredths for the rest. */
  lemma RolledIsNearest(t: Tier, rng: Stream, k: nat)
    ensures var p := Rolled(t, rng, k);
            && NearestStep(p.capacityMbps, t.capacityMbps.min + rng(k + 1) * (t.capacityMbps.max - t.capacityMbps.min), 1.0)
            && NearestStep(p.baseFee, t.baseFee.min + rng(k + 2) * (t.baseFee.max - t.baseFee.min), 100.0)
            && NearestStep(p.pricePer100, t.pricePer100.min + rng(k + 3) * (t.pricePer100.max - t.pricePer100.min), 100.0)
            && NearestStep(p.latencyMs, t.latencyMs.min + rng(k + 4) * (t.latencyMs.max - t.latencyMs.min), 1.0)
            && NearestStep(p.packetLossPercent,
                           t.packetLossPercent.min + rng(k + 5) * (t.packetLossPercent.max - t.packetLossPercent.min), 100.0)
            && NearestStep(p.reliabilityScore,
                           t.reliabilityScore.min + rng(k + 6) * (t.reliabilityScore.max - t.reliabilityScore.min), 100.0)
            && NearestStep(p.standardMs, t.standardMs.min + rng(k + 7) * (t.standardMs.max - t.standardMs.min), 1.0)
            && NearestStep(p.p0Ms, t.p0Ms.min + rng(k + 8) * (t.p0Ms.max - t.p0Ms.min), 1.0)
  {
    WholeIsNearest(Between(rng(k + 1), t.capacityMbps));
    Round2IsNearest(Between(rng(k + 2), t.baseFee));
    Round2IsNearest(Between(rng(k + 3), t.pricePer100));
    WholeIsNearest(Between(rng(k + 4), t.latencyMs));
    Round2IsNearest(Between(rng(k + 5), t.packetLossPercent));
    Round2IsNearest(Between(rng(k + 6), t.reliabilityScore));
    WholeIsNearest(Between(rng(k + 7), t.standardMs));
    WholeIsNearest(Between(rng(k + 8), t.p0Ms));
  }

  predicate In(x: real, r: Range) {
    r.min <= x <= r.max
  }

  lemma BetweenStays(draw: real, r: Range)
    requires 0.0 <= draw < 1.0 && r.min <= r.max
    ensures In(Between(draw, r), r)
  {
    ScaleLe(0.0, draw, r.max - r.min);
    ScaleLe(draw, 1.0, r.max - r.min);
  }

  lemma RoundKeepsBounds(x: real, low: int, high: int)
    requires low as real <= x <= high as real
    ensures low <= Round(x) <= high
  {
    FloorOf(x + 0.5, low);
    FloorOf(x + 0.5, high + 1);
  }

  /** Rounding to whole numbers keeps a value inside whole bounds. */
  lemma WholeStays(draw: real, low: int, high: int)
    requires 0.0 <= draw < 1.0 && low <= high
    ensures low as real <= Whole(Between(draw, Range(low as real, high as real))) <= high as real
  {
    BetweenStays(draw, Range(low as real, high as real));
    RoundKeepsBounds(Between(draw, Range(low as real, high as real)), low, high);
  }

  /** Rounding to cents keeps a value inside bounds that are whole cents. */
  lemma CentsStay(draw: real, r: Range, low: int, high: int)
    requires 0.0 <= draw < 1.0 && low <= high && r.min * 100.0 == low as real && r.max * 100.0 == high as real
    ensures In(Round2(Between(draw, r)), r)
  {
    BetweenStays(draw, r);
    RoundKeepsBounds(Between(draw, r) * 100.0, low, high);
  }

  /** Everything but the reliability score. */
  predicate InRanges(p: Persona, t: Tier) {
    && In(p.capacityMbps, t.capacityMbps) && In(p.baseFee, t.baseFee) && In(p.pricePer100, t.pricePer100)
    && In(p.latencyMs, t.latencyMs) && In(p.packetLossPercent, t.packetLossPercent)
    && In(p.standardMs, t.standardMs) && In(p.p0Ms, t.p0Ms)
  }

  lemma PremiumInRanges(rng: Stream, k: nat)
    requires Uniform(rng)
    ensures InRanges(Rolled(PREMIUM, rng, k), PREMIUM)
  {
    WholeStays(rng(k + 1), 380, 500);
    CentsStay(rng(k + 2), PREMIUM.baseFee, 40, 80);
    CentsStay(rng(k + 3), PREMIUM.pricePer100, 50, 70);
    WholeStays(rng(k + 4), 16, 32);
    CentsStay(rng(k + 5), PREMIUM.packetLossPercent, 5, 25);
    WholeStays(rng(k + 7), 1800, 3500);
    WholeStays(rng(k + 8), 700, 1400);
  }

  lemma BalancedInRanges(rng: Stream, k: nat)
    requires Uniform(rng)
    ensures InRanges(Rolled(BALANCED, rng, k), BALANCED)
  {
    WholeStays(rng(k + 1), 220, 340);
    CentsStay(rng(k + 2), BALANCED.baseFee, 30, 70);
    CentsStay(rng(k + 3), BALANCED.pricePer100, 50, 90);
    WholeStays(rng(k + 4), 26, 48);
    CentsStay(rng(k + 5), BALANCED.packetLossPercent, 15, 50);
    WholeStays(rng(k + 7), 2200, 4200);
    WholeStays(rng(k + 8), 1000, 2000);
  }

  lemma BudgetInRanges(rng: Stream, k: nat)
    requires Uniform(rng)
    ensures InRanges(Rolled(BUDGET, rng, k), BUDGET)
  {
    WholeStays(rng(k + 1), 200, 320);
    CentsStay(rng(k + 2), BUDGET.baseFee, 20, 50);
    CentsStay(rng(k + 3), BUDGET.pricePer100, 40, 70);
    WholeStays(rng(k + 4), 38, 70);
    CentsStay(rng(k + 5), BUDGET.packetLossPercent, 30, 90);
    WholeStays(rng(k + 7), 3000, 6500);
    WholeStays(rng(k + 8), 1500, 2800);
  }

  /** A score between 0.985 and 1.005 rounds to 0.99 or to 1. */
  lemma ScoreRounds(x: real)
    requires 0.985 <= x < 1.005
    ensures Round2(x) == if x < 0.995 then 0.99 else 1.0
  {
    FloorOf(x * 100.0 + 0.5, 99);
    FloorOf(x * 100.0 + 0.5, 100);
    FloorOf(x * 100.0 + 0.5, 101);
  }

  /** Every rolled value lies in its tier's range except the reliability score, which is rounded to two digits: it
      is in range exactly for the budget tier. It is never below 0.99. */
  lemma RolledInRanges(t: Tier, rng: Stream, k: nat)
    requires Uniform(rng) && t in TIERS
    ensures var p := Rolled(t, rng, k);
            && InRanges(p, t)
            && (In(p.reliabilityScore, t.reliabilityScore) <==> t.key == Budget)
            && (p.reliabilityScore == 0.99 || p.reliabilityScore == 1.0)
  {
    BetweenStays(rng(k + 6), t.reliabilityScore);
    ScoreRounds(Between(rng(k + 6), t.reliabilityScore));
    match t.key
    case Premium => PremiumInRanges(rng, k);
    case Balanced => BalancedInRanges(rng, k);
    case Budget => BudgetInRanges(rng, k);
  }

  // ---- The market -----------------------------------------------------------------------------

  /** `Object.keys(…).sort()` */
  function SortedIds(ids: seq<Text>): seq<Text> {
    Sort(ids, (a, b) => TextLe(a, b))
  }

  lemma TextLeIsAnOrder()
    ensures TotalPreorder((a: Text, b: Text) => TextLe(a, b))
  {
    forall a: Text, b: Text ensures TextLe(a, b) || TextLe(b, a) {
      TextLeTotal(a, b);
    }
    forall a: Text, b: Text, c: Text | TextLe(a, b) && TextLe(b, c) ensures TextLe(a, c) {
      TextLeTransitive(a, b, c);
    }
  }

  /** The ids of the slots ascend, in the order of their code units. */
  lemma SlotsAscend(ids: seq<Text>, i: nat, j: nat)
    requires i < j < |SortedIds(ids)|
    ensures TextLe(SortedIds(ids)[i], SortedIds(ids)[j])
  {
    TextLeIsAnOrder();
    SortSorted(ids, (a: Text, b: Text) => TextLe(a, b));
  }

  /** The slots do not depend on the order in which the base profiles were inserted. */
  lemma InsertionOrderIsIrrelevant(a: seq<Text>, b: seq<Text>)
    requires multiset(a) == multiset(b)
    ensures SortedIds(a) == SortedIds(b)
  {
    var le := (x: Text, y: Text) => TextLe(x, y);
    TextLeIsAnOrder();
    SortSorted(a, le);
    SortSorted(b, le);
    SortPermutes(a, le);
    SortPermutes(b, le);
    forall x: Text, y: Text | le(x, y) && le(y, x) ensures x == y {
      TextLeAntisymmetric(x, y);
    }
    SortUnique(Sort(a, le), Sort(b, le), le);
  }

  /** Draws used by the first n slots; a slot without a fixed brand takes one more for its brand. */
  function Used(ids: seq<Text>, branded: Text -> bool, n: nat): nat
    requires n <= |ids|
  {
    if n == 0 then 2 else Used(ids, branded, n - 1) + (if branded(ids[n - 1]) then 9 else 10)
  }

  function TierOf(tiers: seq<Tier>, index: nat): Tier
    requires |tiers| == 3
  {
    tiers[index % 3]
  }

  /** The persona of the slot at this place. */
  function Slot(ids: seq<Text>, branded: Text -> bool, tiers: seq<Tier>, rng: Stream, n: nat): Persona
    requires n < |ids| && |tiers| == 3
  {
    Rolled(TierOf(tiers, n), rng, FirstDraw(ids, branded, n))
  }

  /** The first of the nine draws of a slot: its trait. */
  function FirstDraw(ids: seq<Text>, branded: Text -> bool, n: nat): nat
    requires n < |ids|
  {
    Used(ids, branded, n) + if branded(ids[n]) then 0 else 1
  }

  /** The draws of different slots do not overlap, nor do they touch the two of the shuffle. */
  lemma {:induction false} DrawsDoNotOverlap(ids: seq<Text>, branded: Text -> bool, m: nat, n: nat)
    requires m < n < |ids|
    ensures 2 <= FirstDraw(ids, branded, m) && FirstDraw(ids, branded, m) + 9 <= FirstDraw(ids, branded, n)
    decreases n
  {
    UsedIsAtLeastTwo(ids, branded, m);
    if m + 1 < n {
      DrawsDoNotOverlap(ids, branded, m, n - 1);
    }
  }

  lemma {:induction false} UsedIsAtLeastTwo(ids: seq<Text>, branded: Text -> bool, n: nat)
    requires n <= |ids|
    ensures Used(ids, branded, n) >= 2
  {
    if n > 0 {
      UsedIsAtLeastTwo(ids, branded, n - 1);
    }
  }

  /** And no draw is skipped: a slot begins where the one before it ended, one later if it draws its brand. */
  lemma DrawsAreConsecutive(ids: seq<Text>, branded: Text -> bool, n: nat)
    requires n + 1 < |ids|
    ensures FirstDraw(ids, branded, n + 1) == FirstDraw(ids, branded, n) + 9 + if branded(ids[n + 1]) then 0 else 1
    ensures FirstDraw(ids, branded, 0) == if branded(ids[0]) then 2 else 3
  {}

  method ShuffleTiers(rng: Stream) returns (tierAt: seq<Tier>)
    requires Uniform(rng)
    ensures tierAt == Shuffled(TIERS, 2, rng, 0) && multiset(tierAt) == multiset(TIERS) && |tierAt| == 3
  {
    var tiers := new Tier[3](i requires 0 <= i < 3 => TIERS[i]);
    assert tiers[..] == TIERS;
    FisherYates(tiers, rng, 0);
    ShuffledPermutes(TIERS, 2, rng, 0);
    tierAt := tiers[..];
  }

  method RollPersonas(ids: seq<Text>, branded: Text -> bool, tierAt: seq<Tier>, rng: Stream) returns (personas: seq<Persona>)
    requires |tierAt| == 3
    ensures |personas| == |ids|
    ensures forall n :: 0 <= n < |ids| ==> personas[n] == Slot(ids, branded, tierAt, rng, n)
  {
    personas := [];
    var draw := 2;
    while |personas| < |ids|
      invariant |personas| <= |ids| && draw == Used(ids, branded, |personas|)
      invariant forall n :: 0 <= n < |personas| ==> personas[n] == Slot(ids, branded, tierAt, rng, n)
    {
      var index := |personas|;
      if !branded(ids[index]) {
        draw := draw + 1;
      }
      personas := personas + [Rolled(TierOf(tierAt, index), rng, draw)];
      draw := draw + 9;
    }
  }

  /** Personas come back keyed by provider; `tierAt` tells which tier each slot carries. */
  method RollDynamicProviders(baseIds: seq<Text>, branded: Text -> bool, rng: Stream)
    returns (ids: seq<Text>, tierAt: seq<Tier>, personas: seq<Persona>)
    requires Uniform(rng)
    ensures ids == SortedIds(baseIds) && |personas| == |ids|
    ensures tierAt == Shuffled(TIERS, 2, rng, 0) && multiset(tierAt) == multiset(TIERS) && |tierAt| == 3
    ensures forall n :: 0 <= n < |ids| ==> personas[n] == Slot(ids, branded, tierAt, rng, n)
  {
    tierAt := ShuffleTiers(rng);
    ids := SortedIds(baseIds);
    personas := RollPersonas(ids, branded, tierAt, rng);
  }

  // ---- The quote ----------------------------------------------------------------------------------

  /** What the escrow settles in: its currency and the scale of its prices. */
  datatype Asset = Asset(currency: Text, scale: real)

  function Price(p: Persona, durationMinutes: real, scale: real): real {
    Round2((p.baseFee + p.pricePer100 * (p.capacityMbps / 100.0) * (durationMinutes / 60.0)) * scale)
  }

  /** The price is the cent next to the base fee plus the hourly price of the capacity for the time asked, in the money
      that is settled. */
  lemma PriceIsTheNearestCent(p: Persona, durationMinutes: real, scale: real)
    ensures NearestStep(Price(p, durationMinutes, scale),
                        scale * (p.baseFee + p.pricePer100 * p.capacityMbps * durationMinutes / 6000.0), 100.0)
  {
    var rate := p.pricePer100 * p.capacityMbps;
    assert p.pricePer100 * (p.capacityMbps / 100.0) == rate / 100.0;
    assert p.pricePer100 * (p.capacityMbps / 100.0) * (durationMinutes / 60.0) == rate * durationMinutes / 6000.0;
    Round2IsNearest(scale * (p.baseFee + rate * durationMinutes / 6000.0));
  }

  /** An offer promises what its persona has: the asked duration, the lane that fits the request, and its own price. */
  lemma OffersAreHonest(providerId: Text, p: Persona, request: Request, asset: Asset, classRank: nat)
    ensures var o := BuildOfferDraft(providerId, p, request, asset, classRank);
            && o.providerId == providerId && o.available && o.capacityMbps == p.capacityMbps
            && o.latencyMs == p.latencyMs && o.packetLossPercent == p.packetLossPercent
            && o.reliabilityScore == p.reliabilityScore && o.durationMinutes == request.durationMinutes
            && o.currency == asset.currency && o.classRank == classRank
            && (request.emergencyOverride ==> o.expectedActivationTimeMs == p.p0Ms)
            && (!request.emergencyOverride ==> o.expectedActivationTimeMs == p.standardMs)
            && NearestStep(o.price, asset.scale * (p.baseFee + p.pricePer100 * p.capacityMbps * request.durationMinutes / 6000.0), 100.0)
  {
    PriceIsTheNearestCent(p, request.durationMinutes, asset.scale);
  }

  /** The offer an agent draws up; the activation class does not bear on viability. */
  function BuildOfferDraft(providerId: Text, p: Persona, request: Request, asset: Asset, classRank: nat): Offer {
    Offer(providerId, true, p.capacityMbps, request.durationMinutes, p.latencyMs, p.packetLossPercent, p.reliabilityScore,
          asset.currency, Price(p, request.durationMinutes, asset.scale),
          if request.emergencyOverride then p.p0Ms else p.standardMs, classRank)
  }

  /** A request every tier can serve: up to 200 Mbps for an hour at 4.30, in the quoted currency. */
  predicate Modest(request: Request, asset: Asset) {
    && asset.scale == 1.0 && request.currency == asset.currency
    && request.requestedCapacityMbps <= 200.0 && 0.0 <= request.durationMinutes <= 60.0
    && request.maxBudget >= 4.3 && request.maxLatencyMs >= 70.0 && request.maxPacketLossPercent >= 0.9
    && request.minReliability <= 0.99
    && request.targetActivationTimeMs >= if request.emergencyOverride then 2800.0 else 4200.0
  }

  lemma ProductBound(x: real, y: real, xMax: real, yMax: real)
    requires 0.0 <= x <= xMax && 0.0 <= y <= yMax
    ensures 0.0 <= x * y <= xMax * yMax
  {
    ScaleLe(0.0, y, x);
    ScaleLe(y, yMax, x);
    ScaleLe(x, xMax, yMax);
  }

  /** No tier quotes more than 4.30 for an hour. */
  lemma PriceBound(p: Persona, t: Tier, durationMinutes: real)
    requires t in TIERS && InRanges(p, t) && 0.0 <= durationMinutes <= 60.0
    ensures Price(p, durationMinutes, 1.0) <= 4.3
  {
    var mbps, hours := p.capacityMbps / 100.0, durationMinutes / 60.0;
    ProductBound(p.pricePer100, mbps, t.pricePer100.max, t.capacityMbps.max / 100.0);
    ProductBound(p.pricePer100 * mbps, hours, t.pricePer100.max * (t.capacityMbps.max / 100.0), 1.0);
    var total := p.baseFee + p.pricePer100 * mbps * hours;
    assert total <= 4.3;
    RoundAtMost(total * 100.0, 430);
  }

  lemma RoundAtMost(x: real, high: int)
    requires x <= high as real
    ensures Round(x) <= high
  {
    FloorOf(x + 0.5, high + 1);
  }

  /** A modest request finds every premium and balanced offer viable, and in an emergency every offer. */
  lemma ModestRequestsAreServed(id: Text, t: Tier, rng: Stream, k: nat, request: Request, asset: Asset, classRank: nat)
    requires Uniform(rng) && t in TIERS && Modest(request, asset)
    requires t.key != Budget || request.emergencyOverride
    ensures Meets(BuildOfferDraft(id, Rolled(t, rng, k), request, asset, classRank), request)
  {
    RolledInRanges(t, rng, k);
    PriceBound(Rolled(t, rng, k), t, request.durationMinutes);
  }

  function CountViable(offers: seq<Offer>, request: Request): nat {
    if offers == [] then 0
    else CountViable(offers[..|offers| - 1], request) + (if Meets(offers[|offers| - 1], request) then 1 else 0)
  }

  /** Three slots carry the three tiers, one each. */
  lemma OneOfEach(tiers: seq<Tier>)
    requires |tiers| == 3 && multiset(tiers) == multiset(TIERS)
    ensures forall i :: 0 <= i < 3 ==> tiers[i] in TIERS
    ensures forall i, j :: 0 <= i < j < 3 ==> tiers[i] != tiers[j]
  {
    forall i | 0 <= i < 3 ensures tiers[i] in TIERS {
      assert tiers[i] in multiset(tiers);
    }
    assert tiers == [tiers[0], tiers[1], tiers[2]];
    forall i, j | 0 <= i < j < 3 ensures tiers[i] != tiers[j] {
      assert multiset(TIERS)[tiers[i]] == 1;
      assert multiset{tiers[0], tiers[1], tiers[2]} == multiset(tiers);
    }
  }

  /** The offers of a market of three. */
  function MarketOffers(ids: seq<Text>, branded: Text -> bool, tiers: seq<Tier>, rng: Stream, request: Request, asset: Asset,
                        ranks: seq<nat>): (offers: seq<Offer>)
    requires |ids| == 3 && |ranks| == 3 && |tiers| == 3
    ensures |offers| == 3
  {
    seq(3, n requires 0 <= n < 3 => BuildOfferDraft(ids[n], Slot(ids, branded, tiers, rng, n), request, asset, ranks[n]))
  }

  lemma SlotIsServed(ids: seq<Text>, branded: Text -> bool, tiers: seq<Tier>, rng: Stream, request: Request, asset: Asset,
                     ranks: seq<nat>, n: nat)
    requires |ids| == 3 && |ranks| == 3 && |tiers| == 3 && n < 3 && Uniform(rng) && Modest(request, asset)
    requires tiers[n] in TIERS && (tiers[n].key != Budget || request.emergencyOverride)
    ensures Meets(MarketOffers(ids, branded, tiers, rng, request, asset, ranks)[n], request)
  {
    var k := Used(ids, branded, n) + if branded(ids[n]) then 0 else 1;
    assert TierOf(tiers, n) == tiers[n];
    ModestRequestsAreServed(ids[n], tiers[n], rng, k, request, asset, ranks[n]);
    assert MarketOffers(ids, branded, tiers, rng, request, asset, ranks)[n] == BuildOfferDraft(ids[n], Rolled(tiers[n], rng, k), request, asset, ranks[n]);
  }

  /** For every random stream, a market of three providers gives a modest request at least two viable offers, and
      three in an emergency. */
  lemma MarketServesModestRequests(ids: seq<Text>, branded: Text -> bool, rng: Stream, request: Request, asset: Asset, ranks: seq<nat>)
    requires |ids| == 3 && |ranks| == 3 && Uniform(rng) && Modest(request, asset)
    ensures CountViable(MarketOffers(ids, branded, Shuffled(TIERS, 2, rng, 0), rng, request, asset, ranks), request)
         >= if request.emergencyOverride then 3 else 2
  {
    var tiers := Shuffled(TIERS, 2, rng, 0);
    ShuffledPermutes(TIERS, 2, rng, 0);
    OneOfEach(tiers);
    BudgetIsOneTier();
    forall n | 0 <= n < 3 && (tiers[n].key != Budget || request.emergencyOverride)
      ensures Meets(MarketOffers(ids, branded, tiers, rng, request, asset, ranks)[n], request)
    {
      SlotIsServed(ids, branded, tiers, rng, request, asset, ranks, n);
    }
    CountThree(MarketOffers(ids, branded, tiers, rng, request, asset, ranks), request);
  }

  lemma BudgetIsOneTier()
    ensures forall t :: t in TIERS && t.key == Budget ==> t == BUDGET
  {}

  lemma CountThree(offers: seq<Offer>, request: Request)
    requires |offers| == 3
    ensures CountViable(offers, request) == (if Meets(offers[0], request) then 1 else 0)
      + (if Meets(offers[1], request) then 1 else 0) + (if Meets(offers[2], request) then 1 else 0)
  {
    assert offers[..2][..1] == offers[..1] && offers[..1][..0] == [];
    assert CountViable(offers[..1], request) == if Meets(offers[0], request) then 1 else 0;
    assert CountViable(offers[..2], request) == CountViable(offers[..1], request) + if Meets(offers[1], request) then 1 else 0;
  }
}
