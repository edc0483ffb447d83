/** The delivery check and its penalty (src/sui/verify.js), the simulated session samples
    (src/sui/integration.js). Capacities and percentages are exact reals. */
module Delivery {
  import opened Units
  import opened Rounding

  function Sum(samples: seq<real>): real {
    if samples == [] then 0.0 else Sum(samples[..|samples| - 1]) + samples[|samples| - 1]
  }

  function Average(samples: seq<real>): real
    requires samples != []
  {
    Sum(samples) / |samples| as real
  }

  datatype Check = Check(penalized: bool, average: real, shortfallPct: real, penaltyPct: real)

  function AtLeastZero(x: real): real {
    if x > 0.0 then x else 0.0
  }

  /** None where the source throws. */
  function CheckDelivery(promised: real, samples: seq<real>, tolerance: real): (r: Option<Check>)
    ensures r.Some? <==> promised > 0.0 && samples != []
    ensures r.Some? ==> r.value.penaltyPct >= 0.0
  {
    if promised <= 0.0 || samples == [] then None
    else
      var average := Average(samples);
      var shortfall := AtLeastZero((promised - average) / promised * 100.0);
      var penalty := AtLeastZero(shortfall - tolerance);
      Some(Check(penalty > 0.0, average, shortfall, penalty))
  }

  /** What the provider loses of its share. */
  function Penalty(share: nat, penaltyPct: real): nat
    requires penaltyPct >= 0.0
  {
    PartIsNonNegative(share as real, penaltyPct);
    Part(share as real, penaltyPct).Floor
  }

  function Part(share: real, pct: real): real {
    share * pct / 100.0
  }

  lemma PartIsNonNegative(share: real, pct: real)
    requires share >= 0.0 && pct >= 0.0
    ensures Part(share, pct) >= 0.0
  {}

  lemma PartBounds(share: real, pct: real)
    requires share >= 0.0 && 0.0 <= pct <= 100.0
    ensures 0.0 <= Part(share, pct) <= share
    ensures share > 0.0 ==> (Part(share, pct) < share <==> pct < 100.0)
  {
    ScaleLe(0.0, pct, share);
    ScaleLe(pct, 100.0, share);
    if share > 0.0 {
      ScaleLt(pct, 100.0, share);
    }
  }

  lemma PartGrows(share: real, p: real, q: real)
    requires share >= 0.0 && p <= q
    ensures Part(share, p) <= Part(share, q)
  {
    ScaleLe(p, q, share);
  }

  lemma FloorGrows(x: real, y: real)
    requires x <= y
    ensures x.Floor <= y.Floor
  {}

  ghost predicate NonNegative(samples: seq<real>) {
    forall i :: 0 <= i < |samples| ==> samples[i] >= 0.0
  }

  lemma {:induction false} SumBounds(samples: seq<real>, low: real, high: real)
    requires forall i :: 0 <= i < |samples| ==> low <= samples[i] <= high
    ensures |samples| as real * low <= Sum(samples) <= |samples| as real * high
  {
    if samples != [] {
      var n := |samples| - 1;
      SumBounds(samples[..n], low, high);
      assert |samples| as real * low == n as real * low + low;
      assert |samples| as real * high == n as real * high + high;
    }
  }

  lemma AverageBounds(samples: seq<real>, low: real, high: real)
    requires samples != [] && forall i :: 0 <= i < |samples| ==> low <= samples[i] <= high
    ensures low <= Average(samples) <= high
  {
    SumBounds(samples, low, high);
    QuotientBounds(Sum(samples), |samples| as real, low, high);
  }

  lemma QuotientBounds(x: real, n: real, low: real, high: real)
    requires n > 0.0 && n * low <= x <= n * high
    ensures low <= x / n <= high
  {
    assert x == (x / n) * n;
    assert (x / n - low) * n >= 0.0 && (high - x / n) * n >= 0.0;
    QuotientSign(x / n - low, n);
    QuotientSign(high - x / n, n);
  }

  /** How far an average falls short of a promise, in percent of the promise times the promise, beyond the tolerance. */
  function Short(promised: real, average: real, tolerance: real): real {
    (if average < promised then 100.0 * (promised - average) else 0.0) - tolerance * promised
  }

  /** The penalty percentage, read off the average: how far it falls short of the tolerated share. */
  lemma PenaltyPctMeaning(promised: real, samples: seq<real>, tolerance: real)
    requires promised > 0.0 && samples != []
    ensures var c := CheckDelivery(promised, samples, tolerance).value;
            var short := Short(promised, c.average, tolerance);
            && (c.penalized <==> short > 0.0)
            && c.penaltyPct * promised == if short > 0.0 then short else 0.0
    ensures var c := CheckDelivery(promised, samples, tolerance).value;
            tolerance >= 0.0 ==>
              && (c.penalized <==> c.average * 100.0 < (100.0 - tolerance) * promised)
              && (c.penalized ==> c.penaltyPct * promised == (100.0 - tolerance) * promised - c.average * 100.0)
              && (!c.penalized ==> c.penaltyPct == 0.0)
  {
    var average := Average(samples);
    var gap := (promised - average) / promised;
    assert gap * promised == promised - average;
    SignOfProduct(gap, promised);
    var pct := AtLeastZero(gap * 100.0);
    assert gap * 100.0 * promised == 100.0 * (gap * promised);
    assert pct * promised == if average < promised then 100.0 * (promised - average) else 0.0;
    assert (pct - tolerance) * promised == pct * promised - tolerance * promised;
    SignOfProduct(pct - tolerance, promised);
    if tolerance >= 0.0 {
      ToleratedShare(promised, average, tolerance);
    }
  }

  /** With a tolerance of at least 0 it is the tolerated share that counts. */
  lemma ToleratedShare(promised: real, average: real, tolerance: real)
    requires promised > 0.0 && tolerance >= 0.0
    ensures var short := Short(promised, average, tolerance);
            && (short > 0.0 <==> average * 100.0 < (100.0 - tolerance) * promised)
            && (short > 0.0 ==> short == (100.0 - tolerance) * promised - average * 100.0)
  {
    NonNegativeProduct(tolerance, promised);
    assert (100.0 - tolerance) * promised == 100.0 * promised - tolerance * promised;
  }

  lemma SignOfProduct(x: real, positive: real)
    requires positive > 0.0
    ensures x * positive > 0.0 <==> x > 0.0
  {}

  /** With samples and tolerance at least 0 the penalty percentage is at most 100, and 100 only when
      nothing was delivered and nothing was tolerated. */
  lemma PenaltyPctBounds(promised: real, samples: seq<real>, tolerance: real)
    requires promised > 0.0 && samples != [] && tolerance >= 0.0 && NonNegative(samples)
    ensures var c := CheckDelivery(promised, samples, tolerance).value;
            0.0 <= c.penaltyPct <= 100.0 && (c.penaltyPct == 100.0 <==> c.average == 0.0 && tolerance == 0.0)
  {
    PenaltyPctMeaning(promised, samples, tolerance);
    var c := CheckDelivery(promised, samples, tolerance).value;
    AverageIsNonNegative(samples);
    if c.penalized {
      assert (100.0 - c.penaltyPct) * promised == tolerance * promised + c.average * 100.0;
      NonNegativeProduct(tolerance, promised);
      QuotientSign(100.0 - c.penaltyPct, promised);
    }
  }

  lemma AverageIsNonNegative(samples: seq<real>)
    requires samples != [] && NonNegative(samples)
    ensures Average(samples) >= 0.0
  {
    SumIsNonNegative(samples);
    assert Average(samples) * |samples| as real == Sum(samples);
    QuotientSign(Average(samples), |samples| as real);
  }

  lemma {:induction false} SumIsNonNegative(samples: seq<real>)
    requires NonNegative(samples)
    ensures Sum(samples) >= 0.0
  {
    if samples != [] {
      SumIsNonNegative(samples[..|samples| - 1]);
    }
  }

  lemma NonNegativeProduct(x: real, y: real)
    requires x >= 0.0 && y > 0.0
    ensures x * y >= 0.0 && (x * y == 0.0 <==> x == 0.0)
  {}

  lemma QuotientSign(x: real, y: real)
    requires y > 0.0
    ensures (x * y >= 0.0 <==> x >= 0.0) && (x * y == 0.0 <==> x == 0.0)
  {}

  lemma ShareOfPct(share: nat, pct: real)
    requires 0.0 <= pct <= 100.0
    ensures 0 <= Penalty(share, pct) <= share
    ensures share > 0 ==> (Penalty(share, pct) < share <==> pct < 100.0)
  {
    PartBounds(share as real, pct);
    FloorBelow(Part(share as real, pct), share);
  }

  lemma FloorBelow(x: real, n: nat)
    requires 0.0 <= x <= n as real
    ensures 0 <= x.Floor <= n
    ensures x.Floor < n <==> x < n as real
  {}

  /** The penalty never exceeds the provider share, and the contract accepts it (strictly below the
      share) unless nothing at all was delivered under a zero tolerance. */
  lemma PenaltyFitsTheShare(promised: real, samples: seq<real>, tolerance: real, share: nat)
    requires promised > 0.0 && samples != [] && tolerance >= 0.0 && NonNegative(samples) && share > 0
    ensures var c := CheckDelivery(promised, samples, tolerance).value;
            var p := Penalty(share, c.penaltyPct);
            && 0 <= p <= share
            && (p < share <==> c.average > 0.0 || tolerance > 0.0)
            && (c.average * 100.0 >= (100.0 - tolerance) * promised ==> p == 0)
  {
    PenaltyPctMeaning(promised, samples, tolerance);
    PenaltyPctBounds(promised, samples, tolerance);
    AverageIsNonNegative(samples);
    ShareOfPct(share, CheckDelivery(promised, samples, tolerance).value.penaltyPct);
  }

  /** Delivering more never costs the provider more. */
  lemma MoreDeliveredCostsLess(promised: real, a: seq<real>, b: seq<real>, tolerance: real, share: nat)
    requires promised > 0.0 && a != [] && b != [] && Average(a) <= Average(b)
    ensures Penalty(share, CheckDelivery(promised, b, tolerance).value.penaltyPct)
         <= Penalty(share, CheckDelivery(promised, a, tolerance).value.penaltyPct)
  {
    PenaltyPctMeaning(promised, a, tolerance);
    PenaltyPctMeaning(promised, b, tolerance);
    var pa, pb := CheckDelivery(promised, a, tolerance).value.penaltyPct, CheckDelivery(promised, b, tolerance).value.penaltyPct;
    PctFalls(promised, Short(promised, Average(a), tolerance), Short(promised, Average(b), tolerance), pa, pb);
    PartGrows(share as real, pb, pa);
    FloorGrows(Part(share as real, pb), Part(share as real, pa));
  }

  lemma PctFalls(promised: real, shortA: real, shortB: real, pa: real, pb: real)
    requires promised > 0.0 && shortB <= shortA
    requires pa * promised == (if shortA > 0.0 then shortA else 0.0) && pb * promised == if shortB > 0.0 then shortB else 0.0
    ensures pb <= pa
  {
    CompareProducts(pb, pa, promised);
  }

  lemma CompareProducts(x: real, y: real, positive: real)
    requires positive > 0.0
    ensures x * positive <= y * positive <==> x <= y
  {}

  // ---- What exactly is charged ---------------------------------------------------------------

  /** The total of samples is additive, so the order and grouping of samples do not matter. */
  lemma {:induction false} SumOfParts(a: seq<real>, b: seq<real>)
    ensures Sum(a + b) == Sum(a) + Sum(b)
  {
    if b == [] {
      assert a + b == a;
    } else {
      assert (a + b)[..|a + b| - 1] == a + b[..|b| - 1];
      SumOfParts(a, b[..|b| - 1]);
    }
  }

  lemma SumOfOne(x: real)
    ensures Sum([x]) == x
  {
    assert [x][..0] == [];
  }

  /** The average is the total over the number of samples. */
  lemma AverageIsTotalOverCount(promised: real, samples: seq<real>, tolerance: real)
    requires promised > 0.0 && samples != []
    ensures CheckDelivery(promised, samples, tolerance).value.average * |samples| as real == Sum(samples)
  {}

  /** What is charged for a percentage: the whole base units of that part of the share. */
  lemma PenaltyIsTheFloor(share: nat, pct: real)
    requires pct >= 0.0
    ensures 100.0 * Penalty(share, pct) as real <= share as real * pct < 100.0 * (Penalty(share, pct) + 1) as real
  {
    var x := share as real * pct;
    PartIsNonNegative(share as real, pct);
    assert Part(share as real, pct) * 100.0 == x;
  }

  lemma ScaleBoth(low: real, x: real, high: real, s: real)
    requires s > 0.0 && low <= x < high
    ensures low * s <= x * s < high * s
  {
    ScaleLe(low, x, s);
    ScaleLt(x, high, s);
  }

  /** What a report costs a share: the whole base units of the share's part that the average falls short. */
  predicate Due(promised: real, samples: seq<real>, tolerance: real, share: nat, penalty: nat)
    requires samples != []
  {
    var short := Short(promised, Average(samples), tolerance);
    var due := share as real * if short > 0.0 then short else 0.0;
    Hundred(penalty, promised) <= due < Hundred(penalty + 1, promised)
  }

  function Hundred(n: nat, x: real): real {
    100.0 * n as real * x
  }

  /** The penalty of any session, from the promise, the samples and the tolerance alone; no other is due. */
  lemma PenaltyOfTheShortfall(promised: real, samples: seq<real>, tolerance: real, share: nat, penalty: nat)
    requires promised > 0.0 && samples != []
    ensures Due(promised, samples, tolerance, share, penalty)
       <==> penalty == Penalty(share, CheckDelivery(promised, samples, tolerance).value.penaltyPct)
  {
    var c := CheckDelivery(promised, samples, tolerance).value;
    var s, pct, p := share as real, c.penaltyPct, Penalty(share, c.penaltyPct);
    PenaltyPctMeaning(promised, samples, tolerance);
    PenaltyIsTheFloor(share, pct);
    ScaledDue(p, s, pct, promised);
    OnlyOneIsDue(promised, s * (pct * promised), p, penalty);
  }

  lemma ScaledDue(p: nat, share: real, pct: real, promised: real)
    requires promised > 0.0 && 100.0 * p as real <= share * pct < 100.0 * (p + 1) as real
    ensures Hundred(p, promised) <= share * (pct * promised) < Hundred(p + 1, promised)
  {
    ScaleBoth(100.0 * p as real, share * pct, 100.0 * (p + 1) as real, promised);
    assert share * pct * promised == share * (pct * promised);
  }

  lemma OnlyOneIsDue(promised: real, due: real, p: nat, q: nat)
    requires promised > 0.0 && Hundred(p, promised) <= due < Hundred(p + 1, promised)
    ensures Hundred(q, promised) <= due < Hundred(q + 1, promised) <==> q == p
  {
    if q < p {
      HundredGrows(q + 1, p, promised);
    } else if p < q {
      HundredGrows(p + 1, q, promised);
    }
  }

  lemma HundredGrows(p: nat, q: nat, promised: real)
    requires promised > 0.0 && p <= q
    ensures Hundred(p, promised) <= Hundred(q, promised)
  {
    ScaleLe(100.0 * p as real, 100.0 * q as real, promised);
  }

  // ---- Synthesized samples ------------------------------------------------------------

  /** One step of the generator: its state is a 32-bit word, wrap-around included. */
  function Advance(state: bv32): bv32 {
    state + 0x6d2b79f5
  }

  function Mix(state: bv32): bv32 {
    var t := (state ^ (state >> 15)) * (1 | state);
    var u := (t + (t ^ (t >> 7)) * (61 | t)) ^ t;
    u ^ (u >> 14)
  }

  /** The first words of the generator for two seeds. */
  lemma FirstWords()
    ensures Mix(StateAfter(1, 1)) == 0xA087EAF3 && Mix(StateAfter(1, 2)) == 0x00B349C9
    ensures Mix(StateAfter(0xDEADBEEF, 1)) == 0xF0FD995A && Mix(StateAfter(0xDEADBEEF, 2)) == 0x4466F0CF
  {
    assert StateAfter(1, 1) == Advance(1) && StateAfter(1, 2) == Advance(Advance(1));
    assert StateAfter(0xDEADBEEF, 1) == Advance(0xDEADBEEF) && StateAfter(0xDEADBEEF, 2) == Advance(Advance(0xDEADBEEF));
  }

  /** The state after n draws. */
  function StateAfter(seed: bv32, n: nat): bv32 {
    if n == 0 then seed else Advance(StateAfter(seed, n - 1))
  }

  function Unit32(word: bv32): real {
    (word as int) as real / 4294967296.0
  }

  function Sample(base: real, draw: real): real {
    Round(base * (0.97 + draw * 0.06) * 10.0) as real / 10.0
  }

  /** What the monitor may report for one recovered capacity, whatever the nonce. */
  ghost predicate Synthesized(samples: seq<real>, base: real) {
    samples != [] && forall i :: 0 <= i < |samples| ==> SomeSample(samples[i], base)
  }

  ghost predicate SomeSample(sample: real, base: real) {
    exists draw: real :: DrawnAs(sample, base, draw)
  }

  predicate DrawnAs(sample: real, base: real, draw: real) {
    0.0 <= draw < 1.0 && sample == Sample(base, draw)
  }

  /** The samples of this start state, one draw each. */
  predicate Generated(samples: seq<real>, start: bv32, base: real) {
    forall i :: 0 <= i < |samples| ==> samples[i] == Sample(base, Unit32(Mix(StateAfter(start, i + 1))))
  }

  lemma GeneratedIsSynthesized(samples: seq<real>, start: bv32, base: real)
    requires Generated(samples, start, base) && samples != []
    ensures Synthesized(samples, base)
  {
    forall i | 0 <= i < |samples| ensures SomeSample(samples[i], base) {
      var draw := Unit32(Mix(StateAfter(start, i + 1)));
      DrawBounds(Mix(StateAfter(start, i + 1)));
      assert DrawnAs(samples[i], base, draw);
    }
  }

  lemma DrawBounds(word: bv32)
    ensures 0.0 <= Unit32(word) < 1.0
  {}

  /** `seed` is the first word of the hash of the nonce. */
  method SynthesizeDeliveredSamples(promised: real, recovered: Option<real>, seed: bv32, sampleCount: nat)
    returns (samples: seq<real>)
    ensures |samples| == sampleCount
    ensures Generated(samples, if seed == 0 then 1 else seed, recovered.GetOr(promised))
    ensures sampleCount > 0 ==> Synthesized(samples, recovered.GetOr(promised))
  {
    var start := if seed == 0 then 1 else seed;
    var state := start;
    var base := recovered.GetOr(promised);
    samples := [];
    while |samples| < sampleCount
      invariant |samples| <= sampleCount && state == StateAfter(start, |samples|)
      invariant Generated(samples, start, base)
    {
      state := Advance(state);
      samples := samples + [Sample(base, Unit32(Mix(state)))];
    }
    if sampleCount > 0 {
      GeneratedIsSynthesized(samples, start, base);
    }
  }

  /** A sample is the tenth of a megabit next to the capacity jittered by its draw, and the draw is the word as a
      fraction of all words. */
  lemma SampleIsNearest(base: real, word: bv32)
    ensures var sample, draw := Sample(base, Unit32(word)), Unit32(word);
            && draw * 4294967296.0 == (word as int) as real
            && (sample * 10.0).Floor as real == sample * 10.0
            && -0.05 <= sample - base * (0.97 + draw * 0.06) <= 0.05
  {
    RoundIsNear(base * (0.97 + Unit32(word) * 0.06) * 10.0);
  }

  lemma SampleBounds(base: real, draw: real)
    requires base >= 0.0 && 0.0 <= draw < 1.0
    ensures 0.97 * base - 0.05 <= Sample(base, draw) <= 1.03 * base + 0.05
  {
    var x := base * (0.97 + draw * 0.06);
    assert x == base * 0.97 + base * (draw * 0.06);
    ScaleLe(0.0, draw * 0.06, base);
    ScaleLe(draw * 0.06, 0.06, base);
    RoundIsNear(x * 10.0);
  }

  /** Any number of samples synthesized at the recovered capacity is penalty-free when 97% of it, less
      a twentieth, covers the tolerated share of the promise, and penalized when 103% of it does not. */
  lemma SynthesizedVerdict(promised: real, recovered: real, samples: seq<real>, tolerance: real, share: nat)
    requires promised > 0.0 && recovered >= 0.0 && tolerance >= 0.0 && Synthesized(samples, recovered)
    ensures var c := CheckDelivery(promised, samples, tolerance).value;
            && ((0.97 * recovered - 0.05) * 100.0 >= (100.0 - tolerance) * promised ==> !c.penalized && Penalty(share, c.penaltyPct) == 0)
            && ((1.03 * recovered + 0.05) * 100.0 < (100.0 - tolerance) * promised ==> c.penalized)
  {
    forall i | 0 <= i < |samples| ensures 0.97 * recovered - 0.05 <= samples[i] <= 1.03 * recovered + 0.05 {
      assert SomeSample(samples[i], recovered);
      var draw: real :| DrawnAs(samples[i], recovered, draw);
      SampleBounds(recovered, draw);
    }
    AverageBounds(samples, 0.97 * recovered - 0.05, 1.03 * recovered + 0.05);
    PenaltyPctMeaning(promised, samples, tolerance);
  }

  /** At the default tolerance, a provider that recovered what it promised pays no penalty. */
  lemma FullRecoveryIsFree(promised: real, samples: seq<real>, share: nat)
    requires promised >= 1.0 && Synthesized(samples, promised)
    ensures Penalty(share, CheckDelivery(promised, samples, 10.0).value.penaltyPct) == 0
  {
    SynthesizedVerdict(promised, promised, samples, 10.0, share);
  }
}
