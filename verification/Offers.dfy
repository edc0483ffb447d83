/** Viability, ordering and selection of offers (src/a2a/offerEvaluator.js). Prices, latencies and scores are
    exact reals. */
module Offers {
  import opened Units
  import opened StableSort

  /** `classRank` is the place of the activation class among INSTANT, FAST, MEDIUM, SLOW. */
  datatype Offer = Offer(
    providerId: Text,
    available: bool,
    capacityMbps: real,
    durationMinutes: real,
    latencyMs: real,
    packetLossPercent: real,
    reliabilityScore: real,
    currency: Text,
    price: real,
    expectedActivationTimeMs: real,
    classRank: nat)

  datatype Request = Request(
    requestedCapacityMbps: real,
    durationMinutes: real,
    maxLatencyMs: real,
    maxPacketLossPercent: real,
    minReliability: real,
    currency: Text,
    maxBudget: real,
    targetActivationTimeMs: real,
    emergencyOverride: bool)

  datatype Arrival = Arrival(offer: Offer, receivedAtMs: real)

  datatype Code =
    | ProviderUnavailable | InsufficientCapacity | InsufficientDuration | LatencyExceeded | PacketLossExceeded
    | ReliabilityBelowMinimum | BudgetExceeded | ActivationTooSlow | SupersededByFirstViable | RankedBelow

  // ---- Viability --------------------------------------------------------------------------

  /** What the customer asked for. */
  predicate Meets(o: Offer, r: Request) {
    && o.available
    && o.capacityMbps >= r.requestedCapacityMbps
    && o.durationMinutes >= r.durationMinutes
    && o.latencyMs <= r.maxLatencyMs
    && o.packetLossPercent <= r.maxPacketLossPercent
    && o.reliabilityScore >= r.minReliability
    && o.currency == r.currency && o.price <= r.maxBudget
    && o.expectedActivationTimeMs <= r.targetActivationTimeMs
  }

  /** Why an offer falls short, one requirement at a time. */
  predicate Fails(o: Offer, r: Request, code: Code) {
    match code
    case ProviderUnavailable => !o.available
    case InsufficientCapacity => o.capacityMbps < r.requestedCapacityMbps
    case InsufficientDuration => o.durationMinutes < r.durationMinutes
    case LatencyExceeded => o.latencyMs > r.maxLatencyMs
    case PacketLossExceeded => o.packetLossPercent > r.maxPacketLossPercent
    case ReliabilityBelowMinimum => o.reliabilityScore < r.minReliability
    case BudgetExceeded => o.currency != r.currency || o.price > r.maxBudget
    case ActivationTooSlow => o.expectedActivationTimeMs > r.targetActivationTimeMs
    case SupersededByFirstViable => false
    case RankedBelow => false
  }

  function Push(reasons: seq<Code>, failed: bool, code: Code): (more: seq<Code>)
    ensures forall c :: c in more <==> c in reasons || (failed && c == code)
    ensures more == [] <==> reasons == [] && !failed
  {
    if failed then reasons + [code] else reasons
  }

  function ServiceReasons(o: Offer, r: Request): (reasons: seq<Code>)
    ensures reasons == [] <==> o.available && o.capacityMbps >= r.requestedCapacityMbps
                               && o.durationMinutes >= r.durationMinutes && o.latencyMs <= r.maxLatencyMs
  {
    var available := Push([], !o.available, ProviderUnavailable);
    var capacity := Push(available, o.capacityMbps < r.requestedCapacityMbps, InsufficientCapacity);
    var duration := Push(capacity, o.durationMinutes < r.durationMinutes, InsufficientDuration);
    Push(duration, o.latencyMs > r.maxLatencyMs, LatencyExceeded)
  }

  /** The reasons, in the order in which they are checked. */
  function Reasons(o: Offer, r: Request): (reasons: seq<Code>)
    ensures reasons == [] <==> Meets(o, r)
  {
    var loss := Push(ServiceReasons(o, r), o.packetLossPercent > r.maxPacketLossPercent, PacketLossExceeded);
    var reliability := Push(loss, o.reliabilityScore < r.minReliability, ReliabilityBelowMinimum);
    var budget := Push(reliability, o.currency != r.currency || o.price > r.maxBudget, BudgetExceeded);
    Push(budget, o.expectedActivationTimeMs > r.targetActivationTimeMs, ActivationTooSlow)
  }

  /** An offer is told exactly the requirements it fails. */
  lemma ReasonsAreTheFailures(o: Offer, r: Request, code: Code)
    ensures code in Reasons(o, r) <==> Fails(o, r, code)
  {
    ServiceReasonsAreFailures(o, r, code);
  }

  lemma ServiceReasonsAreFailures(o: Offer, r: Request, code: Code)
    ensures code in ServiceReasons(o, r)
       <==> Fails(o, r, code) && code in {ProviderUnavailable, InsufficientCapacity, InsufficientDuration, LatencyExceeded}
  {}

  /** The order in which the requirements are checked. */
  function Place(code: Code): nat {
    match code
    case ProviderUnavailable => 0
    case InsufficientCapacity => 1
    case InsufficientDuration => 2
    case LatencyExceeded => 3
    case PacketLossExceeded => 4
    case ReliabilityBelowMinimum => 5
    case BudgetExceeded => 6
    case ActivationTooSlow => 7
    case _ => 8
  }

  /** The first reason an offer is given is the first requirement it fails. */
  lemma FirstReasonIsTheFirstFailure(o: Offer, r: Request, code: Code)
    requires !Meets(o, r) && Fails(o, r, code)
    ensures Fails(o, r, Reasons(o, r)[0]) && Place(Reasons(o, r)[0]) <= Place(code)
  {}

  /** The first four checks. */
  method CheckService(o: Offer, r: Request) returns (reasons: seq<Code>)
    ensures reasons == ServiceReasons(o, r)
  {
    reasons := [];
    if !o.available {
      reasons := reasons + [ProviderUnavailable];
    }
    if o.capacityMbps < r.requestedCapacityMbps {
      reasons := reasons + [InsufficientCapacity];
    }
    if o.durationMinutes < r.durationMinutes {
      reasons := reasons + [InsufficientDuration];
    }
    if o.latencyMs > r.maxLatencyMs {
      reasons := reasons + [LatencyExceeded];
    }
  }

  method EvaluateOffer(o: Offer, r: Request) returns (viable: bool, reasons: seq<Code>)
    ensures reasons == Reasons(o, r)
    ensures viable <==> Meets(o, r)
  {
    reasons := CheckService(o, r);
    if o.packetLossPercent > r.maxPacketLossPercent {
      reasons := reasons + [PacketLossExceeded];
    }
    if o.reliabilityScore < r.minReliability {
      reasons := reasons + [ReliabilityBelowMinimum];
    }
    if o.currency != r.currency {
      reasons := reasons + [BudgetExceeded];
    } else if o.price > r.maxBudget {
      reasons := reasons + [BudgetExceeded];
    }
    if o.expectedActivationTimeMs > r.targetActivationTimeMs {
      reasons := reasons + [ActivationTooSlow];
    }
    viable := |reasons| == 0;
  }

  // ---- Order -----------------------------------------------------------------------------

  /** Normal mode: faster class, then cheaper, then more reliable. */
  predicate RankLe(a: Arrival, b: Arrival) {
    if a.offer.classRank != b.offer.classRank then a.offer.classRank < b.offer.classRank
    else if a.offer.price != b.offer.price then a.offer.price < b.offer.price
    else a.offer.reliabilityScore >= b.offer.reliabilityScore
  }

  /** Emergency mode: earlier arrival. */
  predicate ArrivalLe(a: Arrival, b: Arrival) {
    a.receivedAtMs <= b.receivedAtMs
  }

  predicate Before(r: Request, a: Arrival, b: Arrival) {
    if r.emergencyOverride then ArrivalLe(a, b) else RankLe(a, b)
  }

  lemma BeforeIsAnOrder(r: Request)
    ensures TotalPreorder((a: Arrival, b: Arrival) => Before(r, a, b))
  {}

  function Viable(arrivals: seq<Arrival>, r: Request): (v: seq<Arrival>)
    ensures forall a :: a in v <==> a in arrivals && Meets(a.offer, r)
  {
    if arrivals == [] then []
    else (if Meets(arrivals[0].offer, r) then [arrivals[0]] else []) + Viable(arrivals[1..], r)
  }

  function NonViable(arrivals: seq<Arrival>, r: Request): (v: seq<Arrival>)
    ensures forall a :: a in v <==> a in arrivals && !Meets(a.offer, r)
  {
    if arrivals == [] then []
    else (if Meets(arrivals[0].offer, r) then [] else [arrivals[0]]) + NonViable(arrivals[1..], r)
  }

  function Ordered(arrivals: seq<Arrival>, r: Request): seq<Arrival> {
    Sort(Viable(arrivals, r), (a: Arrival, b: Arrival) => Before(r, a, b))
  }

  lemma {:induction false} ViableAndNonViable(arrivals: seq<Arrival>, r: Request)
    ensures multiset(Viable(arrivals, r)) + multiset(NonViable(arrivals, r)) == multiset(arrivals)
  {
    if arrivals != [] {
      ViableAndNonViable(arrivals[1..], r);
      assert arrivals == [arrivals[0]] + arrivals[1..];
    }
  }

  /** `orderedViable` loses no arrival and makes none up. */
  lemma OrderedSplits(arrivals: seq<Arrival>, r: Request)
    ensures multiset(Ordered(arrivals, r)) + multiset(NonViable(arrivals, r)) == multiset(arrivals)
    ensures forall a :: a in Ordered(arrivals, r) ==> a in arrivals && Meets(a.offer, r)
    ensures |Ordered(arrivals, r)| == |Viable(arrivals, r)|
  {
    ViableAndNonViable(arrivals, r);
    SortPermutes(Viable(arrivals, r), (a: Arrival, b: Arrival) => Before(r, a, b));
    forall a | a in Ordered(arrivals, r) ensures a in arrivals && Meets(a.offer, r) {
      assert a in multiset(Ordered(arrivals, r));
      assert a in Viable(arrivals, r);
    }
  }

  ghost predicate InOrder(xs: seq<Arrival>, r: Request) {
    forall i, j :: 0 <= i < j < |xs| ==> Before(r, xs[i], xs[j])
  }

  /** Offers that tie stand in the order in which they were given. */
  ghost predicate KeepsTies(xs: seq<Arrival>, arrivals: seq<Arrival>, r: Request) {
    forall y: Arrival :: TiedWith(xs, y, r) == TiedWith(Viable(arrivals, r), y, r)
  }

  ghost function TiedWith(xs: seq<Arrival>, y: Arrival, r: Request): seq<Arrival> {
    Ties(xs, y, (a: Arrival, b: Arrival) => Before(r, a, b))
  }

  /** The order is the only one that is sorted and leaves ties as they arrived. */
  lemma OrderedIsTheStableOrder(arrivals: seq<Arrival>, r: Request, xs: seq<Arrival>)
    ensures InOrder(xs, r) && KeepsTies(xs, arrivals, r) <==> xs == Ordered(arrivals, r)
  {
    var le := (a: Arrival, b: Arrival) => Before(r, a, b);
    var v := Viable(arrivals, r);
    BeforeIsAnOrder(r);
    SortSorted(v, le);
    forall y: Arrival ensures Ties(Sort(v, le), y, le) == Ties(v, y, le) {
      SortStable(v, y, le);
    }
    forall y: Arrival ensures TiedWith(Ordered(arrivals, r), y, r) == TiedWith(v, y, r) {
      assert Ties(Sort(v, le), y, le) == Ties(v, y, le);
    }
    if InOrder(xs, r) && KeepsTies(xs, arrivals, r) {
      forall y: Arrival ensures Ties(xs, y, le) == Ties(Ordered(arrivals, r), y, le) {
        assert TiedWith(xs, y, r) == TiedWith(v, y, r);
      }
      StableSortUnique(xs, Ordered(arrivals, r), le);
    }
  }

  /** What the order means in normal mode: of two candidates the one that stands first has the faster class, or the same
      class and the lower price, or the same class and price and at least the reliability. */
  lemma NormalOrder(arrivals: seq<Arrival>, r: Request, i: nat, j: nat)
    requires !r.emergencyOverride && i < j < |Ordered(arrivals, r)|
    ensures var a, b := Ordered(arrivals, r)[i].offer, Ordered(arrivals, r)[j].offer;
            && a.classRank <= b.classRank
            && (a.classRank == b.classRank ==> a.price <= b.price)
            && (a.classRank == b.classRank && a.price == b.price ==> a.reliabilityScore >= b.reliabilityScore)
  {
    OrderedIsTheStableOrder(arrivals, r, Ordered(arrivals, r));
    assert Before(r, Ordered(arrivals, r)[i], Ordered(arrivals, r)[j]);
  }

  /** And in an emergency: the one that stands first did not arrive later. */
  lemma EmergencyOrder(arrivals: seq<Arrival>, r: Request, i: nat, j: nat)
    requires r.emergencyOverride && i < j < |Ordered(arrivals, r)|
    ensures Ordered(arrivals, r)[i].receivedAtMs <= Ordered(arrivals, r)[j].receivedAtMs
  {
    OrderedIsTheStableOrder(arrivals, r, Ordered(arrivals, r));
    assert Before(r, Ordered(arrivals, r)[i], Ordered(arrivals, r)[j]);
  }

  // ---- Selection ---------------------------------------------------------------------------

  datatype Rejection = Rejection(providerId: Text, code: Code)

  datatype Selection = Selection(selected: Option<Arrival>, rejected: seq<Rejection>)

  function Unviable(entries: seq<Arrival>, r: Request): seq<Rejection>
    requires forall i :: 0 <= i < |entries| ==> !Meets(entries[i].offer, r)
  {
    seq(|entries|, i requires 0 <= i < |entries| => Rejection(entries[i].offer.providerId, Reasons(entries[i].offer, r)[0]))
  }

  function Losing(entries: seq<Arrival>, winner: Arrival, r: Request): seq<Rejection> {
    seq(|entries|, i requires 0 <= i < |entries| =>
      Rejection(entries[i].offer.providerId,
                if r.emergencyOverride && entries[i].receivedAtMs > winner.receivedAtMs then SupersededByFirstViable else RankedBelow))
  }

  function SelectOffer(arrivals: seq<Arrival>, r: Request): Selection {
    var ordered := Ordered(arrivals, r);
    var rejected := Unviable(NonViable(arrivals, r), r);
    if ordered == [] then Selection(None, rejected)
    else Selection(Some(ordered[0]), rejected + Losing(ordered[1..], ordered[0], r))
  }

  function Ids(arrivals: seq<Arrival>): (ids: seq<Text>)
    ensures |ids| == |arrivals|
  {
    seq(|arrivals|, i requires 0 <= i < |arrivals| => arrivals[i].offer.providerId)
  }

  function RejectedIds(rejected: seq<Rejection>): (ids: seq<Text>)
    ensures |ids| == |rejected|
  {
    seq(|rejected|, i requires 0 <= i < |rejected| => rejected[i].providerId)
  }

  lemma RestOf(a: seq<Arrival>, k: nat)
    requires k < |a|
    ensures multiset(a) == multiset{a[k]} + multiset(a[..k] + a[k + 1..])
    ensures multiset(Ids(a)) == multiset{a[k].offer.providerId} + multiset(Ids(a[..k] + a[k + 1..]))
  {
    assert a == a[..k] + [a[k]] + a[k + 1..];
    assert Ids(a) == Ids(a[..k]) + [a[k].offer.providerId] + Ids(a[k + 1..]);
    assert Ids(a[..k] + a[k + 1..]) == Ids(a[..k]) + Ids(a[k + 1..]);
  }

  lemma Cancel(x: Arrival, m: multiset<Arrival>, n: multiset<Arrival>)
    requires multiset{x} + m == multiset{x} + n
    ensures m == n
  {
    assert m == multiset{x} + m - multiset{x} && n == multiset{x} + n - multiset{x};
  }

  /** The same arrivals have the same ids, however they are arranged. */
  lemma {:induction false} SameIds(a: seq<Arrival>, b: seq<Arrival>)
    requires multiset(a) == multiset(b)
    ensures multiset(Ids(a)) == multiset(Ids(b))
    decreases |a|
  {
    assert |multiset(a)| == |a| && |multiset(b)| == |b|;
    if a == [] {
      assert Ids(a) == Ids(b);
    } else {
      assert a[0] in multiset(b);
      var k :| 0 <= k < |b| && b[k] == a[0];
      var restA, restB := a[..0] + a[1..], b[..k] + b[k + 1..];
      RestOf(a, 0);
      RestOf(b, k);
      Cancel(a[0], multiset(restA), multiset(restB));
      SameIds(restA, restB);
    }
  }

  lemma IdsConcat(a: seq<Arrival>, b: seq<Arrival>)
    ensures Ids(a + b) == Ids(a) + Ids(b)
  {}

  /** What `SelectOffer` says about the entries it was given, viable ones in order and the others. */
  lemma RejectedIdsOf(ordered: seq<Arrival>, out: seq<Arrival>, r: Request)
    requires ordered != [] && forall i :: 0 <= i < |out| ==> !Meets(out[i].offer, r)
    ensures RejectedIds(Unviable(out, r) + Losing(ordered[1..], ordered[0], r)) == Ids(out) + Ids(ordered[1..])
    ensures Ids(ordered) == [ordered[0].offer.providerId] + Ids(ordered[1..])
  {}

  /** Winner and rejections together name every arrival exactly once. */
  lemma SelectionCoversEveryArrival(arrivals: seq<Arrival>, r: Request)
    ensures var s := SelectOffer(arrivals, r);
            (if s.selected.Some? then multiset{s.selected.value.offer.providerId} else multiset{})
            + multiset(RejectedIds(s.rejected)) == multiset(Ids(arrivals))
  {
    var ordered, out := Ordered(arrivals, r), NonViable(arrivals, r);
    IdsSplit(arrivals, r);
    if ordered != [] {
      RejectedIdsOf(ordered, out, r);
      AllButTheWinner(ordered, out, r);
    } else {
      assert RejectedIds(Unviable(out, r)) == Ids(out) && Ids(ordered) == [];
    }
  }

  lemma IdsSplit(arrivals: seq<Arrival>, r: Request)
    ensures multiset(Ids(Ordered(arrivals, r))) + multiset(Ids(NonViable(arrivals, r))) == multiset(Ids(arrivals))
  {
    var ordered, out := Ordered(arrivals, r), NonViable(arrivals, r);
    OrderedSplits(arrivals, r);
    assert multiset(ordered + out) == multiset(arrivals);
    SameIds(ordered + out, arrivals);
    IdsConcat(ordered, out);
  }

  lemma AllButTheWinner(ordered: seq<Arrival>, out: seq<Arrival>, r: Request)
    requires ordered != [] && forall i :: 0 <= i < |out| ==> !Meets(out[i].offer, r)
    ensures multiset{ordered[0].offer.providerId} + multiset(RejectedIds(Unviable(out, r) + Losing(ordered[1..], ordered[0], r)))
         == multiset(Ids(ordered)) + multiset(Ids(out))
  {
    RejectedIdsOf(ordered, out, r);
  }

  /** Why a viable offer lost. */
  lemma WhyItLost(entries: seq<Arrival>, winner: Arrival, r: Request, i: nat)
    requires i < |entries|
    ensures var x := Losing(entries, winner, r)[i];
            && x.providerId == entries[i].offer.providerId
            && (x.code == SupersededByFirstViable <==> r.emergencyOverride && winner.receivedAtMs < entries[i].receivedAtMs)
            && (x.code == RankedBelow <==> !r.emergencyOverride || entries[i].receivedAtMs <= winner.receivedAtMs)
  {}

  /** There is a winner exactly when some offer is viable; it is viable and nothing viable comes before it. */
  lemma WinnerIsMinimal(arrivals: seq<Arrival>, r: Request)
    ensures var s := SelectOffer(arrivals, r);
            && (s.selected.Some? <==> exists a :: a in arrivals && Meets(a.offer, r))
            && (s.selected.Some? ==>
                  && s.selected.value in arrivals && Meets(s.selected.value.offer, r)
                  && forall a :: a in arrivals && Meets(a.offer, r) ==> Before(r, s.selected.value, a))
  {
    OrderedSplits(arrivals, r);
    OrderedIsTheStableOrder(arrivals, r, Ordered(arrivals, r));
    var ordered := Ordered(arrivals, r);
    SortPermutes(Viable(arrivals, r), (a: Arrival, b: Arrival) => Before(r, a, b));
    forall a | a in arrivals && Meets(a.offer, r) ensures a in ordered {
      assert a in Viable(arrivals, r);
      assert a in multiset(ordered);
    }
    if ordered != [] {
      assert ordered[0] in ordered && Before(r, ordered[0], ordered[0]);
    }
  }
}
