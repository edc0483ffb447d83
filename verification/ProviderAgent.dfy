/** The repeat-safety caches of a provider agent (src/agents/providerAgent.js). A quote waits for its pitch between
    the cache lookup and the cache write; an activation is entered in its table before anything is awaited. */
module ProviderAgent {
  import opened Units

  /** A signed offer; every draft carries its own expiry, so two drafts of one request may differ. */
  datatype Signed = Signed(offerId: Text, expiryMs: nat)

  datatype Quote = Drafting(requestId: Text) | Answered(requestId: Text, offer: Signed)

  datatype State = State(offers: map<Text, Signed>, quotes: seq<Quote>, activations: map<Text, nat>, started: seq<Text>)

  const EMPTY := State(map[], [], map[], [])

  datatype Step = Ask(requestId: Text) | Sign(quote: nat, offer: Signed) | Activate(key: Text)

  function Next(s: State, step: Step): State {
    match step
    case Ask(r) =>
      s.(quotes := s.quotes + [if r in s.offers then Answered(r, s.offers[r]) else Drafting(r)])
    case Sign(k, offer) =>
      if k < |s.quotes| && s.quotes[k].Drafting? then
        var r := s.quotes[k].requestId;
        s.(offers := s.offers[r := offer], quotes := s.quotes[k := Answered(r, offer)])
      else s
    case Activate(key) =>
      if key in s.activations then s else s.(activations := s.activations[key := |s.started|], started := s.started + [key])
  }

  function Run(s: State, steps: seq<Step>): State {
    if steps == [] then s else Next(Run(s, steps[..|steps| - 1]), steps[|steps| - 1])
  }

  class Agent {
    var offers: map<Text, Signed>
    var quotes: seq<Quote>
    var activations: map<Text, nat>
    var started: seq<Text>

    function Abstract(): State
      reads this
    {
      State(offers, quotes, activations, started)
    }

    constructor ()
      ensures Abstract() == EMPTY
    {
      offers, quotes, activations, started := map[], [], map[], [];
    }

    /** `quoteOffer` up to the pitch. */
    method QuoteOffer(requestId: Text)
      modifies this
      ensures Abstract() == Next(old(Abstract()), Ask(requestId))
    {
      if requestId in offers {
        quotes := quotes + [Answered(requestId, offers[requestId])];
      } else {
        quotes := quotes + [Drafting(requestId)];
      }
    }

    /** `quoteOffer` after it: sign and cache. */
    method SignAndCache(k: nat, offer: Signed)
      requires k < |quotes| && quotes[k].Drafting?
      modifies this
      ensures Abstract() == Next(old(Abstract()), Sign(k, offer))
    {
      var requestId := quotes[k].requestId;
      offers := offers[requestId := offer];
      quotes := quotes[k := Answered(requestId, offer)];
    }

    method ActivateOnce(key: Text) returns (activation: nat)
      modifies this
      ensures Abstract() == Next(old(Abstract()), Activate(key))
      ensures key in activations && activation == activations[key]
    {
      if key in activations {
        return activations[key];
      }
      activation := |started|;
      started := started + [key];
      activations := activations[key := activation];
    }
  }

  // ---- Quotes ------------------------------------------------------------------------------------

  /** A quote of this request waits for its pitch. */
  predicate DraftOpen(s: State, r: Text) {
    exists k :: 0 <= k < |s.quotes| && s.quotes[k] == Drafting(r)
  }

  /** The request comes in again while a quote of it is being drafted. */
  predicate OverlapsAt(steps: seq<Step>, r: Text, i: nat) {
    i < |steps| && steps[i] == Ask(r) && DraftOpen(Run(EMPTY, steps[..i]), r)
  }

  ghost predicate Overlaps(steps: seq<Step>, r: Text) {
    exists i: nat :: OverlapsAt(steps, r, i)
  }

  ghost predicate OneOffer(s: State, r: Text) {
    forall j, k :: 0 <= j < |s.quotes| && 0 <= k < |s.quotes| && Answers(s.quotes[j], r) && Answers(s.quotes[k], r) ==>
      s.quotes[j] == s.quotes[k]
  }

  predicate Answers(q: Quote, r: Text) {
    q.Answered? && q.requestId == r
  }

  /** Every answer so far is the cached one and nothing is being drafted; or there was at most one request, still
      being drafted. */
  ghost predicate Orderly(s: State, r: Text) {
    if r in s.offers then forall k :: 0 <= k < |s.quotes| && s.quotes[k].requestId == r ==> s.quotes[k] == Answered(r, s.offers[r])
    else
      && (forall k :: 0 <= k < |s.quotes| && s.quotes[k].requestId == r ==> s.quotes[k].Drafting?)
      && (forall j, k :: 0 <= j < k < |s.quotes| ==> !(s.quotes[j].requestId == r && s.quotes[k].requestId == r))
  }

  lemma StepStaysOrderly(s: State, step: Step, r: Text)
    requires Orderly(s, r) && !(step == Ask(r) && DraftOpen(s, r))
    ensures Orderly(Next(s, step), r)
  {
    if step == Ask(r) && r !in s.offers {
      forall k | 0 <= k < |s.quotes| ensures s.quotes[k].requestId != r {
        assert s.quotes[k] != Drafting(r);
      }
    }
  }

  lemma {:induction false} NoOverlapIsOrderly(steps: seq<Step>, r: Text)
    requires forall i: nat :: !OverlapsAt(steps, r, i)
    ensures Orderly(Run(EMPTY, steps), r)
  {
    if steps != [] {
      var n := |steps| - 1;
      forall i: nat ensures !OverlapsAt(steps[..n], r, i) {
        if i < n {
          assert steps[..n][..i] == steps[..i];
          assert !OverlapsAt(steps, r, i);
        }
      }
      NoOverlapIsOrderly(steps[..n], r);
      assert !OverlapsAt(steps, r, n);
      StepStaysOrderly(Run(EMPTY, steps[..n]), steps[n], r);
    }
  }

  /** The same requests and signatures at the same moments; only what is signed may differ. */
  predicate SameMoment(a: Step, b: Step) {
    a == b || (a.Sign? && b.Sign? && a.quote == b.quote)
  }

  predicate SameSchedule(steps: seq<Step>, other: seq<Step>) {
    |steps| == |other| && forall i :: 0 <= i < |steps| ==> SameMoment(steps[i], other[i])
  }

  ghost predicate SameShape(s: State, t: State) {
    && |s.quotes| == |t.quotes| && s.offers.Keys == t.offers.Keys
    && forall k :: 0 <= k < |s.quotes| ==>
         s.quotes[k].requestId == t.quotes[k].requestId && s.quotes[k].Drafting? == t.quotes[k].Drafting?
  }

  lemma StepGivesShape(s: State, t: State, a: Step, b: Step)
    requires SameShape(s, t) && SameMoment(a, b)
    ensures SameShape(Next(s, a), Next(t, b))
  {}

  lemma {:induction false} ScheduleGivesShape(steps: seq<Step>, other: seq<Step>)
    requires SameSchedule(steps, other)
    ensures SameShape(Run(EMPTY, steps), Run(EMPTY, other))
  {
    if steps != [] {
      var n := |steps| - 1;
      ScheduleGivesShape(steps[..n], other[..n]);
      StepGivesShape(Run(EMPTY, steps[..n]), Run(EMPTY, other[..n]), steps[n], other[n]);
    }
  }

  lemma OverlapIsInTheSchedule(steps: seq<Step>, other: seq<Step>, r: Text, i: nat)
    requires SameSchedule(steps, other) && OverlapsAt(other, r, i)
    ensures OverlapsAt(steps, r, i)
  {
    var s, t := Run(EMPTY, steps[..i]), Run(EMPTY, other[..i]);
    ScheduleGivesShape(steps[..i], other[..i]);
    var k :| 0 <= k < |t.quotes| && t.quotes[k] == Drafting(r);
    assert s.quotes[k] == Drafting(r);
  }

  /** Only signatures. */
  predicate AllSigns(steps: seq<Step>) {
    forall i :: 0 <= i < |steps| ==> steps[i].Sign?
  }

  lemma SignsDoNotOverlap(steps: seq<Step>, more: seq<Step>, r: Text, i: nat)
    requires AllSigns(more) && OverlapsAt(steps + more, r, i)
    ensures OverlapsAt(steps, r, i)
  {
    assert !(steps + more)[i].Sign?;
    assert i < |steps|;
    assert (steps + more)[..i] == steps[..i];
  }

  /** A run in which the request never comes in while it is being drafted gives one and the same offer every time. */
  lemma SeparateRequestsGetOneOffer(steps: seq<Step>, r: Text)
    requires !Overlaps(steps, r)
    ensures OneOffer(Run(EMPTY, steps), r)
  {
    NoOverlapIsOrderly(steps, r);
  }

  /** No quote of this request is being drafted, and every answer so far is the cached one. */
  ghost predicate Settled(s: State, r: Text) {
    r in s.offers && forall k :: 0 <= k < |s.quotes| && s.quotes[k].requestId == r ==> s.quotes[k] == Answered(r, s.offers[r])
  }

  /** Once one offer has been given for a request and none is being drafted, every later answer is that same offer. */
  lemma {:induction false} RepeatsGetTheSameOffer(s: State, steps: seq<Step>, r: Text)
    requires Settled(s, r)
    ensures Settled(Run(s, steps), r) && Run(s, steps).offers[r] == s.offers[r]
  {
    if steps != [] {
      RepeatsGetTheSameOffer(s, steps[..|steps| - 1], r);
    }
  }

  // ---- Overlapping requests ---------------------------------------------------------------------------

  lemma {:induction false} FirstOverlap(steps: seq<Step>, r: Text, i: nat) returns (first: nat)
    requires OverlapsAt(steps, r, i)
    ensures OverlapsAt(steps, r, first) && forall j: nat :: j < first ==> !OverlapsAt(steps, r, j)
  {
    if j: nat :| j < i && OverlapsAt(steps, r, j) {
      first := FirstOverlap(steps, r, j);
    } else {
      first := i;
    }
  }

  /** At the first overlap two drafts of the request are open. */
  lemma TwoDrafts(steps: seq<Step>, r: Text, i: nat) returns (j: nat, k: nat)
    requires OverlapsAt(steps, r, i) && forall j: nat :: j < i ==> !OverlapsAt(steps, r, j)
    ensures var s := Run(EMPTY, steps[..i + 1]);
            j < k < |s.quotes| && s.quotes[j] == Drafting(r) && s.quotes[k] == Drafting(r)
  {
    var before := Run(EMPTY, steps[..i]);
    forall j: nat ensures !OverlapsAt(steps[..i], r, j) {
      if j < i {
        assert steps[..i][..j] == steps[..j];
        assert !OverlapsAt(steps, r, j);
      }
    }
    NoOverlapIsOrderly(steps[..i], r);
    j :| 0 <= j < |before.quotes| && before.quotes[j] == Drafting(r);
    k := |before.quotes|;
    assert steps[..i + 1][..i] == steps[..i];
    assert Run(EMPTY, steps[..i + 1]) == Next(before, Ask(r));
  }

  /** The schedule with other signatures: `a` on the j-th quote and `b` on all others. */
  function Resigned(steps: seq<Step>, j: nat, a: Signed, b: Signed): (other: seq<Step>)
    ensures SameSchedule(steps, other)
    ensures forall i :: 0 <= i < |other| && other[i].Sign? ==> other[i].offer == if other[i].quote == j then a else b
  {
    seq(|steps|, i requires 0 <= i < |steps| =>
      if steps[i].Sign? then Sign(steps[i].quote, if steps[i].quote == j then a else b) else steps[i])
  }

  predicate DraftOr(s: State, k: nat, r: Text, offer: Signed) {
    k < |s.quotes| && (s.quotes[k] == Drafting(r) || s.quotes[k] == Answered(r, offer))
  }

  lemma StepKeepsDraft(s: State, step: Step, k: nat, r: Text, offer: Signed)
    requires DraftOr(s, k, r, offer) && (step.Sign? && step.quote == k ==> step.offer == offer)
    ensures DraftOr(Next(s, step), k, r, offer)
  {}

  /** A draft stays open until it is answered with its own signature. */
  lemma {:induction false} DraftsKeepTheirSignature(steps: seq<Step>, m: nat, k: nat, r: Text, offer: Signed)
    requires m <= |steps| && DraftOr(Run(EMPTY, steps[..m]), k, r, offer)
    requires forall i :: m <= i < |steps| && steps[i].Sign? && steps[i].quote == k ==> steps[i].offer == offer
    ensures DraftOr(Run(EMPTY, steps), k, r, offer)
    decreases |steps|
  {
    if m == |steps| {
      assert steps[..m] == steps;
    } else {
      var n := |steps| - 1;
      assert steps[..n][..m] == steps[..m];
      DraftsKeepTheirSignature(steps[..n], m, k, r, offer);
      StepKeepsDraft(Run(EMPTY, steps[..n]), steps[n], k, r, offer);
    }
  }

  lemma SignedLast(steps: seq<Step>, j: nat, k: nat, a: Signed, b: Signed)
    ensures Run(EMPTY, steps + [Sign(j, a), Sign(k, b)]) == Next(Next(Run(EMPTY, steps), Sign(j, a)), Sign(k, b))
  {
    var all := steps + [Sign(j, a), Sign(k, b)];
    assert all[..|all| - 1] == steps + [Sign(j, a)];
    assert (steps + [Sign(j, a)])[..|steps|] == steps;
  }

  lemma TwoSignaturesDiffer(s: State, r: Text, j: nat, k: nat, a: Signed, b: Signed)
    requires DraftOr(s, j, r, a) && DraftOr(s, k, r, b) && j != k && a != b
    ensures !OneOffer(Next(Next(s, Sign(j, a)), Sign(k, b)), r)
  {
    var t := Next(Next(s, Sign(j, a)), Sign(k, b));
    assert t.quotes[j] == Answered(r, a) && t.quotes[k] == Answered(r, b);
  }

  lemma ResignedDrafts(steps: seq<Step>, m: nat, r: Text, j: nat, k: nat, a: Signed, b: Signed)
    requires m <= |steps| && j != k
    requires var s := Run(EMPTY, steps[..m]);
             j < |s.quotes| && k < |s.quotes| && s.quotes[j] == Drafting(r) && s.quotes[k] == Drafting(r)
    ensures var s := Run(EMPTY, Resigned(steps, j, a, b)); DraftOr(s, j, r, a) && DraftOr(s, k, r, b)
  {
    var other := Resigned(steps, j, a, b);
    ScheduleGivesShape(steps[..m], other[..m]);
    DraftsKeepTheirSignature(other, m, j, r, a);
    DraftsKeepTheirSignature(other, m, k, r, b);
  }

  /** A run in which they overlap can, with other signatures at the same moments, answer one request with two offers. */
  lemma OverlappingRequestsCanDiffer(steps: seq<Step>, r: Text, i: nat, a: Signed, b: Signed)
    returns (other: seq<Step>, more: seq<Step>)
    requires OverlapsAt(steps, r, i) && a != b
    ensures SameSchedule(steps, other) && AllSigns(more) && !OneOffer(Run(EMPTY, other + more), r)
  {
    var first := FirstOverlap(steps, r, i);
    var j, k := TwoDrafts(steps, r, first);
    other, more := Resigned(steps, j, a, b), [Sign(j, a), Sign(k, b)];
    ResignedDrafts(steps, first + 1, r, j, k, a, b);
    SignedLast(other, j, k, a, b);
    TwoSignaturesDiffer(Run(EMPTY, other), r, j, k, a, b);
  }

  /** All answers to a request are one and the same signed offer, whatever is drafted and signed, exactly when the
      request never comes in while a quote of it is being drafted. */
  lemma OneOfferIff(steps: seq<Step>, r: Text)
    ensures (forall other, more :: SameSchedule(steps, other) && AllSigns(more) ==> OneOffer(Run(EMPTY, other + more), r))
       <==> !Overlaps(steps, r)
  {
    if Overlaps(steps, r) {
      var i: nat :| OverlapsAt(steps, r, i);
      var other, more := OverlappingRequestsCanDiffer(steps, r, i, Signed([], 0), Signed([], 1));
    } else {
      forall other, more | SameSchedule(steps, other) && AllSigns(more) ensures OneOffer(Run(EMPTY, other + more), r) {
        forall i: nat ensures !OverlapsAt(other + more, r, i) {
          if OverlapsAt(other + more, r, i) {
            SignsDoNotOverlap(other, more, r, i);
            OverlapIsInTheSchedule(steps, other, r, i);
          }
        }
        SeparateRequestsGetOneOffer(other + more, r);
      }
    }
  }

  /** Such an overlap: the request twice before the first draft is signed. */
  lemma TwoRequestsOverlap(r: Text)
    ensures OverlapsAt([Ask(r), Ask(r)], r, 1)
  {
    var steps := [Ask(r), Ask(r)];
    assert steps[..1] == [Ask(r)] && steps[..1][..0] == [];
    assert Run(EMPTY, steps[..1]).quotes[0] == Drafting(r);
  }

  // ---- Activations ------------------------------------------------------------------------------------

  ghost predicate OncePerKey(s: State) {
    && (forall key :: key in s.activations ==> s.activations[key] < |s.started| && s.started[s.activations[key]] == key)
    && (forall k :: 0 <= k < |s.started| ==> s.started[k] in s.activations && s.activations[s.started[k]] == k)
  }

  /** However often and from wherever an activation is asked for, it is started once per incident and offer. */
  lemma {:induction false} ActivationsStartOnce(steps: seq<Step>)
    ensures OncePerKey(Run(EMPTY, steps))
    ensures forall j, k :: 0 <= j < k < |Run(EMPTY, steps).started| ==> Run(EMPTY, steps).started[j] != Run(EMPTY, steps).started[k]
  {
    if steps != [] {
      ActivationsStartOnce(steps[..|steps| - 1]);
    }
  }
}
