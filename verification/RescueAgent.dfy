/** The recovery pipeline (src/agents/rescueAgent.js): health gate, bid race, viability, ranking and the
    activation walk, with an account of what becomes of every configured provider. */
module RescueAgent {
  import opened Units
  import opened Digits
  import opened Offers

  datatype Reason =
    | Unavailable | ResponseTimeout | OfferInvalid | TamperedOffer
    | NotViable(code: Code) | ActivationFailed | Superseded | Outranked

  datatype Refusal = Refusal(providerId: Text, reason: Reason)

  function Refused(rs: seq<Refusal>): (ids: seq<Text>)
    ensures |ids| == |rs|
  {
    seq(|rs|, i requires 0 <= i < |rs| => rs[i].providerId)
  }

  // ---- Arrivals --------------------------------------------------------------------------

  /** A reply body: not an offer, or an offer for an incident with a signature that does or does not verify
      under the key of the provider that was asked. */
  datatype Body = NotAnOffer | Quote(offer: Offer, incidentId: Text, verifies: bool)

  datatype Answer = CallFailed(aborted: bool) | Replied(body: Body)

  /** One call settling before the deadline. */
  datatype Reply = Reply(providerId: Text, answer: Answer, atMs: real)

  datatype Checked = Accepted(offer: Offer) | Turned(reason: Reason)

  /** `validateArrival` */
  function ValidateArrival(body: Body, providerId: Text, incidentId: Text): (c: Checked)
    ensures c.Accepted? <==> body.Quote? && body.offer.providerId == providerId && body.incidentId == incidentId && body.verifies
    ensures c.Accepted? ==> c.offer == body.offer
    ensures c.Turned? ==> c.reason == if body.NotAnOffer? then OfferInvalid else TamperedOffer
  {
    if body.NotAnOffer? then Turned(OfferInvalid)
    else if body.offer.providerId != providerId then Turned(TamperedOffer)
    else if body.incidentId != incidentId then Turned(TamperedOffer)
    else if !body.verifies then Turned(TamperedOffer)
    else Accepted(body.offer)
  }

  function Without(ids: seq<Text>, id: Text): (r: seq<Text>)
    requires id in ids
    ensures multiset(r) + multiset{id} == multiset(ids)
  {
    if ids[0] == id then
      assert ids == [ids[0]] + ids[1..];
      ids[1..]
    else
      assert ids == [ids[0]] + ids[1..];
      [ids[0]] + Without(ids[1..], id)
  }

  lemma RefusedOneMore(rs: seq<Refusal>, r: Refusal)
    ensures Refused(rs + [r]) == Refused(rs) + [r.providerId]
  {}

  lemma IdsOneMore(arrivals: seq<Arrival>, a: Arrival)
    ensures Ids(arrivals + [a]) == Ids(arrivals) + [a.offer.providerId]
  {}

  /** The providers that pass, in their order. */
  function Ready(providers: seq<Text>, healthy: Text -> bool): seq<Text> {
    if providers == [] then []
    else
      var n := |providers| - 1;
      Ready(providers[..n], healthy) + if healthy(providers[n]) then [providers[n]] else []
  }

  function Unready(providers: seq<Text>, healthy: Text -> bool): seq<Refusal> {
    if providers == [] then []
    else
      var n := |providers| - 1;
      Unready(providers[..n], healthy) + if healthy(providers[n]) then [] else [Refusal(providers[n], Unavailable)]
  }

  lemma GateOneMore(providers: seq<Text>, i: nat, healthy: Text -> bool)
    requires i < |providers|
    ensures var id := providers[i];
            && Ready(providers[..i + 1], healthy) == Ready(providers[..i], healthy) + (if healthy(id) then [id] else [])
            && Unready(providers[..i + 1], healthy)
               == Unready(providers[..i], healthy) + (if healthy(id) then [] else [Refusal(id, Unavailable)])
  {
    assert providers[..i + 1][..i] == providers[..i];
  }

  lemma {:induction false} GateIsByHealth(providers: seq<Text>, healthy: Text -> bool, id: Text)
    ensures id in Ready(providers, healthy) <==> id in providers && healthy(id)
    ensures Refusal(id, Unavailable) in Unready(providers, healthy) <==> id in providers && !healthy(id)
  {
    if providers != [] {
      GateIsByHealth(providers[..|providers| - 1], healthy, id);
    }
  }

  lemma AddBack(ready: seq<Text>, out: seq<Refusal>, all: seq<Text>, id: Text, passes: bool)
    requires multiset(ready) + multiset(Refused(out)) == multiset(all)
    ensures passes ==> multiset(ready + [id]) + multiset(Refused(out)) == multiset(all + [id])
    ensures !passes ==> multiset(ready) + multiset(Refused(out + [Refusal(id, Unavailable)])) == multiset(all + [id])
  {
    RefusedOneMore(out, Refusal(id, Unavailable));
  }

  lemma {:induction false} GateSplits(providers: seq<Text>, healthy: Text -> bool)
    ensures multiset(Ready(providers, healthy)) + multiset(Refused(Unready(providers, healthy))) == multiset(providers)
  {
    if providers != [] {
      var init, id := providers[..|providers| - 1], providers[|providers| - 1];
      var ready, out := Ready(init, healthy), Unready(init, healthy);
      GateSplits(init, healthy);
      AddBack(ready, out, init, id, healthy(id));
      assert init + [id] == providers;
      if healthy(id) {
        assert Unready(providers, healthy) == out;
      } else {
        assert Ready(providers, healthy) == ready;
      }
    }
  }

  /** The readiness gate splits the providers. */
  method HealthGate(providers: seq<Text>, healthy: Text -> bool) returns (ready: seq<Text>, rejected: seq<Refusal>)
    ensures multiset(ready) + multiset(Refused(rejected)) == multiset(providers)
    ensures ready == Ready(providers, healthy) && rejected == Unready(providers, healthy)
    ensures forall id :: id in ready ==> healthy(id)
    ensures forall r :: r in rejected ==> !healthy(r.providerId) && r.reason == Unavailable
  {
    ready, rejected := [], [];
    var i := 0;
    while i < |providers|
      invariant i <= |providers|
      invariant forall id :: id in ready ==> healthy(id)
      invariant forall r :: r in rejected ==> !healthy(r.providerId) && r.reason == Unavailable
      invariant ready == Ready(providers[..i], healthy) && rejected == Unready(providers[..i], healthy)
    {
      GateOneMore(providers, i, healthy);
      if healthy(providers[i]) {
        ready := ready + [providers[i]];
      } else {
        rejected := rejected + [Refusal(providers[i], Unavailable)];
      }
      i := i + 1;
    }
    assert providers[..i] == providers;
    GateSplits(providers, healthy);
  }

  /** Every provider is still pending, has an accepted offer, or has been turned down. */
  ghost predicate Accounted(pending: seq<Text>, arrivals: seq<Arrival>, rejected: seq<Refusal>, asked: multiset<Text>) {
    multiset(pending) + multiset(Ids(arrivals)) + multiset(Refused(rejected)) == asked
  }

  /** The provider itself sent this offer, for this incident, under its own key. */
  ghost predicate Genuine(a: Arrival, replies: seq<Reply>, incidentId: Text) {
    exists r :: r in replies && r.providerId == a.offer.providerId && r.answer == Replied(Quote(a.offer, incidentId, true))
  }

  /** The reply carries this offer, made by the provider that was asked, for this incident, under its own key. */
  predicate Sends(reply: Reply, incidentId: Text, offer: Offer) {
    reply.answer == Replied(Quote(offer, incidentId, true)) && offer.providerId == reply.providerId
  }

  /** The reply is anything else, and this is what is wrong with it: the call was cut off or failed, it carries no offer,
      or the offer is of another provider, for another incident, or does not verify. */
  predicate RefusedFor(reply: Reply, incidentId: Text, reason: Reason) {
    match reply.answer
    case CallFailed(aborted) => if aborted then reason == ResponseTimeout else reason == Unavailable
    case Replied(NotAnOffer) => reason == OfferInvalid
    case Replied(Quote(offer, incident, verifies)) =>
      reason == TamperedOffer && !(offer.providerId == reply.providerId && incident == incidentId && verifies)
  }

  /** What a settled call comes to: accepted with an offer exactly when it sends it, and turned down for a reason exactly
      when that is what is wrong with it. */
  function Judge(reply: Reply, incidentId: Text): (c: Checked)
    ensures forall offer :: c == Accepted(offer) <==> Sends(reply, incidentId, offer)
    ensures forall reason :: c == Turned(reason) <==> RefusedFor(reply, incidentId, reason)
    ensures c.Accepted? ==> c.offer.providerId == reply.providerId
  {
    match reply.answer
    case CallFailed(aborted) => Turned(if aborted then ResponseTimeout else Unavailable)
    case Replied(body) => ValidateArrival(body, reply.providerId, incidentId)
  }

  // ---- What the race comes to ------------------------------------------------------------------

  predicate HasReplied(replies: seq<Reply>, id: Text) {
    exists i :: 0 <= i < |replies| && replies[i].providerId == id
  }

  /** The last of these replies is the first one of a provider that was asked. */
  predicate Decides(ready: seq<Text>, replies: seq<Reply>)
    requires replies != []
  {
    var id := replies[|replies| - 1].providerId;
    id in ready && !HasReplied(replies[..|replies| - 1], id)
  }

  /** Every provider's first reply, if it is a genuine offer, as an arrival; in the order of arrival. */
  function AcceptedBids(ready: seq<Text>, replies: seq<Reply>, incidentId: Text): seq<Arrival> {
    if replies == [] then []
    else
      var last := replies[|replies| - 1];
      var verdict := Judge(last, incidentId);
      AcceptedBids(ready, replies[..|replies| - 1], incidentId)
      + if Decides(ready, replies) && verdict.Accepted? then [Arrival(verdict.offer, last.atMs)] else []
  }

  /** Every provider's first reply, if it is anything else, as a refusal with its reason. */
  function TurnedDown(ready: seq<Text>, replies: seq<Reply>, incidentId: Text): seq<Refusal> {
    if replies == [] then []
    else
      var last := replies[|replies| - 1];
      var verdict := Judge(last, incidentId);
      TurnedDown(ready, replies[..|replies| - 1], incidentId)
      + if Decides(ready, replies) && verdict.Turned? then [Refusal(last.providerId, verdict.reason)] else []
  }

  function Unanswered(ready: seq<Text>, replies: seq<Reply>): (ids: seq<Text>)
    ensures forall id :: id in ids <==> id in ready && !HasReplied(replies, id)
  {
    if ready == [] then []
    else (if HasReplied(replies, ready[0]) then [] else [ready[0]]) + Unanswered(ready[1..], replies)
  }

  /** The state of the race after these replies. */
  ghost predicate RaceAt(ready: seq<Text>, replies: seq<Reply>, incidentId: Text,
                         pending: seq<Text>, arrivals: seq<Arrival>, turned: seq<Refusal>) {
    && pending == Unanswered(ready, replies) && arrivals == AcceptedBids(ready, replies, incidentId)
    && turned == TurnedDown(ready, replies, incidentId)
  }

  predicate DistinctIds(ids: seq<Text>) {
    forall i, j :: 0 <= i < j < |ids| ==> ids[i] != ids[j]
  }

  lemma {:induction false} NoneReplied(ready: seq<Text>)
    ensures Unanswered(ready, []) == ready
  {
    if ready != [] {
      NoneReplied(ready[1..]);
    }
  }

  lemma RepliedOneMore(replies: seq<Reply>, reply: Reply, id: Text)
    ensures HasReplied(replies + [reply], id) <==> HasReplied(replies, id) || reply.providerId == id
  {
    if HasReplied(replies, id) {
      var i :| 0 <= i < |replies| && replies[i].providerId == id;
      assert (replies + [reply])[i] == replies[i];
    }
    if reply.providerId == id {
      assert (replies + [reply])[|replies|] == reply;
    }
  }

  lemma {:induction false} SameUnanswered(ready: seq<Text>, replies: seq<Reply>, reply: Reply)
    requires reply.providerId !in Unanswered(ready, replies)
    ensures Unanswered(ready, replies + [reply]) == Unanswered(ready, replies)
  {
    if ready != [] {
      RepliedOneMore(replies, reply, ready[0]);
      assert reply.providerId !in Unanswered(ready[1..], replies);
      SameUnanswered(ready[1..], replies, reply);
    }
  }

  lemma WithoutCons(x: Text, ids: seq<Text>, id: Text)
    requires id in ids && x != id
    ensures id in [x] + ids && Without([x] + ids, id) == [x] + Without(ids, id)
  {
    assert ([x] + ids)[1..] == ids;
  }

  lemma {:induction false} OneAnswered(ready: seq<Text>, replies: seq<Reply>, reply: Reply)
    requires DistinctIds(ready) && reply.providerId in Unanswered(ready, replies)
    ensures Unanswered(ready, replies + [reply]) == Without(Unanswered(ready, replies), reply.providerId)
  {
    var rest := Unanswered(ready[1..], replies);
    RepliedOneMore(replies, reply, ready[0]);
    if ready[0] == reply.providerId {
      SameUnanswered(ready[1..], replies, reply);
      assert Unanswered(ready, replies) == [ready[0]] + rest;
      assert ([ready[0]] + rest)[1..] == rest;
    } else {
      OneAnswered(ready[1..], replies, reply);
      if !HasReplied(replies, ready[0]) {
        WithoutCons(ready[0], rest, reply.providerId);
      } else {
        assert [] + rest == rest;
      }
    }
  }

  lemma BidsOneMore(ready: seq<Text>, replies: seq<Reply>, reply: Reply, incidentId: Text)
    ensures var decides := reply.providerId in ready && !HasReplied(replies, reply.providerId);
            var verdict := Judge(reply, incidentId);
            && AcceptedBids(ready, replies + [reply], incidentId) == AcceptedBids(ready, replies, incidentId)
                 + (if decides && verdict.Accepted? then [Arrival(verdict.offer, reply.atMs)] else [])
            && TurnedDown(ready, replies + [reply], incidentId) == TurnedDown(ready, replies, incidentId)
                 + (if decides && verdict.Turned? then [Refusal(reply.providerId, verdict.reason)] else [])
  {
    assert (replies + [reply])[..|replies|] == replies;
  }

  /** A reply of a provider that is not waited for any more changes nothing. */
  lemma RaceIgnores(ready: seq<Text>, replies: seq<Reply>, reply: Reply, incidentId: Text,
                    pending: seq<Text>, arrivals: seq<Arrival>, turned: seq<Refusal>)
    requires RaceAt(ready, replies, incidentId, pending, arrivals, turned) && reply.providerId !in pending
    ensures RaceAt(ready, replies + [reply], incidentId, pending, arrivals, turned)
  {
    SameUnanswered(ready, replies, reply);
    BidsOneMore(ready, replies, reply, incidentId);
  }

  lemma RaceTakes(ready: seq<Text>, replies: seq<Reply>, reply: Reply, incidentId: Text,
                  pending: seq<Text>, arrivals: seq<Arrival>, turned: seq<Refusal>)
    requires DistinctIds(ready) && RaceAt(ready, replies, incidentId, pending, arrivals, turned) && reply.providerId in pending
    ensures var left, verdict := Without(pending, reply.providerId), Judge(reply, incidentId);
            match verdict
            case Accepted(offer) => RaceAt(ready, replies + [reply], incidentId, left, arrivals + [Arrival(offer, reply.atMs)], turned)
            case Turned(reason) => RaceAt(ready, replies + [reply], incidentId, left, arrivals, turned + [Refusal(reply.providerId, reason)])
  {
    OneAnswered(ready, replies, reply);
    BidsOneMore(ready, replies, reply, incidentId);
  }

  lemma {:induction false} RaceIsOver(ready: seq<Text>, replies: seq<Reply>, more: seq<Reply>, incidentId: Text,
                                      arrivals: seq<Arrival>, turned: seq<Refusal>)
    requires RaceAt(ready, replies, incidentId, [], arrivals, turned)
    ensures RaceAt(ready, replies + more, incidentId, [], arrivals, turned)
  {
    if more == [] {
      assert replies + more == replies;
    } else {
      var n := |more| - 1;
      RaceIsOver(ready, replies, more[..n], incidentId, arrivals, turned);
      RaceIgnores(ready, replies + more[..n], more[n], incidentId, [], arrivals, turned);
      assert replies + more[..n] + [more[n]] == replies + more;
    }
  }

  /** The bid race: replies are taken as they settle; a provider that has settled is not waited for again, and
      the race ends when none is pending or the deadline wins. Each provider's first reply decides: a genuine offer
      arrives, anything else is refused for its reason, and who has not replied is still pending. */
  method BidRace(ready: seq<Text>, replies: seq<Reply>, incidentId: Text, before: seq<Refusal>)
    returns (pending: seq<Text>, arrivals: seq<Arrival>, rejected: seq<Refusal>)
    ensures Accounted(pending, arrivals, rejected, multiset(ready) + multiset(Refused(before)))
    ensures before <= rejected
    ensures forall a :: a in arrivals ==> a.offer.providerId in ready && Genuine(a, replies, incidentId)
    ensures DistinctIds(ready) ==> RaceAt(ready, replies, incidentId, pending, arrivals, rejected[|before|..])
  {
    pending, arrivals, rejected := ready, [], before;
    assert Ids(arrivals) == [];
    NoneReplied(ready);
    var i := 0;
    assert replies[..0] == [] && rejected[|before|..] == [];
    while |pending| > 0 && i < |replies|
      invariant i <= |replies|
      invariant Accounted(pending, arrivals, rejected, multiset(ready) + multiset(Refused(before)))
      invariant before <= rejected
      invariant forall id :: id in pending ==> id in ready
      invariant forall a :: a in arrivals ==> a.offer.providerId in ready && Genuine(a, replies, incidentId)
      invariant DistinctIds(ready) ==> RaceAt(ready, replies[..i], incidentId, pending, arrivals, rejected[|before|..])
      decreases |replies| - i
    {
      pending, arrivals, rejected := TakeReply(ready, replies, i, incidentId, before, pending, arrivals, rejected);
      i := i + 1;
    }
    if DistinctIds(ready) && pending == [] {
      RaceIsOver(ready, replies[..i], replies[i..], incidentId, arrivals, rejected[|before|..]);
    }
    assert replies[..i] + replies[i..] == replies;
    assert i == |replies| ==> replies[..i] == replies;
  }

  /** One call settles. */
  method TakeReply(ghost ready: seq<Text>, replies: seq<Reply>, i: nat, incidentId: Text, ghost before: seq<Refusal>,
                   pending: seq<Text>, arrivals: seq<Arrival>, rejected: seq<Refusal>)
    returns (left: seq<Text>, arrived: seq<Arrival>, refused: seq<Refusal>)
    requires i < |replies| && before <= rejected
    requires Accounted(pending, arrivals, rejected, multiset(ready) + multiset(Refused(before)))
    requires forall id :: id in pending ==> id in ready
    requires forall a :: a in arrivals ==> a.offer.providerId in ready && Genuine(a, replies, incidentId)
    requires DistinctIds(ready) ==> RaceAt(ready, replies[..i], incidentId, pending, arrivals, rejected[|before|..])
    ensures Accounted(left, arrived, refused, multiset(ready) + multiset(Refused(before)))
    ensures before <= refused
    ensures forall id :: id in left ==> id in ready
    ensures forall a :: a in arrived ==> a.offer.providerId in ready && Genuine(a, replies, incidentId)
    ensures DistinctIds(ready) ==> RaceAt(ready, replies[..i + 1], incidentId, left, arrived, refused[|before|..])
  {
    var reply := replies[i];
    left, arrived, refused := pending, arrivals, rejected;
    assert replies[..i + 1] == replies[..i] + [reply];
    if reply.providerId !in pending {
      if DistinctIds(ready) {
        RaceIgnores(ready, replies[..i], reply, incidentId, pending, arrivals, rejected[|before|..]);
      }
      return;
    }
    if DistinctIds(ready) {
      RaceTakes(ready, replies[..i], reply, incidentId, pending, arrivals, rejected[|before|..]);
    }
    left := Without(pending, reply.providerId);
    StillPending(pending, reply.providerId);
    var verdict := Judge(reply, incidentId);
    match verdict {
      case Accepted(offer) =>
        assert reply in replies;
        assert Genuine(Arrival(offer, reply.atMs), replies, incidentId);
        IdsOneMore(arrivals, Arrival(offer, reply.atMs));
        arrived := arrivals + [Arrival(offer, reply.atMs)];
      case Turned(reason) =>
        RefusedOneMore(rejected, Refusal(reply.providerId, reason));
        refused := rejected + [Refusal(reply.providerId, reason)];
        assert refused[|before|..] == rejected[|before|..] + [Refusal(reply.providerId, reason)];
    }
  }

  lemma StillPending(ids: seq<Text>, id: Text)
    requires id in ids
    ensures forall x :: x in Without(ids, id) ==> x in ids
  {
    forall x | x in Without(ids, id) ensures x in ids {
      assert x in multiset(Without(ids, id));
      assert x in multiset(ids);
    }
  }

  /** No reply of this provider comes before the k-th. */
  predicate FirstReply(replies: seq<Reply>, k: nat) {
    k < |replies| && forall j :: 0 <= j < k ==> replies[j].providerId != replies[k].providerId
  }

  /** An in-time genuine offer of a ready provider arrives, and any other in-time reply is refused with its reason. */
  lemma {:induction false} FirstRepliesDecide(ready: seq<Text>, replies: seq<Reply>, k: nat, incidentId: Text)
    requires FirstReply(replies, k) && replies[k].providerId in ready
    ensures forall offer :: Sends(replies[k], incidentId, offer) ==>
              Arrival(offer, replies[k].atMs) in AcceptedBids(ready, replies, incidentId)
    ensures forall reason :: RefusedFor(replies[k], incidentId, reason) ==>
              Refusal(replies[k].providerId, reason) in TurnedDown(ready, replies, incidentId)
  {
    var n := |replies| - 1;
    if k < n {
      FirstRepliesDecide(ready, replies[..n], k, incidentId);
    } else {
      assert !HasReplied(replies[..n], replies[k].providerId);
      LastReplyDecides(ready, replies, incidentId);
    }
  }

  lemma LastReplyDecides(ready: seq<Text>, replies: seq<Reply>, incidentId: Text)
    requires replies != [] && Decides(ready, replies)
    ensures var last := replies[|replies| - 1];
            && (forall offer :: Sends(last, incidentId, offer) ==> Arrival(offer, last.atMs) in AcceptedBids(ready, replies, incidentId))
            && (forall reason :: RefusedFor(last, incidentId, reason) ==>
                  Refusal(last.providerId, reason) in TurnedDown(ready, replies, incidentId))
  {
    var last := replies[|replies| - 1];
    var c := Judge(last, incidentId);
    if c.Accepted? {
      assert Sends(last, incidentId, c.offer);
    } else {
      assert RefusedFor(last, incidentId, c.reason);
    }
  }

  /** And every arrival is such a reply. */
  lemma {:induction false} ArrivalsAreFirstReplies(ready: seq<Text>, replies: seq<Reply>, incidentId: Text, a: Arrival) returns (k: nat)
    requires a in AcceptedBids(ready, replies, incidentId)
    ensures FirstReply(replies, k) && replies[k].providerId in ready
    ensures Sends(replies[k], incidentId, a.offer) && a.receivedAtMs == replies[k].atMs
  {
    var n := |replies| - 1;
    if a in AcceptedBids(ready, replies[..n], incidentId) {
      k := ArrivalsAreFirstReplies(ready, replies[..n], incidentId, a);
    } else {
      k := n;
      assert Judge(replies[n], incidentId) == Accepted(a.offer);
      assert !HasReplied(replies[..n], replies[n].providerId);
      assert forall j :: 0 <= j < n ==> replies[..n][j].providerId != replies[n].providerId;
    }
  }

  /** Every refusal of the race is a first reply with that fault. */
  lemma {:induction false} RefusalsAreFirstReplies(ready: seq<Text>, replies: seq<Reply>, incidentId: Text, r: Refusal) returns (k: nat)
    requires r in TurnedDown(ready, replies, incidentId)
    ensures FirstReply(replies, k) && replies[k].providerId in ready
    ensures RefusedFor(replies[k], incidentId, r.reason) && r.providerId == replies[k].providerId
  {
    var n := |replies| - 1;
    if r in TurnedDown(ready, replies[..n], incidentId) {
      k := RefusalsAreFirstReplies(ready, replies[..n], incidentId, r);
    } else {
      k := n;
      assert Judge(replies[n], incidentId) == Turned(r.reason);
      assert !HasReplied(replies[..n], replies[n].providerId);
      assert forall j :: 0 <= j < n ==> replies[..n][j].providerId != replies[n].providerId;
    }
  }

  function Missed(pending: seq<Text>): (rejected: seq<Refusal>)
    ensures |rejected| == |pending| && forall i :: 0 <= i < |pending| ==> rejected[i] == Refusal(pending[i], ResponseTimeout)
  {
    seq(|pending|, i requires 0 <= i < |pending| => Refusal(pending[i], ResponseTimeout))
  }

  /** Whoever is still pending at the deadline has missed it. */
  method StopStragglers(pending: seq<Text>, before: seq<Refusal>) returns (rejected: seq<Refusal>)
    ensures multiset(Refused(rejected)) == multiset(pending) + multiset(Refused(before))
    ensures rejected == before + Missed(pending)
  {
    rejected := before;
    var i := 0;
    while i < |pending|
      invariant i <= |pending| && rejected == before + Missed(pending[..i])
      invariant multiset(Refused(rejected)) == multiset(pending[..i]) + multiset(Refused(before))
    {
      assert pending[..i + 1] == pending[..i] + [pending[i]];
      assert Missed(pending[..i + 1]) == Missed(pending[..i]) + [Refusal(pending[i], ResponseTimeout)];
      RefusedOneMore(rejected, Refusal(pending[i], ResponseTimeout));
      rejected := rejected + [Refusal(pending[i], ResponseTimeout)];
      i := i + 1;
    }
    assert pending[..i] == pending;
  }

  /** The first requirement that an offer fails, as a refusal. */
  function Unviable(a: Arrival, request: Request): Refusal
    requires !Meets(a.offer, request)
  {
    Refusal(a.offer.providerId, NotViable(Reasons(a.offer, request)[0]))
  }

  function AllUnviable(entries: seq<Arrival>, request: Request): (rejected: seq<Refusal>)
    requires forall i :: 0 <= i < |entries| ==> !Meets(entries[i].offer, request)
    ensures |rejected| == |entries| && forall i :: 0 <= i < |entries| ==> rejected[i] == Unviable(entries[i], request)
  {
    seq(|entries|, i requires 0 <= i < |entries| => Unviable(entries[i], request))
  }

  /** The offers that are not viable, each with the first requirement it fails. */
  method RejectNonViable(entries: seq<Arrival>, request: Request, before: seq<Refusal>) returns (rejected: seq<Refusal>)
    requires forall i :: 0 <= i < |entries| ==> !Meets(entries[i].offer, request)
    ensures Refused(rejected) == Refused(before) + Ids(entries)
    ensures rejected == before + AllUnviable(entries, request)
  {
    rejected := before;
    var i := 0;
    while i < |entries|
      invariant i <= |entries| && rejected == before + AllUnviable(entries[..i], request)
      invariant Refused(rejected) == Refused(before) + Ids(entries[..i])
    {
      assert entries[..i + 1] == entries[..i] + [entries[i]];
      var viable, reasons := EvaluateOffer(entries[i].offer, request);
      assert AllUnviable(entries[..i + 1], request) == AllUnviable(entries[..i], request) + [Unviable(entries[i], request)];
      RefusedOneMore(rejected, Refusal(entries[i].offer.providerId, NotViable(reasons[0])));
      IdsOneMore(entries[..i], entries[i]);
      rejected := rejected + [Refusal(entries[i].offer.providerId, NotViable(reasons[0]))];
      i := i + 1;
    }
    assert entries[..i] == entries;
  }

  // ---- Nonces ------------------------------------------------------------------------------

  /** `incident:provider:sequence`, the sequence padded to three digits. */
  function Nonce(incidentId: Text, providerId: Text, attempt: nat): Text {
    incidentId + [COLON] + providerId + [COLON] + PadStart(NatText(attempt), 3)
  }

  predicate ColonFree(t: Text) {
    forall i :: 0 <= i < |t| ==> t[i] != COLON
  }

  /** What follows the last colon, and what precedes it, are determined by the whole. */
  lemma LastColon(a: Text, x: Text, b: Text, y: Text)
    requires a + [COLON] + x == b + [COLON] + y && ColonFree(x) && ColonFree(y)
    ensures a == b && x == y
  {
    var t := a + [COLON] + x;
    assert t[|a|] == COLON && t == b + [COLON] + y && t[|b|] == COLON;
    assert forall i :: |a| < i < |t| ==> t[i] == x[i - |a| - 1];
    assert forall i :: |b| < i < |t| ==> t[i] == y[i - |b| - 1];
    assert |a| == |b|;
    assert a == t[..|a|] && b == t[..|b|] && x == t[|a| + 1..] && y == t[|b| + 1..];
  }

  /** What precedes the first colon, and what follows it, are determined by the whole. */
  lemma FirstColon(a: Text, x: Text, b: Text, y: Text)
    requires a + [COLON] + x == b + [COLON] + y && ColonFree(a) && ColonFree(b)
    ensures a == b && x == y
  {
    var t := a + [COLON] + x;
    assert t[|a|] == COLON && t == b + [COLON] + y && t[|b|] == COLON;
    assert forall i :: 0 <= i < |a| ==> t[i] == a[i];
    assert forall i :: 0 <= i < |b| ==> t[i] == b[i];
    assert |a| == |b|;
    assert a == t[..|a|] && b == t[..|b|] && x == t[|a| + 1..] && y == t[|b| + 1..];
  }

  lemma PaddedIsColonFree(n: nat, width: nat)
    ensures ColonFree(PadStart(NatText(n), width))
  {
    var t := NatText(n);
    assert forall i :: 0 <= i < |t| ==> IsDigit(t[i]);
  }

  /** Within one incident two attempts share a nonce only if they are the same attempt at the same provider. */
  lemma NonceFixesAttempt(incidentId: Text, p: Text, m: nat, q: Text, n: nat)
    requires Nonce(incidentId, p, m) == Nonce(incidentId, q, n)
    ensures p == q && m == n
  {
    PaddedIsColonFree(m, 3);
    PaddedIsColonFree(n, 3);
    LastColon(incidentId + [COLON] + p, PadStart(NatText(m), 3), incidentId + [COLON] + q, PadStart(NatText(n), 3));
    assert p == (incidentId + [COLON] + p)[|incidentId| + 1..];
    assert q == (incidentId + [COLON] + q)[|incidentId| + 1..];
    PadStartInjective(m, n, 3);
  }

  /** Across incidents the nonce fixes all three parts, as long as incident ids hold no colon. */
  lemma NonceIsInjective(i: Text, p: Text, m: nat, j: Text, q: Text, n: nat)
    requires ColonFree(i) && ColonFree(j) && Nonce(i, p, m) == Nonce(j, q, n)
    ensures i == j && p == q && m == n
  {
    PaddedIsColonFree(m, 3);
    PaddedIsColonFree(n, 3);
    LastColon(i + [COLON] + p, PadStart(NatText(m), 3), j + [COLON] + q, PadStart(NatText(n), 3));
    FirstColon(i, p, j, q);
    PadStartInjective(m, n, 3);
  }

  /** With a colon in an incident id two incidents can share a nonce. */
  lemma ColonsCollide()
    ensures Nonce(Ascii("A:B"), Ascii("C"), 1) == Nonce(Ascii("A"), Ascii("B:C"), 1)
  {
    assert Ascii("A:B") + [COLON] + Ascii("C") == Ascii("A") + [COLON] + Ascii("B:C");
  }

  // ---- The activation walk ---------------------------------------------------------------------

  /** `Broken`: building the signed result threw. */
  datatype Walk =
    | Activated(winner: Arrival, attempt: nat, nonce: Text, rejected: seq<Refusal>)
    | AllFailed
    | Broken

  function NeverAttempted(entries: seq<Arrival>, first: Arrival, emergency: bool): seq<Refusal> {
    seq(|entries|, i requires 0 <= i < |entries| =>
      Refusal(entries[i].offer.providerId,
              if emergency && entries[i].receivedAtMs > first.receivedAtMs then Superseded else Outranked))
  }

  lemma WhyAttemptFailed(entries: seq<Arrival>, i: nat)
    requires i < |entries|
    ensures FailedAttempts(entries)[i].providerId == entries[i].offer.providerId
    ensures FailedAttempts(entries)[i].reason == ActivationFailed
  {}

  /** A candidate behind the winner lost the race, in an emergency, if it arrived after the first; otherwise it was
      outranked. */
  lemma WhyNeverAttempted(entries: seq<Arrival>, first: Arrival, emergency: bool, i: nat)
    requires i < |entries|
    ensures var r := NeverAttempted(entries, first, emergency)[i];
            && r.providerId == entries[i].offer.providerId
            && (r.reason == Superseded <==> emergency && first.receivedAtMs < entries[i].receivedAtMs)
            && (r.reason == Outranked <==> !emergency || entries[i].receivedAtMs <= first.receivedAtMs)
  {}

  function FailedAttempts(entries: seq<Arrival>): seq<Refusal> {
    seq(|entries|, i requires 0 <= i < |entries| => Refusal(entries[i].offer.providerId, ActivationFailed))
  }

  /** Attempt `k` is the first, of at most `n`, that reports AVAILABLE. */
  ghost predicate FirstAvailable(available: nat -> bool, n: nat, k: nat) {
    1 <= k <= n && available(k) && forall j :: 1 <= j < k ==> !available(j)
  }

  ghost predicate SoundAt(ordered: seq<Arrival>, incidentId: Text, sound: (Arrival, Text) -> bool, k: nat)
    requires 1 <= k <= |ordered|
  {
    sound(ordered[k - 1], Nonce(incidentId, ordered[k - 1].offer.providerId, k))
  }

  /** `available(k)` tells whether attempt k reports AVAILABLE, `sound` whether the built result passes its schema.
      Candidates are tried strictly in order, each once, up to the first that is available. */
  method ActivateRanked(ordered: seq<Arrival>, incidentId: Text, emergency: bool, before: seq<Refusal>,
                        available: nat -> bool, sound: (Arrival, Text) -> bool)
    returns (walk: Walk, attempted: seq<Text>)
    ensures attempted <= Ids(ordered)
    ensures forall k :: 1 <= k < |attempted| ==> !available(k)
    ensures walk.AllFailed? <==> forall k :: 1 <= k <= |ordered| ==> !available(k)
    ensures walk.AllFailed? ==> attempted == Ids(ordered)
    ensures !walk.AllFailed? ==> FirstAvailable(available, |ordered|, |attempted|)
    ensures !walk.AllFailed? ==> (walk.Activated? <==> SoundAt(ordered, incidentId, sound, |attempted|))
    ensures walk.Activated? ==>
      && walk.attempt == |attempted| && walk.winner == ordered[walk.attempt - 1]
      && walk.nonce == Nonce(incidentId, walk.winner.offer.providerId, walk.attempt)
      && walk.rejected == before + FailedAttempts(ordered[..walk.attempt - 1])
                          + NeverAttempted(ordered[walk.attempt..], ordered[0], emergency)
      && Refused(walk.rejected) == Refused(before) + Ids(ordered[..walk.attempt - 1]) + Ids(ordered[walk.attempt..])
  {
    var rejected := before;
    attempted := [];
    assert Ids(ordered[..0]) == [] && FailedAttempts(ordered[..0]) == [];
    var attempt := 1;
    while attempt <= |ordered|
      invariant 1 <= attempt <= |ordered| + 1
      invariant attempted == Ids(ordered)[..attempt - 1]
      invariant forall k :: 1 <= k < attempt ==> !available(k)
      invariant rejected == before + FailedAttempts(ordered[..attempt - 1])
    {
      var candidate := ordered[attempt - 1];
      var nonce := Nonce(incidentId, candidate.offer.providerId, attempt);
      AttemptOneMore(ordered, attempt - 1);
      attempted := attempted + [candidate.offer.providerId];
      if available(attempt) {
        if !sound(candidate, nonce) {
          return Broken, attempted;
        }
        var never := NeverAttempted(ordered[attempt..], ordered[0], emergency);
        WalkRefuses(before, ordered[..attempt - 1], ordered[attempt..], ordered[0], emergency);
        return Activated(candidate, attempt, nonce, rejected + never), attempted;
      }
      rejected := rejected + [Refusal(candidate.offer.providerId, ActivationFailed)];
      attempt := attempt + 1;
    }
    return AllFailed, attempted;
  }

  lemma AttemptOneMore(ordered: seq<Arrival>, k: nat)
    requires k < |ordered|
    ensures Ids(ordered)[..k + 1] == Ids(ordered)[..k] + [ordered[k].offer.providerId]
    ensures FailedAttempts(ordered[..k + 1]) == FailedAttempts(ordered[..k]) + [Refusal(ordered[k].offer.providerId, ActivationFailed)]
  {}

  lemma WalkRefuses(before: seq<Refusal>, failed: seq<Arrival>, rest: seq<Arrival>, first: Arrival, emergency: bool)
    ensures Refused(before + FailedAttempts(failed) + NeverAttempted(rest, first, emergency)) == Refused(before) + Ids(failed) + Ids(rest)
  {}

  // ---- The whole recovery ------------------------------------------------------------------------

  datatype Envelope =
    | NoRecoveryNeeded
    | NoViableOffer(rejected: seq<Refusal>)
    | Selected(winner: Arrival, attempt: nat, nonce: Text, rejected: seq<Refusal>)

  datatype Outcome = Returned(envelope: Envelope) | Threw

  /** `byProvider.get` for each id of a ranking. */
  function ByIds(ranking: seq<Text>, entries: seq<Arrival>): (r: seq<Arrival>)
    requires forall id :: id in ranking ==> id in Ids(entries)
    ensures Ids(r) == ranking
    ensures forall a :: a in r ==> a in entries
  {
    if ranking == [] then []
    else
      var id := ranking[0];
      assert id in Ids(entries);
      var entry := EntryOf(id, entries);
      assert Ids([entry] + ByIds(ranking[1..], entries)) == [entry.offer.providerId] + Ids(ByIds(ranking[1..], entries));
      [entry] + ByIds(ranking[1..], entries)
  }

  function EntryOf(id: Text, entries: seq<Arrival>): (a: Arrival)
    requires id in Ids(entries)
    ensures a in entries && a.offer.providerId == id
  {
    var last := entries[|entries| - 1];
    if last.offer.providerId == id then last
    else
      assert id in Ids(entries[..|entries| - 1]) by {
        var i :| 0 <= i < |entries| && Ids(entries)[i] == id;
        assert Ids(entries[..|entries| - 1])[i] == id;
      }
      EntryOf(id, entries[..|entries| - 1])
  }

  /** The order the walk follows: the consensus ranking in normal mode, when there is one. */
  function WalkOrder(deterministic: seq<Arrival>, emergency: bool, consensus: Option<seq<Text>>): (ordered: seq<Arrival>)
    requires consensus.Some? ==> forall id :: id in consensus.value ==> id in Ids(deterministic)
    ensures emergency || |deterministic| < 2 || consensus.None? ==> ordered == deterministic
    ensures !emergency && |deterministic| >= 2 && consensus.Some? ==> Ids(ordered) == consensus.value
  {
    if !emergency && |deterministic| >= 2 && consensus.Some? then ByIds(consensus.value, deterministic) else deterministic
  }

  lemma SameMembers(ranking: seq<Text>, ids: seq<Text>)
    requires multiset(ranking) == multiset(ids)
    ensures forall id :: id in ranking ==> id in ids
  {
    forall id | id in ranking ensures id in ids {
      assert id in multiset(ranking);
    }
  }

  method RankedOrder(deterministic: seq<Arrival>, emergency: bool, consensus: Option<seq<Text>>) returns (ordered: seq<Arrival>)
    requires consensus.Some? ==> multiset(consensus.value) == multiset(Ids(deterministic))
    ensures multiset(Ids(ordered)) == multiset(Ids(deterministic))
    ensures forall a :: a in ordered ==> a in deterministic
    ensures consensus.Some? ==> forall id :: id in consensus.value ==> id in Ids(deterministic)
    ensures ordered == WalkOrder(deterministic, emergency, consensus)
  {
    if consensus.Some? {
      SameMembers(consensus.value, Ids(deterministic));
    }
    if !emergency && |deterministic| >= 2 && consensus.Some? {
      return ByIds(consensus.value, deterministic);
    }
    return deterministic;
  }

  /** Arrivals whose providers are configured, sorted into what the walk may try and what was turned down. */
  ghost predicate Partition(ordered: seq<Arrival>, rejected: seq<Refusal>, providers: seq<Text>) {
    multiset(Ids(ordered)) + multiset(Refused(rejected)) == multiset(providers)
  }

  /** The genuine in-time offers of the healthy providers. */
  function Bids(providers: seq<Text>, healthy: Text -> bool, replies: seq<Reply>, incidentId: Text): seq<Arrival> {
    AcceptedBids(Ready(providers, healthy), replies, incidentId)
  }

  /** Everybody else, each with the reason: unhealthy, turned down, late, or not viable. */
  function TurnedAway(providers: seq<Text>, healthy: Text -> bool, replies: seq<Reply>, request: Request, incidentId: Text): seq<Refusal> {
    NotArrived(providers, healthy, replies, incidentId)
    + AllUnviable(NonViable(Bids(providers, healthy, replies, incidentId), request), request)
  }

  lemma {:induction false} ReadyStaysDistinct(providers: seq<Text>, healthy: Text -> bool)
    requires DistinctIds(providers)
    ensures DistinctIds(Ready(providers, healthy))
  {
    if providers != [] {
      var n := |providers| - 1;
      ReadyStaysDistinct(providers[..n], healthy);
      forall i | 0 <= i < |Ready(providers[..n], healthy)| ensures Ready(providers[..n], healthy)[i] != providers[n] {
        GateIsByHealth(providers[..n], healthy, Ready(providers[..n], healthy)[i]);
      }
    }
  }

  lemma ViabilitySplits(arrivals: seq<Arrival>, request: Request, missed: seq<Refusal>, rejected: seq<Refusal>, providers: seq<Text>)
    requires multiset(Ids(arrivals)) + multiset(Refused(missed)) == multiset(providers)
    requires Refused(rejected) == Refused(missed) + Ids(NonViable(arrivals, request))
    ensures Partition(Ordered(arrivals, request), rejected, providers)
  {
    var order, rest := Ordered(arrivals, request), NonViable(arrivals, request);
    OrderedSplits(arrivals, request);
    SameIds(order + rest, arrivals);
    IdsConcat(order, rest);
  }

  /** Everybody whose offer did not arrive, each with the reason: unhealthy, turned down or late. */
  function NotArrived(providers: seq<Text>, healthy: Text -> bool, replies: seq<Reply>, incidentId: Text): seq<Refusal> {
    var ready := Ready(providers, healthy);
    Unready(providers, healthy) + TurnedDown(ready, replies, incidentId) + Missed(Unanswered(ready, replies))
  }

  lemma GatheredAll(providers: seq<Text>, healthy: Text -> bool, replies: seq<Reply>, incidentId: Text,
                    pending: seq<Text>, arrivals: seq<Arrival>, turned: seq<Refusal>)
    requires RaceAt(Ready(providers, healthy), replies, incidentId, pending, arrivals, turned)
    ensures arrivals == Bids(providers, healthy, replies, incidentId)
    ensures Unready(providers, healthy) + turned + Missed(pending) == NotArrived(providers, healthy, replies, incidentId)
  {}

  lemma ReadyAreProviders(providers: seq<Text>, healthy: Text -> bool)
    ensures forall id :: id in Ready(providers, healthy) ==> id in providers
  {
    forall id | id in Ready(providers, healthy) ensures id in providers {
      GateIsByHealth(providers, healthy, id);
    }
  }

  /** The refusals of a race that started with these. */
  lemma AfterBefore(before: seq<Refusal>, all: seq<Refusal>)
    requires before <= all
    ensures all == before + all[|before|..]
  {}

  /** Gate, race and stragglers. */
  method Gather(providers: seq<Text>, healthy: Text -> bool, replies: seq<Reply>, incidentId: Text)
    returns (arrivals: seq<Arrival>, rejected: seq<Refusal>)
    ensures multiset(Ids(arrivals)) + multiset(Refused(rejected)) == multiset(providers)
    ensures forall a :: a in arrivals ==> a.offer.providerId in providers
    ensures DistinctIds(providers) ==>
      arrivals == Bids(providers, healthy, replies, incidentId) && rejected == NotArrived(providers, healthy, replies, incidentId)
  {
    var ready, unready := HealthGate(providers, healthy);
    ReadyAreProviders(providers, healthy);
    var pending, turned;
    pending, arrivals, turned := BidRace(ready, replies, incidentId, unready);
    rejected := StopStragglers(pending, turned);
    AfterBefore(unready, turned);
    if DistinctIds(providers) {
      ReadyStaysDistinct(providers, healthy);
      GatheredAll(providers, healthy, replies, incidentId, pending, arrivals, turned[|unready|..]);
    }
  }

  /** Gate, race, stragglers and viability filter. */
  method Collect(providers: seq<Text>, healthy: Text -> bool, replies: seq<Reply>, request: Request, incidentId: Text)
    returns (order: seq<Arrival>, rejected: seq<Refusal>)
    ensures Partition(order, rejected, providers)
    ensures forall a :: a in order ==> Meets(a.offer, request) && a.offer.providerId in providers
    ensures exists arrivals :: order == Ordered(arrivals, request)
    ensures DistinctIds(providers) ==>
      && order == Ordered(Bids(providers, healthy, replies, incidentId), request)
      && rejected == TurnedAway(providers, healthy, replies, request, incidentId)
  {
    var arrivals, missed := Gather(providers, healthy, replies, incidentId);
    rejected := RejectNonViable(NonViable(arrivals, request), request, missed);
    order := Ordered(arrivals, request);
    OrderedSplits(arrivals, request);
    ViabilitySplits(arrivals, request, missed, rejected, providers);
  }

  /** A SELECTED envelope: the winner is viable and within budget, and winner and rejections name every provider
      exactly once. */
  ghost predicate SelectedRight(e: Envelope, request: Request, incidentId: Text, providers: seq<Text>)
    requires e.Selected?
  {
    && multiset{e.winner.offer.providerId} + multiset(Refused(e.rejected)) == multiset(providers)
    && Meets(e.winner.offer, request) && e.winner.offer.price <= request.maxBudget
    && e.winner.offer.providerId in providers
    && e.nonce == Nonce(incidentId, e.winner.offer.providerId, e.attempt)
  }

  /** What the walk along these candidates must end in: the first available one, if its result builds; an exception if
      it does not; and no viable offer when none is available. */
  ghost predicate WalkedRight(outcome: Outcome, attempted: seq<Text>, ordered: seq<Arrival>, rejected: seq<Refusal>,
                              request: Request, incidentId: Text, available: nat -> bool, sound: (Arrival, Text) -> bool) {
    && attempted <= Ids(ordered)
    && (outcome == Returned(NoViableOffer(rejected)) && attempted == Ids(ordered)
        <==> forall k :: 1 <= k <= |ordered| ==> !available(k))
    && ((exists k :: 1 <= k <= |ordered| && available(k)) ==>
          && FirstAvailable(available, |ordered|, |attempted|)
          && (outcome.Threw? <==> !SoundAt(ordered, incidentId, sound, |attempted|))
          && (outcome.Returned? ==> SelectedAt(outcome.envelope, |attempted|, ordered, rejected, request, incidentId)))
  }

  /** The k-th candidate is the winner; those before it failed, those behind it were never tried. */
  ghost predicate SelectedAt(e: Envelope, k: nat, ordered: seq<Arrival>, rejected: seq<Refusal>, request: Request, incidentId: Text)
    requires 1 <= k <= |ordered|
  {
    e == Selected(ordered[k - 1], k, Nonce(incidentId, ordered[k - 1].offer.providerId, k),
                  rejected + FailedAttempts(ordered[..k - 1]) + NeverAttempted(ordered[k..], ordered[0], request.emergencyOverride))
  }

  /** From the ranked order to the envelope. */
  method Activate(ordered: seq<Arrival>, rejected: seq<Refusal>, ghost providers: seq<Text>, request: Request, incidentId: Text,
                  available: nat -> bool, sound: (Arrival, Text) -> bool)
    returns (outcome: Outcome, attempted: seq<Text>)
    requires Partition(ordered, rejected, providers)
    requires forall a :: a in ordered ==> Meets(a.offer, request) && a.offer.providerId in providers
    ensures forall k :: 1 <= k < |attempted| ==> !available(k)
    ensures outcome.Threw? ==> attempted != [] && available(|attempted|)
    ensures outcome.Returned? ==> !outcome.envelope.NoRecoveryNeeded?
    ensures outcome.Returned? && outcome.envelope.Selected? ==>
      && SelectedRight(outcome.envelope, request, incidentId, providers)
      && outcome.envelope.attempt == |attempted| && attempted != [] && available(|attempted|)
    ensures outcome.Returned? && outcome.envelope.NoViableOffer? ==>
      && multiset(attempted) + multiset(Refused(outcome.envelope.rejected)) == multiset(providers)
      && outcome.envelope.rejected == rejected && attempted == Ids(ordered) && (|attempted| > 0 ==> !available(|attempted|))
    ensures WalkedRight(outcome, attempted, ordered, rejected, request, incidentId, available, sound)
  {
    var walk;
    walk, attempted := ActivateRanked(ordered, incidentId, request.emergencyOverride, rejected, available, sound);
    match walk {
      case Broken => outcome := Threw;
      case AllFailed => outcome := Returned(NoViableOffer(rejected));
      case Activated(winner, attempt, nonce, out) =>
        SplitAround(ordered, attempt);
        assert winner in ordered;
        outcome := Returned(Selected(winner, attempt, nonce, out));
    }
  }

  /** `runRecovery`. The walk goes along the viable offers of exactly the genuine in-time replies, in the deterministic
      or the consensus order; the first available candidate is selected if its result builds. A SELECTED envelope
      names every configured provider exactly once, and so does every NO_VIABLE_OFFER envelope returned before
      activation (nothing attempted); when every activation failed, the envelope misses exactly the providers that
      were attempted. It throws only when the result of an available activation could not be built. */
  method RunRecovery(providers: seq<Text>, needed: bool, healthy: Text -> bool, replies: seq<Reply>, request: Request,
                     incidentId: Text, consensus: seq<Arrival> -> Option<seq<Text>>,
                     available: nat -> bool, sound: (Arrival, Text) -> bool)
    returns (outcome: Outcome, attempted: seq<Text>)
    requires forall order: seq<Arrival> :: consensus(order).Some? ==> multiset(consensus(order).value) == multiset(Ids(order))
    ensures forall k :: 1 <= k < |attempted| ==> !available(k)
    ensures outcome == Returned(NoRecoveryNeeded) <==> !needed
    ensures outcome.Threw? ==> attempted != [] && available(|attempted|)
    ensures outcome.Returned? && outcome.envelope.Selected? ==>
      && SelectedRight(outcome.envelope, request, incidentId, providers)
      && outcome.envelope.attempt == |attempted| && attempted != [] && available(|attempted|)
    ensures outcome.Returned? && outcome.envelope.NoViableOffer? ==>
      && multiset(attempted) + multiset(Refused(outcome.envelope.rejected)) == multiset(providers)
      && (|attempted| > 0 ==> !available(|attempted|))
    ensures needed && DistinctIds(providers) ==>
      var order := Ordered(Bids(providers, healthy, replies, incidentId), request);
      && (consensus(order).Some? ==> forall id :: id in consensus(order).value ==> id in Ids(order))
      && WalkedRight(outcome, attempted, WalkOrder(order, request.emergencyOverride, consensus(order)),
                     TurnedAway(providers, healthy, replies, request, incidentId), request, incidentId, available, sound)
  {
    attempted := [];
    if !needed {
      return Returned(NoRecoveryNeeded), attempted;
    }
    var deterministic, rejected := Collect(providers, healthy, replies, request, incidentId);
    if |deterministic| == 0 {
      assert Ids(deterministic) == [];
      if consensus(deterministic).Some? {
        SameMembers(consensus(deterministic).value, Ids(deterministic));
      }
      return Returned(NoViableOffer(rejected)), attempted;
    }
    var ordered := RankedOrder(deterministic, request.emergencyOverride, consensus(deterministic));
    outcome, attempted := Activate(ordered, rejected, providers, request, incidentId, available, sound);
  }

  /** A healthy provider's first reply, in time, sends this offer. */
  predicate InTime(providers: seq<Text>, healthy: Text -> bool, replies: seq<Reply>, incidentId: Text, k: nat, offer: Offer) {
    FirstReply(replies, k) && replies[k].providerId in providers && healthy(replies[k].providerId) && Sends(replies[k], incidentId, offer)
  }

  /** There is nothing to try exactly when no healthy provider's first reply was in time, genuine and viable. */
  lemma NothingToTryIff(providers: seq<Text>, healthy: Text -> bool, replies: seq<Reply>, request: Request, incidentId: Text)
    ensures Ordered(Bids(providers, healthy, replies, incidentId), request) == []
       <==> forall k: nat, offer :: InTime(providers, healthy, replies, incidentId, k, offer) ==> !Meets(offer, request)
  {
    var bids, ready := Bids(providers, healthy, replies, incidentId), Ready(providers, healthy);
    OrderedSplits(bids, request);
    if Ordered(bids, request) != [] {
      var a := Ordered(bids, request)[0];
      var k := ArrivalsAreFirstReplies(ready, replies, incidentId, a);
      GateIsByHealth(providers, healthy, replies[k].providerId);
      assert InTime(providers, healthy, replies, incidentId, k, a.offer) && Meets(a.offer, request);
    } else {
      forall k: nat, offer | InTime(providers, healthy, replies, incidentId, k, offer) ensures !Meets(offer, request) {
        GateIsByHealth(providers, healthy, replies[k].providerId);
        FirstRepliesDecide(ready, replies, k, incidentId);
        var a := Arrival(offer, replies[k].atMs);
        assert a in bids && (a in Viable(bids, request) <==> Meets(a.offer, request));
        assert Viable(bids, request) == [];
      }
    }
  }

  /** Among the viable in-time offers none is lost: each is a candidate of the walk. */
  lemma EveryViableOfferIsACandidate(providers: seq<Text>, healthy: Text -> bool, replies: seq<Reply>, request: Request,
                                     incidentId: Text, k: nat, offer: Offer)
    requires InTime(providers, healthy, replies, incidentId, k, offer) && Meets(offer, request)
    ensures Arrival(offer, replies[k].atMs) in Ordered(Bids(providers, healthy, replies, incidentId), request)
  {
    var bids := Bids(providers, healthy, replies, incidentId);
    var a := Arrival(offer, replies[k].atMs);
    GateIsByHealth(providers, healthy, replies[k].providerId);
    FirstRepliesDecide(Ready(providers, healthy), replies, k, incidentId);
    OrderedSplits(bids, request);
    assert a in multiset(bids) && a !in NonViable(bids, request);
    assert a in multiset(Ordered(bids, request));
  }

  lemma SplitAround(ordered: seq<Arrival>, attempt: nat)
    requires 1 <= attempt <= |ordered|
    ensures multiset(Ids(ordered)) == multiset(Ids(ordered[..attempt - 1])) + multiset{ordered[attempt - 1].offer.providerId}
                                      + multiset(Ids(ordered[attempt..]))
  {
    assert Ids(ordered) == Ids(ordered[..attempt - 1]) + [ordered[attempt - 1].offer.providerId] + Ids(ordered[attempt..]);
  }
}
