/** The schema's cross-checks and the voucher builder (src/a2a/schemas/selectedOffer.js, src/sui/voucher.js). */
module Vouchers {
  import opened Units
  import opened Money
  import Digits
  import Offers
  import RescueAgent
  import Escrow

  datatype Provider = Provider(providerId: Text, offerId: Text, price: real, currency: Text)

  datatype Agreement = Agreement(
    split: FeeSplit,
    platformFeePercent: real,
    platformAddress: Text,
    currency: Text,
    nonce: Text,
    expiryMs: nat)

  /** An original offer; `verifies` tells whether its signature holds under a given provider's key. */
  datatype Original = Original(providerId: Text, offerId: Text, verifies: bool)

  /** `digest` is the hash of the canonical agreement bytes that the buyer signed. */
  datatype SelectedOffer = SelectedOffer(
    incidentId: Text,
    provider: Provider,
    agreement: Agreement,
    buyerVerifies: bool,
    original: Option<Original>,
    rejectedIds: seq<Text>,
    tDetect: nat,
    tDecide: nat,
    digest: Text)

  // ---- The schema -----------------------------------------------------------------------------

  predicate FieldsOk(s: SelectedOffer) {
    var m := s.agreement.split;
    && s.incidentId != [] && s.provider.providerId != [] && s.provider.offerId != [] && s.provider.price >= 0.0
    && m.planPrice >= 0.0 && m.platformFee >= 0.0 && m.providerAmount >= 0.0 && m.amount >= 0.0
    && 0.0 <= s.agreement.platformFeePercent <= 100.0 && s.agreement.platformAddress != [] && s.agreement.nonce != []
  }

  predicate StartsWith(t: Text, prefix: Text) {
    prefix <= t
  }

  /** `selectedOfferSchema.parse` accepts. */
  predicate SchemaOk(s: SelectedOffer) {
    && FieldsOk(s)
    && MoneyChecks(s.agreement.split, s.agreement.platformFeePercent, s.provider.price)
    && s.agreement.currency == s.provider.currency
    && StartsWith(s.agreement.nonce, s.incidentId + [COLON])
    && s.provider.providerId !in s.rejectedIds
    && s.tDetect <= s.tDecide
  }

  /** What the Rescue Agent puts together for a winner. */
  function BuildSelectedOffer(incidentId: Text, provider: Provider, percent: real, address: Text, attempt: nat, expiryMs: nat,
                              original: Original, rejectedIds: seq<Text>, tDetect: nat, tDecide: nat, digest: Text): SelectedOffer {
    SelectedOffer(incidentId, provider,
      Agreement(ComputeFeeSplit(provider.price, percent), percent, address, provider.currency,
                RescueAgent.Nonce(incidentId, provider.providerId, attempt), expiryMs),
      true, Some(original), rejectedIds, tDetect, tDecide, digest)
  }

  lemma NonceHasPrefix(incidentId: Text, providerId: Text, attempt: nat)
    ensures StartsWith(RescueAgent.Nonce(incidentId, providerId, attempt), incidentId + [COLON])
    ensures RescueAgent.Nonce(incidentId, providerId, attempt) != []
  {
    var n := RescueAgent.Nonce(incidentId, providerId, attempt);
    assert n == (incidentId + [COLON]) + (providerId + [COLON] + Digits.PadStart(Digits.NatText(attempt), 3));
  }

  lemma OnceEach(winner: Text, rejected: seq<Text>, providers: seq<Text>)
    requires multiset{winner} + multiset(rejected) == multiset(providers)
    requires forall i, j :: 0 <= i < j < |providers| ==> providers[i] != providers[j]
    ensures winner !in rejected
  {
    if winner in rejected {
      assert multiset(rejected)[winner] >= 1;
      assert multiset(providers)[winner] >= 2;
      DistinctOnce(providers, winner);
      assert false;
    }
  }

  lemma {:induction false} DistinctOnce(xs: seq<Text>, x: Text)
    requires forall i, j :: 0 <= i < j < |xs| ==> xs[i] != xs[j]
    ensures multiset(xs)[x] <= 1
  {
    if xs != [] {
      var init, last := xs[..|xs| - 1], xs[|xs| - 1];
      assert xs == init + [last];
      DistinctOnce(init, x);
      if last == x {
        assert x !in init;
        assert x !in multiset(init);
      }
    }
  }

  /** What the pipeline selects passes the schema: for a price on the cent grid, distinct providers and a clock that
      does not run backwards, the artifact built for a selected envelope is accepted. */
  lemma SelectedEnvelopesPassTheSchema(e: RescueAgent.Envelope, request: Offers.Request, incidentId: Text, providers: seq<Text>,
                                       provider: Provider, cents: nat, percent: real, address: Text, expiryMs: nat,
                                       original: Original, tDetect: nat, tDecide: nat, digest: Text)
    requires e.Selected? && RescueAgent.SelectedRight(e, request, incidentId, providers)
    requires forall i, j :: 0 <= i < j < |providers| ==> providers[i] != providers[j]
    requires provider.providerId == e.winner.offer.providerId && provider.price == Cents(cents)
    requires incidentId != [] && provider.providerId != [] && provider.offerId != [] && address != []
    requires 0.0 <= percent <= 100.0 && tDetect <= tDecide
    ensures var s := BuildSelectedOffer(incidentId, provider, percent, address, e.attempt, expiryMs, original,
                                        RescueAgent.Refused(e.rejected), tDetect, tDecide, digest);
            && SchemaOk(s) && s.incidentId == incidentId && s.provider == provider
            && s.agreement.platformAddress == address && s.agreement.platformFeePercent == percent
            && s.agreement.expiryMs == expiryMs && s.agreement.nonce == RescueAgent.Nonce(incidentId, provider.providerId, e.attempt)
  {
    SplitOfCents(cents, percent);
    FeeIsPositiveIff(cents, percent);
    NonceHasPrefix(incidentId, provider.providerId, e.attempt);
    OnceEach(provider.providerId, RescueAgent.Refused(e.rejected), providers);
  }

  // ---- The voucher ------------------------------------------------------------------------------

  datatype Error =
    | SchemaInvalid | UnsupportedCurrency | NonIntegralAmount | AmountRefused | OfferMismatch | OfferNotFound
    | UnknownProvider | SignatureInvalid | VoucherExpired

  datatype Result<T> = Ok(value: T) | Err(error: Error)

  /** The service's configuration, its offers on file and its clock. */
  datatype World = World(currency: Text, decimals: nat, onFile: seq<Original>, profiles: set<Text>, providerAddress: Text, nowMs: nat)

  predicate Matches(o: Original, p: Provider) {
    o.providerId == p.providerId && o.offerId == p.offerId
  }

  function FirstOnFile(onFile: seq<Original>, p: Provider): (r: Option<Original>)
    ensures r.Some? ==> r.value in onFile && Matches(r.value, p)
    ensures r.None? ==> forall o :: o in onFile ==> !Matches(o, p)
  {
    if onFile == [] then None
    else if Matches(onFile[0], p) then Some(onFile[0])
    else FirstOnFile(onFile[1..], p)
  }

  /** `resolveOriginalOffer`: an embedded offer must be the one the selection names; there is no falling back from it. */
  function ResolveOriginalOffer(s: SelectedOffer, onFile: seq<Original>): (r: Result<Original>)
    ensures r.Ok? ==> Matches(r.value, s.provider) && (r.value in onFile || s.original == Some(r.value))
    ensures s.original.Some? ==> (r.Ok? <==> Matches(s.original.value, s.provider))
    ensures s.original.None? ==> (r.Ok? <==> exists o :: o in onFile && Matches(o, s.provider))
  {
    if s.original.Some? then
      if Matches(s.original.value, s.provider) then Ok(s.original.value) else Err(OfferMismatch)
    else
      var found := FirstOnFile(onFile, s.provider);
      if found.Some? then Ok(found.value) else Err(OfferNotFound)
  }

  function BuildVoucher(s: SelectedOffer, w: World): Result<Escrow.Voucher> {
    var m := s.agreement.split;
    if !SchemaOk(s) then Err(SchemaInvalid)
    else if s.agreement.currency != w.currency then Err(UnsupportedCurrency)
    else
      var plan, fee, share := ToBaseUnits(m.planPrice, w.decimals), ToBaseUnits(m.platformFee, w.decimals), ToBaseUnits(m.providerAmount, w.decimals);
      if plan.None? then Err(NonIntegralAmount)
      else if fee.None? || share.None? then Err(AmountRefused)
      else
        var original := ResolveOriginalOffer(s, w.onFile);
        if original.Err? then Err(original.error)
        else if s.provider.providerId !in w.profiles then Err(UnknownProvider)
        else if !original.value.verifies || !s.buyerVerifies then Err(SignatureInvalid)
        else if s.agreement.expiryMs <= w.nowMs then Err(VoucherExpired)
        else Ok(Assemble(s, w, plan.value, fee.value, share.value, original.value))
  }

  function Assemble(s: SelectedOffer, w: World, plan: nat, fee: nat, share: nat, original: Original): Escrow.Voucher {
    Escrow.Voucher(
      Escrow.Deal(s.agreement.nonce, s.incidentId, s.provider.providerId, plan + fee, fee, s.agreement.expiryMs, s.digest),
      share, w.providerAddress, s.agreement.platformAddress, original.verifies, s.buyerVerifies)
  }

  /** What a built voucher carries: the price plus the fee is locked, the fee is part of it; the signed agreement fixes
      incident, provider, nonce, expiry and digest; the provider is paid at its address on file and the platform at the
      signed one; both signatures hold, it has not expired, and the offer behind it is the one the selection names. */
  lemma BuiltVouchers(s: SelectedOffer, w: World)
    requires BuildVoucher(s, w).Ok?
    ensures var v, m := BuildVoucher(s, w).value, s.agreement.split;
            && SchemaOk(s) && ResolveOriginalOffer(s, w.onFile).Ok?
            && Some(v.deal.fee) == ToBaseUnits(m.platformFee, w.decimals)
            && Some(v.deal.amount - v.deal.fee) == ToBaseUnits(m.planPrice, w.decimals)
            && Some(v.share) == ToBaseUnits(m.providerAmount, w.decimals)
            && v.provider == w.providerAddress && v.platform == s.agreement.platformAddress
            && v.deal.incidentId == s.incidentId && v.deal.providerId == s.provider.providerId
            && v.deal.nonce == s.agreement.nonce && v.deal.expiryMs == s.agreement.expiryMs && v.deal.digest == s.digest
            && StartsWith(v.deal.nonce, v.deal.incidentId + [COLON])
            && v.providerSigned && v.buyerSigned && w.nowMs < v.deal.expiryMs
  {}

  /** The provider share and the fee add up to what is locked exactly when price and provider amount are the same in
      base units; at two decimals they always are. */
  lemma SharesAddUpIff(s: SelectedOffer, w: World)
    requires BuildVoucher(s, w).Ok?
    ensures var v, m := BuildVoucher(s, w).value, s.agreement.split;
            && (v.share + v.deal.fee == v.deal.amount
                <==> ToBaseUnits(m.providerAmount, w.decimals) == ToBaseUnits(m.planPrice, w.decimals))
            && (w.decimals == 2 ==> v.share + v.deal.fee == v.deal.amount)
  {
    BuiltVouchers(s, w);
    if w.decimals == 2 {
      TwoDecimalsAgree(s.agreement.split.providerAmount, s.agreement.split.planPrice);
    }
  }

  /** At two decimals what is locked is the signed total, whenever that converts. */
  lemma LockedIsTheSignedTotal(s: SelectedOffer, w: World)
    requires BuildVoucher(s, w).Ok? && w.decimals == 2 && ToBaseUnits(s.agreement.split.amount, 2).Some?
    ensures BuildVoucher(s, w).value.deal.amount == ToBaseUnits(s.agreement.split.amount, 2).value
  {
    var m := s.agreement.split;
    BuiltVouchers(s, w);
    TwoDecimalsAdd(m.amount, m.planPrice, m.platformFee);
  }

  /** Everything but the amounts is in order. */
  predicate OtherwiseSound(s: SelectedOffer, w: World) {
    && SchemaOk(s) && s.agreement.currency == w.currency && ResolveOriginalOffer(s, w.onFile).Ok?
    && ResolveOriginalOffer(s, w.onFile).value.verifies && s.provider.providerId in w.profiles
    && s.buyerVerifies && w.nowMs < s.agreement.expiryMs
  }

  /** The three amounts convert. */
  predicate AmountsConvert(m: FeeSplit, decimals: nat)
    requires m.planPrice >= 0.0 && m.platformFee >= 0.0 && m.providerAmount >= 0.0
  {
    ToBaseUnits(m.planPrice, decimals).Some? && ToBaseUnits(m.platformFee, decimals).Some? && ToBaseUnits(m.providerAmount, decimals).Some?
  }

  /** A selection becomes a voucher exactly when it is sound and its amounts convert. */
  lemma BuildsIff(s: SelectedOffer, w: World)
    ensures BuildVoucher(s, w).Ok? <==> OtherwiseSound(s, w) && AmountsConvert(s.agreement.split, w.decimals)
  {}

  /** What is wrong with a selection that is refused. */
  predicate Faulty(s: SelectedOffer, w: World, error: Error) {
    match error
    case SchemaInvalid => !SchemaOk(s)
    case UnsupportedCurrency => s.agreement.currency != w.currency
    case NonIntegralAmount => SchemaOk(s) && ToBaseUnits(s.agreement.split.planPrice, w.decimals).None?
    case AmountRefused =>
      SchemaOk(s) && (ToBaseUnits(s.agreement.split.platformFee, w.decimals).None?
                      || ToBaseUnits(s.agreement.split.providerAmount, w.decimals).None?)
    case OfferMismatch => s.original.Some? && !Matches(s.original.value, s.provider)
    case OfferNotFound => s.original.None? && forall o :: o in w.onFile ==> !Matches(o, s.provider)
    case UnknownProvider => s.provider.providerId !in w.profiles
    case SignatureInvalid =>
      !s.buyerVerifies || (ResolveOriginalOffer(s, w.onFile).Ok? && !ResolveOriginalOffer(s, w.onFile).value.verifies)
    case VoucherExpired => s.agreement.expiryMs <= w.nowMs
  }

  /** No selection is refused without the fault it is told. */
  lemma RefusalsAreJustified(s: SelectedOffer, w: World)
    requires BuildVoucher(s, w).Err?
    ensures Faulty(s, w, BuildVoucher(s, w).error)
  {}

  /** A built voucher, taken by the contract and settled whatever happens in between, pays the provider's address on file
      the signed price less the recorded penalty, and the signed platform address the signed fee. */
  lemma SignedAmountsArePaid(s: SelectedOffer, w: World, c: Escrow.Chain, authority: Escrow.Authority, buyer: Text, now: nat,
                             txs: seq<Escrow.Timed>, address: Text)
    requires BuildVoucher(s, w).Ok? && Escrow.ChainOk(c) && s.agreement.nonce !in c.commitments
    requires var v := BuildVoucher(s, w).value;
             && Escrow.Commit(c, v, authority, buyer, now).Done?
             && Escrow.Settle(Escrow.ChainAfter(Escrow.Commit(c, v, authority, buyer, now).chain, txs), s.agreement.nonce).Done?
    ensures var v, m := BuildVoucher(s, w).value, s.agreement.split;
            var d := Escrow.ChainAfter(Escrow.Commit(c, v, authority, buyer, now).chain, txs);
            && s.agreement.nonce in d.commitments
            && var penalty := d.commitments[s.agreement.nonce].penalty;
               Escrow.PaidTo(Escrow.Settle(d, s.agreement.nonce).chain.transfers, address)
               == Escrow.PaidTo(d.transfers, address)
                  + (if address == w.providerAddress then ToBaseUnits(m.planPrice, w.decimals).GetOr(0) - penalty else 0)
                  + (if address == s.agreement.platformAddress then ToBaseUnits(m.platformFee, w.decimals).GetOr(0) else 0)
                  + (if address == buyer then penalty else 0)
  {
    var v := BuildVoucher(s, w).value;
    BuiltVouchers(s, w);
    Escrow.VoucherIsPaidOut(c, Escrow.CommitTx(v, authority, buyer), now, txs, address);
  }

  /** A sound selection with a computed split on the cent grid becomes a voucher exactly when its fee comes to at
      least a cent, that is when price times percentage reaches half a cent; the voucher is then exact. */
  lemma CentPricesBuildIff(s: SelectedOffer, w: World, c: nat, percent: real)
    requires OtherwiseSound(s, w) && w.decimals >= 2 && c > 0 && 0.0 <= percent <= 100.0
    requires s.agreement.split == ComputeFeeSplit(Cents(c), percent)
    requires c * Pow10(w.decimals - 2) <= MAX_SAFE && FeeCents(c, percent) * Pow10(w.decimals - 2) <= MAX_SAFE
    ensures BuildVoucher(s, w).Ok? <==> c as real * percent >= 50.0
    ensures BuildVoucher(s, w).Err? ==> BuildVoucher(s, w).error == AmountRefused
    ensures BuildVoucher(s, w).Ok? ==>
              var v, unit := BuildVoucher(s, w).value, Pow10(w.decimals - 2);
              && v.share == c * unit && v.deal.fee == FeeCents(c, percent) * unit && v.share + v.deal.fee == v.deal.amount
              && 0 < v.deal.fee < v.deal.amount
  {
    SplitOfCents(c, percent);
    FeeIsPositiveIff(c, percent);
    CentsConvert(c, w.decimals);
    var fee := FeeCents(c, percent);
    if fee > 0 {
      CentsConvert(fee, w.decimals);
      PositiveTimes(fee, Pow10(w.decimals - 2));
      PositiveTimes(c, Pow10(w.decimals - 2));
    }
  }

  lemma PositiveTimes(n: nat, p: nat)
    requires n > 0 && p > 0
    ensures n * p > 0
  {}

  /** The contract wants the fee below the amount. A built voucher has that unless its price is dust: positive, and yet
      zero base units. */
  lemma FeeBelowAmountIff(s: SelectedOffer, w: World)
    requires BuildVoucher(s, w).Ok?
    ensures BuildVoucher(s, w).value.deal.fee < BuildVoucher(s, w).value.deal.amount
       <==> Scaled(s.agreement.split.planPrice, w.decimals) > 0.000001
  {
    BuiltVouchers(s, w);
    DustIsZeroIff(s.agreement.split.planPrice, w.decimals);
  }

  /** The contract refuses a built voucher with a positive share, for a nonce it does not know and before its expiry,
      for two reasons only: the capability does not allow the amount, or the pool does not hold it. */
  lemma ContractTakesBuiltVouchers(s: SelectedOffer, w: World, c: Escrow.Chain, authority: Escrow.Authority, buyer: Text)
    requires BuildVoucher(s, w).Ok? && BuildVoucher(s, w).value.deal.nonce !in c.commitments
    requires BuildVoucher(s, w).value.deal.fee < BuildVoucher(s, w).value.deal.amount
    ensures var v := BuildVoucher(s, w).value;
            && (Escrow.Commit(c, v, authority, buyer, w.nowMs).Done?
                <==> authority.enabled && v.deal.amount <= authority.maxPerVoucher && v.deal.amount <= c.available)
            && (Escrow.Commit(c, v, authority, buyer, w.nowMs).Abort? ==>
                  Escrow.Commit(c, v, authority, buyer, w.nowMs).code in {Escrow.CannotSpend, Escrow.InsufficientEscrow})
  {
    BuiltVouchers(s, w);
  }
}
