/** The escrow contract the service commits to (move/sources/escrow.move). Amounts are base units;
    addresses, nonces and digests are opaque texts. */
module Escrow {
  import opened Units

  datatype Status = StatusCommitted | StatusSettled | StatusRefunded | StatusReclaimed

  /** What the signed agreement fixes. `digest` is the hash of its bytes: agreements with the same
      digest are taken to be the same deal. */
  datatype Deal = Deal(nonce: Text, incidentId: Text, providerId: Text, amount: nat, fee: nat, expiryMs: nat, digest: Text)

  datatype Commitment = Commitment(
    deal: Deal,
    buyer: Text,
    provider: Text,
    platform: Text,
    logDigest: Text,
    penalty: nat,
    status: Status)

  /** The transaction arguments of `commit` and `commit_as_buyer`, and the provider share that the service
      notes beside them. */
  datatype Voucher = Voucher(deal: Deal, share: nat, provider: Text, platform: Text, providerSigned: bool, buyerSigned: bool)

  datatype Transfer = Transfer(to: Text, value: nat, nonce: Text)

  /** One event per successful transaction: its position in the log stands for the transaction digest. */
  datatype Event =
    | Funded(value: nat)
    | CommittedEvent(nonce: Text, idempotent: bool)
    | VerifiedEvent(nonce: Text, logDigest: Text, penalty: nat)
    | SettledEvent(nonce: Text, penalty: nat)
    | RefundedEvent(nonce: Text)
    | ReclaimedEvent(nonce: Text)

  /** `received` counts every coin ever handed in, `transfers` every coin handed out. */
  datatype Chain = Chain(
    available: nat,
    locked: map<Text, nat>,
    commitments: map<Text, Commitment>,
    transfers: seq<Transfer>,
    received: nat,
    log: seq<Event>)

  const GENESIS := Chain(0, map[], map[], [], 0, [])

  /** The limit of the buyer's capability: `assert_can_spend` in move/sources/authority.move. */
  datatype Authority = Authority(enabled: bool, maxPerVoucher: nat)

  datatype Code =
    | SignatureInvalid | VoucherExpired | NonceReplay | InsufficientEscrow | UnknownCommitment
    | AlreadyFinalized | NotExpired | InvalidFee | InvalidPenalty | CannotSpend

  datatype Outcome = Done(chain: Chain) | Abort(code: Code)

  // ---- Transactions ----------------------------------------------------------------

  function Deposit(c: Chain, value: nat): Chain {
    c.(available := c.available + value, received := c.received + value, log := c.log + [Funded(value)])
  }

  function Fresh(v: Voucher, buyer: Text): Commitment {
    Commitment(v.deal, buyer, v.provider, v.platform, [], 0, StatusCommitted)
  }

  /** What both commits do with a nonce they already know. */
  function Resubmit(c: Chain, v: Voucher): Outcome
    requires v.deal.nonce in c.commitments
  {
    if c.commitments[v.deal.nonce].deal == v.deal
    then Done(c.(log := c.log + [CommittedEvent(v.deal.nonce, true)]))
    else Abort(NonceReplay)
  }

  function Lock(c: Chain, v: Voucher, buyer: Text): Chain {
    c.(locked := c.locked[v.deal.nonce := v.deal.amount],
       commitments := c.commitments[v.deal.nonce := Fresh(v, buyer)],
       log := c.log + [CommittedEvent(v.deal.nonce, false)])
  }

  function Commit(c: Chain, v: Voucher, authority: Authority, buyer: Text, now: nat): Outcome {
    var d := v.deal;
    if d.nonce in c.commitments then Resubmit(c, v)
    else if d.fee >= d.amount then Abort(InvalidFee)
    else if !v.providerSigned || !v.buyerSigned then Abort(SignatureInvalid)
    else if !authority.enabled || d.amount > authority.maxPerVoucher then Abort(CannotSpend)
    else if now >= d.expiryMs then Abort(VoucherExpired)
    else if c.available < d.amount then Abort(InsufficientEscrow)
    else Done(Lock(c.(available := c.available - d.amount), v, buyer))
  }

  /** The buyer pays with a coin; a resubmission hands the coin straight back. */
  function CommitAsBuyer(c: Chain, v: Voucher, buyer: Text, coin: nat, now: nat): Outcome {
    var d := v.deal;
    if d.nonce in c.commitments then Resubmit(c, v)
    else if d.fee >= d.amount then Abort(InvalidFee)
    else if !v.providerSigned || !v.buyerSigned then Abort(SignatureInvalid)
    else if coin != d.amount then Abort(InsufficientEscrow)
    else if now >= d.expiryMs then Abort(VoucherExpired)
    else Done(Lock(c.(received := c.received + coin), v, buyer))
  }

  function Verify(c: Chain, nonce: Text, logDigest: Text, penalty: nat): Outcome {
    if nonce !in c.commitments then Abort(UnknownCommitment)
    else
      var k := c.commitments[nonce];
      if k.status != StatusCommitted || k.logDigest != [] then Abort(AlreadyFinalized)
      else if penalty + k.deal.fee >= k.deal.amount then Abort(InvalidPenalty)
      else Done(c.(commitments := c.commitments[nonce := k.(logDigest := logDigest, penalty := penalty)],
                   log := c.log + [VerifiedEvent(nonce, logDigest, penalty)]))
  }

  function PayIfAny(ts: seq<Transfer>, t: Transfer): seq<Transfer> {
    if t.value > 0 then ts + [t] else ts
  }

  /** Penalty to the buyer, fee to the platform, the rest to the provider. */
  function Split(ts: seq<Transfer>, nonce: Text, k: Commitment, locked: nat): seq<Transfer>
    requires k.penalty + k.deal.fee <= locked
  {
    var toBuyer := PayIfAny(ts, Transfer(k.buyer, k.penalty, nonce));
    var toPlatform := PayIfAny(toBuyer, Transfer(k.platform, k.deal.fee, nonce));
    toPlatform + [Transfer(k.provider, locked - k.penalty - k.deal.fee, nonce)]
  }

  function Close(c: Chain, nonce: Text, status: Status, event: Event): Chain
    requires nonce in c.commitments
  {
    c.(locked := c.locked - {nonce},
       commitments := c.commitments[nonce := c.commitments[nonce].(status := status)],
       log := c.log + [event])
  }

  /** What settle, refund and reclaim all check first. */
  function Closable(c: Chain, nonce: Text): Option<Code> {
    if nonce !in c.commitments then Some(UnknownCommitment)
    else if c.commitments[nonce].status != StatusCommitted then Some(AlreadyFinalized)
    else if nonce !in c.locked then Some(UnknownCommitment)
    else None
  }

  function Settle(c: Chain, nonce: Text): Outcome {
    if Closable(c, nonce).Some? then Abort(Closable(c, nonce).value)
    else
      var k := c.commitments[nonce];
      if k.penalty + k.deal.fee > c.locked[nonce] then Abort(InsufficientEscrow)
      else Done(Close(c.(transfers := Split(c.transfers, nonce, k, c.locked[nonce])),
                      nonce, StatusSettled, SettledEvent(nonce, k.penalty)))
  }

  /** A refund goes back into the pool. */
  function Refund(c: Chain, nonce: Text): Outcome {
    if Closable(c, nonce).Some? then Abort(Closable(c, nonce).value)
    else Done(Close(c.(available := c.available + c.locked[nonce]), nonce, StatusRefunded, RefundedEvent(nonce)))
  }

  /** After expiry anyone may send the locked coins to the buyer. */
  function Reclaim(c: Chain, nonce: Text, now: nat): Outcome {
    if Closable(c, nonce).Some? then Abort(Closable(c, nonce).value)
    else if now < c.commitments[nonce].deal.expiryMs then Abort(NotExpired)
    else Done(Close(c.(transfers := c.transfers + [Transfer(c.commitments[nonce].buyer, c.locked[nonce], nonce)]),
                    nonce, StatusReclaimed, ReclaimedEvent(nonce)))
  }

  datatype Tx =
    | DepositTx(value: nat)
    | CommitTx(voucher: Voucher, authority: Authority, buyer: Text)
    | BuyerTx(voucher: Voucher, buyer: Text, coin: nat)
    | VerifyTx(nonce: Text, logDigest: Text, penalty: nat)
    | SettleTx(nonce: Text)
    | RefundTx(nonce: Text)
    | ReclaimTx(nonce: Text)

  function Execute(c: Chain, tx: Tx, now: nat): Outcome {
    match tx
    case DepositTx(value) => Done(Deposit(c, value))
    case CommitTx(v, authority, buyer) => Commit(c, v, authority, buyer, now)
    case BuyerTx(v, buyer, coin) => CommitAsBuyer(c, v, buyer, coin, now)
    case VerifyTx(nonce, logDigest, penalty) => Verify(c, nonce, logDigest, penalty)
    case SettleTx(nonce) => Settle(c, nonce)
    case RefundTx(nonce) => Refund(c, nonce)
    case ReclaimTx(nonce) => Reclaim(c, nonce, now)
  }

  // ---- What every transaction keeps --------------------------------------------------

  ghost function TotalLocked(m: map<Text, nat>): nat
    decreases |m|
  {
    if m == map[] then 0
    else
      var k :| k in m;
      assert k !in m - {k};
      m[k] + TotalLocked(m - {k})
  }

  function TotalPaid(ts: seq<Transfer>): nat {
    if ts == [] then 0 else TotalPaid(ts[..|ts| - 1]) + ts[|ts| - 1].value
  }

  /** What one nonce has paid out. */
  function PaidFor(ts: seq<Transfer>, nonce: Text): nat {
    if ts == [] then 0
    else
      var n, last := |ts| - 1, ts[|ts| - 1];
      PaidFor(ts[..n], nonce) + (if last.nonce == nonce then last.value else 0)
  }

  predicate Locks(e: Event, nonce: Text) {
    e == CommittedEvent(nonce, false)
  }

  predicate Closes(e: Event, nonce: Text) {
    (e.SettledEvent? || e.RefundedEvent? || e.ReclaimedEvent?) && e.nonce == nonce
  }

  function LockCount(log: seq<Event>, nonce: Text): nat {
    if log == [] then 0
    else LockCount(log[..|log| - 1], nonce) + (if Locks(log[|log| - 1], nonce) then 1 else 0)
  }

  function CloseCount(log: seq<Event>, nonce: Text): nat {
    if log == [] then 0
    else CloseCount(log[..|log| - 1], nonce) + (if Closes(log[|log| - 1], nonce) then 1 else 0)
  }

  predicate Judges(e: Event, nonce: Text) {
    e.VerifiedEvent? && e.nonce == nonce && e.logDigest != []
  }

  /** Verdicts that recorded a log digest. */
  function VerdictCount(log: seq<Event>, nonce: Text): nat {
    if log == [] then 0
    else VerdictCount(log[..|log| - 1], nonce) + (if Judges(log[|log| - 1], nonce) then 1 else 0)
  }

  predicate CommitmentOk(k: Commitment, nonce: Text) {
    k.deal.nonce == nonce && k.penalty + k.deal.fee < k.deal.amount
  }

  /** The coins and events of one nonce agree with its status. */
  predicate NonceOk(c: Chain, nonce: Text) {
    var locks, closes, paid := LockCount(c.log, nonce), CloseCount(c.log, nonce), PaidFor(c.transfers, nonce);
    if nonce !in c.commitments then
      nonce !in c.locked && locks == 0 && closes == 0 && paid == 0 && VerdictCount(c.log, nonce) == 0
    else
      var k := c.commitments[nonce];
      && CommitmentOk(k, nonce) && locks == 1
      && VerdictCount(c.log, nonce) == (if k.logDigest != [] then 1 else 0)
      && (nonce in c.locked <==> k.status == StatusCommitted)
      && (nonce in c.locked ==> c.locked[nonce] == k.deal.amount)
      && closes == (if k.status == StatusCommitted then 0 else 1)
      && paid == (if k.status == StatusSettled || k.status == StatusReclaimed then k.deal.amount else 0)
  }

  ghost predicate Conserved(c: Chain) {
    c.received == c.available + TotalLocked(c.locked) + TotalPaid(c.transfers)
  }

  ghost predicate CommitsKnown(c: Chain) {
    forall i :: 0 <= i < |c.log| && c.log[i].CommittedEvent? ==> c.log[i].nonce in c.commitments
  }

  ghost predicate ChainOk(c: Chain) {
    Conserved(c) && CommitsKnown(c) && forall nonce: Text :: NonceOk(c, nonce)
  }

  lemma {:induction false} TotalLockedSplit(m: map<Text, nat>, key: Text)
    requires key in m
    ensures TotalLocked(m) == m[key] + TotalLocked(m - {key})
    decreases |m|
  {
    var k :| k in m && TotalLocked(m) == m[k] + TotalLocked(m - {k});
    if k != key {
      TotalLockedSplit(m - {k}, key);
      TotalLockedSplit(m - {key}, k);
      assert m - {k} - {key} == m - {key} - {k};
    }
  }

  lemma TotalLockedAdd(m: map<Text, nat>, key: Text, value: nat)
    requires key !in m
    ensures TotalLocked(m[key := value]) == TotalLocked(m) + value
  {
    TotalLockedSplit(m[key := value], key);
    assert m[key := value] - {key} == m;
  }

  lemma PaidOneMore(ts: seq<Transfer>, t: Transfer, nonce: Text)
    ensures TotalPaid(ts + [t]) == TotalPaid(ts) + t.value
    ensures PaidFor(ts + [t], nonce) == PaidFor(ts, nonce) + if t.nonce == nonce then t.value else 0
  {
    assert (ts + [t])[..|ts|] == ts;
  }

  lemma PaidIfAny(ts: seq<Transfer>, t: Transfer, nonce: Text)
    ensures TotalPaid(PayIfAny(ts, t)) == TotalPaid(ts) + t.value
    ensures PaidFor(PayIfAny(ts, t), nonce) == PaidFor(ts, nonce) + if t.nonce == nonce then t.value else 0
  {
    PaidOneMore(ts, t, nonce);
  }

  /** A settlement splits the locked coins without loss. */
  lemma SplitPaysAll(ts: seq<Transfer>, nonce: Text, k: Commitment, locked: nat, other: Text)
    requires k.penalty + k.deal.fee <= locked
    ensures TotalPaid(Split(ts, nonce, k, locked)) == TotalPaid(ts) + locked
    ensures PaidFor(Split(ts, nonce, k, locked), other) == PaidFor(ts, other) + if other == nonce then locked else 0
  {
    var toBuyer := PayIfAny(ts, Transfer(k.buyer, k.penalty, nonce));
    var toPlatform := PayIfAny(toBuyer, Transfer(k.platform, k.deal.fee, nonce));
    PaidIfAny(ts, Transfer(k.buyer, k.penalty, nonce), other);
    PaidIfAny(toBuyer, Transfer(k.platform, k.deal.fee, nonce), other);
    PaidOneMore(toPlatform, Transfer(k.provider, locked - k.penalty - k.deal.fee, nonce), other);
  }

  lemma CountOneMore(log: seq<Event>, e: Event, nonce: Text)
    ensures LockCount(log + [e], nonce) == LockCount(log, nonce) + if Locks(e, nonce) then 1 else 0
    ensures CloseCount(log + [e], nonce) == CloseCount(log, nonce) + if Closes(e, nonce) then 1 else 0
    ensures VerdictCount(log + [e], nonce) == VerdictCount(log, nonce) + if Judges(e, nonce) then 1 else 0
  {
    assert (log + [e])[..|log|] == log;
  }

  lemma EmptyIsOk(c: Chain, nonce: Text)
    requires c.locked == map[] && c.commitments == map[] && c.transfers == [] && c.log == []
    ensures NonceOk(c, nonce) && (c.available == c.received ==> Conserved(c))
  {}

  predicate Untouched(c: Chain) {
    c.locked == map[] && c.commitments == map[] && c.transfers == [] && c.log == [] && c.available == c.received
  }

  lemma UntouchedIsOk(c: Chain)
    requires Untouched(c)
    ensures ChainOk(c)
  {
    EmptyIsOk(c, []);
    forall nonce: Text ensures NonceOk(c, nonce) {
      EmptyIsOk(c, nonce);
    }
  }

  lemma LockKeepsNonce(c: Chain, v: Voucher, buyer: Text, nonce: Text)
    requires NonceOk(c, nonce) && v.deal.nonce !in c.commitments && v.deal.fee < v.deal.amount
    ensures NonceOk(Lock(c, v, buyer), nonce)
  {
    CountOneMore(c.log, CommittedEvent(v.deal.nonce, false), nonce);
  }

  lemma QuietKeepsNonce(c: Chain, event: Event, nonce: Text)
    requires NonceOk(c, nonce) && !Locks(event, nonce) && !Closes(event, nonce) && !Judges(event, nonce)
    ensures NonceOk(c.(log := c.log + [event]), nonce)
  {
    CountOneMore(c.log, event, nonce);
  }

  lemma VerifyKeepsNonce(c: Chain, n: Text, logDigest: Text, penalty: nat, nonce: Text)
    requires NonceOk(c, nonce) && Verify(c, n, logDigest, penalty).Done?
    ensures NonceOk(Verify(c, n, logDigest, penalty).chain, nonce)
  {
    CountOneMore(c.log, VerifiedEvent(n, logDigest, penalty), nonce);
  }

  lemma SettleKeepsNonce(c: Chain, n: Text, nonce: Text)
    requires NonceOk(c, n) && NonceOk(c, nonce) && Settle(c, n).Done?
    ensures NonceOk(Settle(c, n).chain, nonce)
  {
    var k := c.commitments[n];
    CountOneMore(c.log, SettledEvent(n, k.penalty), nonce);
    SplitPaysAll(c.transfers, n, k, c.locked[n], nonce);
  }

  lemma RefundKeepsNonce(c: Chain, n: Text, nonce: Text)
    requires NonceOk(c, n) && NonceOk(c, nonce) && Refund(c, n).Done?
    ensures NonceOk(Refund(c, n).chain, nonce)
  {
    CountOneMore(c.log, RefundedEvent(n), nonce);
  }

  lemma ReclaimKeepsNonce(c: Chain, n: Text, now: nat, nonce: Text)
    requires NonceOk(c, n) && NonceOk(c, nonce) && Reclaim(c, n, now).Done?
    ensures NonceOk(Reclaim(c, n, now).chain, nonce)
  {
    CountOneMore(c.log, ReclaimedEvent(n), nonce);
    PaidOneMore(c.transfers, Transfer(c.commitments[n].buyer, c.locked[n], n), nonce);
  }

  /** The coins, the lock and the close of one nonce, whatever transaction is executed. */
  lemma ExecuteKeepsNonce(c: Chain, tx: Tx, now: nat, nonce: Text)
    requires ChainOk(c) && Execute(c, tx, now).Done?
    ensures NonceOk(Execute(c, tx, now).chain, nonce)
  {
    assert NonceOk(c, nonce);
    match tx
    case DepositTx(value) => QuietKeepsNonce(c, Funded(value), nonce);
    case CommitTx(v, _, buyer) =>
      if v.deal.nonce in c.commitments {
        QuietKeepsNonce(c, CommittedEvent(v.deal.nonce, true), nonce);
      } else {
        LockKeepsNonce(c.(available := c.available - v.deal.amount), v, buyer, nonce);
      }
    case BuyerTx(v, buyer, coin) =>
      if v.deal.nonce in c.commitments {
        QuietKeepsNonce(c, CommittedEvent(v.deal.nonce, true), nonce);
      } else {
        LockKeepsNonce(c.(received := c.received + coin), v, buyer, nonce);
      }
    case VerifyTx(n, logDigest, penalty) => VerifyKeepsNonce(c, n, logDigest, penalty, nonce);
    case SettleTx(n) => assert NonceOk(c, n); SettleKeepsNonce(c, n, nonce);
    case RefundTx(n) => assert NonceOk(c, n); RefundKeepsNonce(c, n, nonce);
    case ReclaimTx(n) => assert NonceOk(c, n); ReclaimKeepsNonce(c, n, now, nonce);
  }

  lemma ExecuteConserves(c: Chain, tx: Tx, now: nat)
    requires ChainOk(c) && Execute(c, tx, now).Done?
    ensures Conserved(Execute(c, tx, now).chain)
  {
    match tx
    case CommitTx(v, _, _) => if v.deal.nonce !in c.commitments { LockConserves(c, v); }
    case BuyerTx(v, _, _) => if v.deal.nonce !in c.commitments { LockConserves(c, v); }
    case SettleTx(n) =>
      TotalLockedSplit(c.locked, n);
      SplitPaysAll(c.transfers, n, c.commitments[n], c.locked[n], n);
    case RefundTx(n) => TotalLockedSplit(c.locked, n);
    case ReclaimTx(n) =>
      TotalLockedSplit(c.locked, n);
      PaidOneMore(c.transfers, Transfer(c.commitments[n].buyer, c.locked[n], n), n);
    case _ =>
  }

  lemma LockConserves(c: Chain, v: Voucher)
    requires ChainOk(c) && v.deal.nonce !in c.commitments
    ensures TotalLocked(c.locked[v.deal.nonce := v.deal.amount]) == TotalLocked(c.locked) + v.deal.amount
  {
    assert NonceOk(c, v.deal.nonce);
    TotalLockedAdd(c.locked, v.deal.nonce, v.deal.amount);
  }

  /** Every transaction that does not abort keeps the coins and every nonce in order. */
  lemma ExecuteKeepsChain(c: Chain, tx: Tx, now: nat)
    requires ChainOk(c) && Execute(c, tx, now).Done?
    ensures ChainOk(Execute(c, tx, now).chain)
  {
    ExecuteConserves(c, tx, now);
    ExecuteExtends(c, tx, now);
    ExecuteLogs(c, tx, now);
    forall nonce: Text ensures NonceOk(Execute(c, tx, now).chain, nonce) {
      ExecuteKeepsNonce(c, tx, now, nonce);
    }
  }

  // ---- What a later chain still remembers --------------------------------------------

  /** A commitment keeps its deal; a recorded verdict and a closed status never change again. */
  predicate Later(k: Commitment, l: Commitment) {
    && l.deal == k.deal && l.buyer == k.buyer && l.provider == k.provider && l.platform == k.platform
    && (k.status != StatusCommitted ==> l == k)
    && (k.logDigest != [] ==> l.logDigest == k.logDigest && l.penalty == k.penalty)
  }

  ghost predicate Extends(c: Chain, d: Chain) {
    && c.log <= d.log
    && forall nonce :: nonce in c.commitments ==> nonce in d.commitments && Later(c.commitments[nonce], d.commitments[nonce])
  }

  lemma ExecuteExtends(c: Chain, tx: Tx, now: nat)
    requires Execute(c, tx, now).Done?
    ensures Extends(c, Execute(c, tx, now).chain)
  {}

  lemma ExecuteLogs(c: Chain, tx: Tx, now: nat)
    requires Execute(c, tx, now).Done?
    ensures var d := Execute(c, tx, now).chain;
            && d.log[..|d.log| - 1] == c.log
            && (d.log[|d.log| - 1].CommittedEvent? ==> d.log[|d.log| - 1].nonce in d.commitments)
  {}

  /** The transactions that close a nonce are its settlement, refund and reclaim. */
  predicate IsClosing(tx: Tx, nonce: Text) {
    (tx.SettleTx? || tx.RefundTx? || tx.ReclaimTx?) && tx.nonce == nonce
  }

  lemma ExecuteCloses(c: Chain, tx: Tx, now: nat, nonce: Text)
    requires Execute(c, tx, now).Done?
    ensures CloseCount(Execute(c, tx, now).chain.log, nonce) == CloseCount(c.log, nonce) + if IsClosing(tx, nonce) then 1 else 0
  {
    var log := Execute(c, tx, now).chain.log;
    ExecuteLogs(c, tx, now);
    assert log == c.log + [log[|c.log|]];
    CountOneMore(c.log, log[|c.log|], nonce);
    ClosingEvent(c, tx, now, nonce);
  }

  lemma ClosingEvent(c: Chain, tx: Tx, now: nat, nonce: Text)
    requires Execute(c, tx, now).Done?
    ensures var log := Execute(c, tx, now).chain.log; |log| == |c.log| + 1 && (Closes(log[|c.log|], nonce) <==> IsClosing(tx, nonce))
  {}

  /** Every transaction either aborts, or adds one event and moves at most one nonce. */
  lemma ExecuteMovesOneNonce(c: Chain, tx: Tx, now: nat)
    requires Execute(c, tx, now).Done?
    ensures var d := Execute(c, tx, now).chain;
            && |d.log| == |c.log| + 1
            && c.commitments.Keys <= d.commitments.Keys
            && forall nonce :: nonce in d.commitments && (nonce !in c.commitments || d.commitments[nonce] != c.commitments[nonce]) ==>
                 !d.log[|c.log|].Funded? && d.log[|c.log|].nonce == nonce
  {}

  /** What one address has received. */
  function PaidTo(ts: seq<Transfer>, address: Text): nat {
    if ts == [] then 0
    else
      var n, last := |ts| - 1, ts[|ts| - 1];
      PaidTo(ts[..n], address) + (if last.to == address then last.value else 0)
  }

  lemma PaidToOneMore(ts: seq<Transfer>, t: Transfer, address: Text)
    ensures PaidTo(ts + [t], address) == PaidTo(ts, address) + if t.to == address then t.value else 0
    ensures PaidTo(PayIfAny(ts, t), address) == PaidTo(ts, address) + if t.to == address then t.value else 0
  {
    assert (ts + [t])[..|ts|] == ts;
  }

  /** A settlement pays the recorded penalty to the buyer, the signed fee to the platform, and the rest,
      which is positive, to the provider. Nobody else receives anything. */
  lemma SettlePaysTheSplit(c: Chain, nonce: Text, address: Text)
    requires ChainOk(c) && Settle(c, nonce).Done?
    ensures var k := c.commitments[nonce];
            && PaidTo(Settle(c, nonce).chain.transfers, address) == PaidTo(c.transfers, address)
                 + (if address == k.buyer then k.penalty else 0)
                 + (if address == k.platform then k.deal.fee else 0)
                 + (if address == k.provider then k.deal.amount - k.deal.fee - k.penalty else 0)
            && k.deal.amount - k.deal.fee - k.penalty > 0
  {
    assert NonceOk(c, nonce);
    var k := c.commitments[nonce];
    var toBuyer := PayIfAny(c.transfers, Transfer(k.buyer, k.penalty, nonce));
    var toPlatform := PayIfAny(toBuyer, Transfer(k.platform, k.deal.fee, nonce));
    PaidToOneMore(c.transfers, Transfer(k.buyer, k.penalty, nonce), address);
    PaidToOneMore(toBuyer, Transfer(k.platform, k.deal.fee, nonce), address);
    PaidToOneMore(toPlatform, Transfer(k.provider, k.deal.amount - k.penalty - k.deal.fee, nonce), address);
  }

  // ---- Who is paid, and what else moves ---------------------------------------------------

  /** A reclaim sends the whole amount to the buyer of the commitment and nothing to anybody else. */
  lemma ReclaimPaysTheBuyer(c: Chain, nonce: Text, now: nat, address: Text)
    requires ChainOk(c) && Reclaim(c, nonce, now).Done?
    ensures nonce in c.commitments
    ensures PaidTo(Reclaim(c, nonce, now).chain.transfers, address)
         == PaidTo(c.transfers, address) + if address == c.commitments[nonce].buyer then c.commitments[nonce].deal.amount else 0
  {
    assert NonceOk(c, nonce);
    PaidToOneMore(c.transfers, Transfer(c.commitments[nonce].buyer, c.locked[nonce], nonce), address);
  }

  /** Nothing else pays anybody. */
  lemma OthersPayNobody(c: Chain, tx: Tx, now: nat)
    requires Execute(c, tx, now).Done? && !tx.SettleTx? && !tx.ReclaimTx?
    ensures Execute(c, tx, now).chain.transfers == c.transfers
  {}

  /** The transaction makes a commitment that was not there. */
  predicate Makes(c: Chain, tx: Tx) {
    (tx.CommitTx? || tx.BuyerTx?) && tx.voucher.deal.nonce !in c.commitments
  }

  /** What each transaction takes from the pool or adds to it: a deposit its value, a new pool commitment and a refund
      the amount of the deal. */
  lemma PoolMoves(c: Chain, tx: Tx, now: nat)
    requires ChainOk(c) && Execute(c, tx, now).Done?
    ensures var d := Execute(c, tx, now).chain;
            match tx
            case DepositTx(value) => d.available == c.available + value
            case CommitTx(v, _, _) => d.available == c.available - if Makes(c, tx) then v.deal.amount else 0
            case RefundTx(n) => n in c.commitments && d.available == c.available + c.commitments[n].deal.amount
            case _ => d.available == c.available
  {
    match tx
    case RefundTx(n) => assert NonceOk(c, n);
    case _ =>
  }

  /** Coins come in only with a deposit and with a buyer's own new commitment. */
  lemma CoinsComeIn(c: Chain, tx: Tx, now: nat)
    requires Execute(c, tx, now).Done?
    ensures var d := Execute(c, tx, now).chain;
            match tx
            case DepositTx(value) => d.received == c.received + value
            case BuyerTx(v, _, _) => d.received == c.received + if Makes(c, tx) then v.deal.amount else 0
            case _ => d.received == c.received
  {}

  /** A new commitment records the deal, the payout addresses and the buyer that its transaction names, and it holds
      its whole amount; the same voucher again changes nothing. */
  lemma CommitRecords(c: Chain, tx: Tx, now: nat)
    requires (tx.CommitTx? || tx.BuyerTx?) && Execute(c, tx, now).Done?
    ensures var d, v, n := Execute(c, tx, now).chain, tx.voucher, tx.voucher.deal.nonce;
            && n in d.commitments && d.commitments[n].deal == v.deal
            && (Makes(c, tx) ==>
                  && d.commitments[n].provider == v.provider && d.commitments[n].platform == v.platform
                  && d.commitments[n].buyer == tx.buyer && d.commitments[n].status == StatusCommitted
                  && d.commitments[n].penalty == 0 && d.commitments[n].logDigest == []
                  && n in d.locked && d.locked[n] == v.deal.amount)
            && (!Makes(c, tx) ==> d.commitments == c.commitments && d.locked == c.locked && d.available == c.available
                                  && d.received == c.received)
  {}

  /** The pool pays for a new commitment exactly when the deal is sound, signed by both sides, within the capability,
      not expired, and there are coins for it; a known nonce is taken again exactly with the same deal. */
  lemma CommitAcceptedIff(c: Chain, v: Voucher, authority: Authority, buyer: Text, now: nat)
    ensures Commit(c, v, authority, buyer, now).Done? <==>
      if v.deal.nonce in c.commitments then c.commitments[v.deal.nonce].deal == v.deal
      else v.deal.fee < v.deal.amount && v.providerSigned && v.buyerSigned && authority.enabled
           && v.deal.amount <= authority.maxPerVoucher && now < v.deal.expiryMs && v.deal.amount <= c.available
  {}

  /** A buyer's own coin is taken exactly when it is the amount of such a deal. */
  lemma BuyerCommitAcceptedIff(c: Chain, v: Voucher, buyer: Text, coin: nat, now: nat)
    ensures CommitAsBuyer(c, v, buyer, coin, now).Done? <==>
      if v.deal.nonce in c.commitments then c.commitments[v.deal.nonce].deal == v.deal
      else v.deal.fee < v.deal.amount && v.providerSigned && v.buyerSigned && now < v.deal.expiryMs && coin == v.deal.amount
  {}

  /** A verdict is taken exactly on an open commitment without one, at a penalty that leaves the provider something; it
      records digest and penalty and moves no coin. */
  lemma VerdictIsRecorded(c: Chain, nonce: Text, logDigest: Text, penalty: nat)
    ensures Verify(c, nonce, logDigest, penalty).Done? <==>
      && nonce in c.commitments && c.commitments[nonce].status == StatusCommitted && c.commitments[nonce].logDigest == []
      && penalty < c.commitments[nonce].deal.amount - c.commitments[nonce].deal.fee
    ensures Verify(c, nonce, logDigest, penalty).Done? ==>
      var d := Verify(c, nonce, logDigest, penalty).chain;
      && nonce in d.commitments && d.commitments[nonce].logDigest == logDigest && d.commitments[nonce].penalty == penalty
      && d.commitments[nonce].status == StatusCommitted && d.locked == c.locked
  {}

  /** The reason behind every abort code. */
  predicate Justified(c: Chain, tx: Tx, now: nat, code: Code) {
    match code
    case SignatureInvalid => (tx.CommitTx? || tx.BuyerTx?) && !(tx.voucher.providerSigned && tx.voucher.buyerSigned)
    case VoucherExpired => (tx.CommitTx? || tx.BuyerTx?) && now >= tx.voucher.deal.expiryMs
    case NonceReplay =>
      (tx.CommitTx? || tx.BuyerTx?) && tx.voucher.deal.nonce in c.commitments
      && c.commitments[tx.voucher.deal.nonce].deal != tx.voucher.deal
    case InsufficientEscrow =>
      (tx.CommitTx? && c.available < tx.voucher.deal.amount) || (tx.BuyerTx? && tx.coin != tx.voucher.deal.amount)
    case UnknownCommitment => NeedsCommitment(tx) && tx.nonce !in c.commitments
    case AlreadyFinalized =>
      NeedsCommitment(tx) && tx.nonce in c.commitments
      && (c.commitments[tx.nonce].status != StatusCommitted || (tx.VerifyTx? && c.commitments[tx.nonce].logDigest != []))
    case NotExpired => tx.ReclaimTx? && tx.nonce in c.commitments && now < c.commitments[tx.nonce].deal.expiryMs
    case InvalidFee => (tx.CommitTx? || tx.BuyerTx?) && tx.voucher.deal.fee >= tx.voucher.deal.amount
    case InvalidPenalty =>
      tx.VerifyTx? && tx.nonce in c.commitments
      && tx.penalty >= c.commitments[tx.nonce].deal.amount - c.commitments[tx.nonce].deal.fee
    case CannotSpend => tx.CommitTx? && !(tx.authority.enabled && tx.voucher.deal.amount <= tx.authority.maxPerVoucher)
  }

  predicate NeedsCommitment(tx: Tx) {
    tx.VerifyTx? || tx.SettleTx? || tx.RefundTx? || tx.ReclaimTx?
  }

  /** No transaction aborts without the reason it gives. */
  lemma AbortsAreJustified(c: Chain, tx: Tx, now: nat)
    requires ChainOk(c) && Execute(c, tx, now).Abort?
    ensures Justified(c, tx, now, Execute(c, tx, now).code)
  {
    if tx.SettleTx? || tx.RefundTx? || tx.ReclaimTx? {
      assert NonceOk(c, tx.nonce);
    }
  }

  /** Every transaction is told of by the event of its own type and nonce. */
  lemma EventTells(c: Chain, tx: Tx, now: nat)
    requires Execute(c, tx, now).Done?
    ensures var d := Execute(c, tx, now).chain;
            && |d.log| == |c.log| + 1
            && var event := d.log[|c.log|];
               match tx
               case DepositTx(value) => event == Funded(value)
               case CommitTx(v, _, _) => event == CommittedEvent(v.deal.nonce, v.deal.nonce in c.commitments)
               case BuyerTx(v, _, _) => event == CommittedEvent(v.deal.nonce, v.deal.nonce in c.commitments)
               case VerifyTx(n, logDigest, penalty) => event == VerifiedEvent(n, logDigest, penalty)
               case SettleTx(n) => n in c.commitments && event == SettledEvent(n, c.commitments[n].penalty)
               case RefundTx(n) => event == RefundedEvent(n)
               case ReclaimTx(n) => event == ReclaimedEvent(n)
  {}

  // ---- Runs -------------------------------------------------------------------------

  datatype Timed = Timed(tx: Tx, now: nat)

  function ChainAfter(c: Chain, txs: seq<Timed>): Chain {
    if txs == [] then c
    else
      var before := ChainAfter(c, txs[..|txs| - 1]);
      var last := txs[|txs| - 1];
      var o := Execute(before, last.tx, last.now);
      if o.Done? then o.chain else before
  }

  /** Over any transactions at any times: no coin appears or vanishes, each nonce is locked at most once, gets
      at most one verdict with a log digest, is closed at most once, and has then paid out its amount or
      given it back to the pool. */
  lemma {:induction false} EveryChainIsOk(txs: seq<Timed>)
    ensures ChainOk(ChainAfter(GENESIS, txs))
  {
    if txs == [] {
      UntouchedIsOk(GENESIS);
    } else {
      var n := |txs| - 1;
      EveryChainIsOk(txs[..n]);
      var before := ChainAfter(GENESIS, txs[..n]);
      if Execute(before, txs[n].tx, txs[n].now).Done? {
        ExecuteKeepsChain(before, txs[n].tx, txs[n].now);
      }
    }
  }

  lemma {:induction false} ChainAfterExtends(c: Chain, txs: seq<Timed>)
    ensures Extends(c, ChainAfter(c, txs))
  {
    if txs != [] {
      var init, last := txs[..|txs| - 1], txs[|txs| - 1];
      var before := ChainAfter(c, init);
      ChainAfterExtends(c, init);
      if Execute(before, last.tx, last.now).Done? {
        ExecuteExtends(before, last.tx, last.now);
      }
    }
  }

  lemma {:induction false} ChainAfterIsOk(c: Chain, txs: seq<Timed>)
    requires ChainOk(c)
    ensures ChainOk(ChainAfter(c, txs))
  {
    if txs != [] {
      var init, last := txs[..|txs| - 1], txs[|txs| - 1];
      var before := ChainAfter(c, init);
      ChainAfterIsOk(c, init);
      if Execute(before, last.tx, last.now).Done? {
        ExecuteKeepsChain(before, last.tx, last.now);
      }
    }
  }

  /** From a new commitment to its settlement, whatever happens in between: the settlement pays the voucher's provider
      address the price less the recorded penalty, its platform address the fee, and the buyer the penalty. */
  lemma VoucherIsPaidOut(c: Chain, tx: Tx, now: nat, txs: seq<Timed>, address: Text)
    requires ChainOk(c) && Makes(c, tx) && Execute(c, tx, now).Done?
    requires Settle(ChainAfter(Execute(c, tx, now).chain, txs), tx.voucher.deal.nonce).Done?
    ensures var v, d := tx.voucher, ChainAfter(Execute(c, tx, now).chain, txs);
            && v.deal.nonce in d.commitments
            && var penalty := d.commitments[v.deal.nonce].penalty;
               PaidTo(Settle(d, v.deal.nonce).chain.transfers, address) == PaidTo(d.transfers, address)
                 + (if address == v.provider then v.deal.amount - v.deal.fee - penalty else 0)
                 + (if address == v.platform then v.deal.fee else 0)
                 + (if address == tx.buyer then penalty else 0)
  {
    var made := Execute(c, tx, now).chain;
    var d, n := ChainAfter(made, txs), tx.voucher.deal.nonce;
    CommitRecords(c, tx, now);
    ExecuteKeepsChain(c, tx, now);
    ChainAfterIsOk(made, txs);
    ChainAfterExtends(made, txs);
    assert Later(made.commitments[n], d.commitments[n]);
    SettlePaysTheSplit(d, n, address);
  }

  /** And if it is reclaimed instead, its buyer gets everything back. */
  lemma VoucherIsReclaimed(c: Chain, tx: Tx, now: nat, txs: seq<Timed>, later: nat, address: Text)
    requires ChainOk(c) && Makes(c, tx) && Execute(c, tx, now).Done?
    requires Reclaim(ChainAfter(Execute(c, tx, now).chain, txs), tx.voucher.deal.nonce, later).Done?
    ensures var v, d := tx.voucher, ChainAfter(Execute(c, tx, now).chain, txs);
            && later >= v.deal.expiryMs
            && PaidTo(Reclaim(d, v.deal.nonce, later).chain.transfers, address)
               == PaidTo(d.transfers, address) + if address == tx.buyer then v.deal.amount else 0
  {
    var made := Execute(c, tx, now).chain;
    var d, n := ChainAfter(made, txs), tx.voucher.deal.nonce;
    CommitRecords(c, tx, now);
    ExecuteKeepsChain(c, tx, now);
    ChainAfterIsOk(made, txs);
    ChainAfterExtends(made, txs);
    assert Later(made.commitments[n], d.commitments[n]);
    ReclaimPaysTheBuyer(d, n, later, address);
  }

  /** After a verdict and whatever else happens, the contract takes another verdict on the same open
      commitment, at an acceptable penalty, exactly when the digest it has on record is empty; a verdict with
      a digest is therefore the last one, and one without does not stop the next. */
  lemma SecondVerdictIff(c: Chain, nonce: Text, first: Text, penalty: nat, txs: seq<Timed>, second: Text, other: nat)
    requires Verify(c, nonce, first, penalty).Done?
    ensures var d := ChainAfter(Verify(c, nonce, first, penalty).chain, txs);
            && nonce in d.commitments
            && var k := d.commitments[nonce];
               && (first != [] ==> k.logDigest == first && k.penalty == penalty)
               && (k.status == StatusCommitted && other + k.deal.fee < k.deal.amount ==>
                     (Verify(d, nonce, second, other).Done? <==> k.logDigest == []))
  {
    var b := Verify(c, nonce, first, penalty).chain;
    ChainAfterExtends(b, txs);
    assert Later(b.commitments[nonce], ChainAfter(b, txs).commitments[nonce]);
  }

  lemma OneMoreTx(c: Chain, txs: seq<Timed>, t: Timed, d: Chain)
    requires Execute(ChainAfter(c, txs), t.tx, t.now) == Done(d)
    ensures ChainAfter(c, txs + [t]) == d
  {
    assert (txs + [t])[..|txs|] == txs;
  }

  /** The contract takes this voucher for the first time. */
  predicate Acceptable(v: Voucher, authority: Authority) {
    && v.deal.fee < v.deal.amount && v.providerSigned && v.buyerSigned && v.deal.expiryMs > 0
    && authority.enabled && v.deal.amount <= authority.maxPerVoucher
  }

  /** A chain that takes two verdicts on one nonce: the first has an empty digest, and the second replaces its penalty. */
  lemma TwoVerdicts(v: Voucher, authority: Authority, buyer: Text, first: nat, logDigest: Text, second: nat) returns (txs: seq<Timed>)
    requires Acceptable(v, authority) && first + v.deal.fee < v.deal.amount && second + v.deal.fee < v.deal.amount
    ensures var c, n := ChainAfter(GENESIS, txs), v.deal.nonce;
            && c.log == [Funded(v.deal.amount), CommittedEvent(n, false), VerifiedEvent(n, [], first), VerifiedEvent(n, logDigest, second)]
            && n in c.commitments && c.commitments[n].penalty == second && c.commitments[n].logDigest == logDigest
  {
    var n := v.deal.nonce;
    var funded := Deposit(GENESIS, v.deal.amount);
    var committed := Commit(funded, v, authority, buyer, 0).chain;
    var judged := Verify(committed, n, [], first).chain;
    txs := [];
    OneMoreTx(GENESIS, txs, Timed(DepositTx(v.deal.amount), 0), funded);
    txs := txs + [Timed(DepositTx(v.deal.amount), 0)];
    OneMoreTx(GENESIS, txs, Timed(CommitTx(v, authority, buyer), 0), committed);
    txs := txs + [Timed(CommitTx(v, authority, buyer), 0)];
    OneMoreTx(GENESIS, txs, Timed(VerifyTx(n, [], first), 0), judged);
    txs := txs + [Timed(VerifyTx(n, [], first), 0)];
    OneMoreTx(GENESIS, txs, Timed(VerifyTx(n, logDigest, second), 0), Verify(judged, n, logDigest, second).chain);
    txs := txs + [Timed(VerifyTx(n, logDigest, second), 0)];
  }

  /** No run ever comes to a settlement it cannot pay, or a refund or reclaim it cannot find. */
  lemma ClosingNeverLacksFunds(c: Chain, nonce: Text)
    requires ChainOk(c) && nonce in c.commitments && c.commitments[nonce].status == StatusCommitted
    ensures Settle(c, nonce).Done? && Refund(c, nonce).Done?
    ensures forall now: nat :: Reclaim(c, nonce, now).Done? <==> now >= c.commitments[nonce].deal.expiryMs
  {
    assert NonceOk(c, nonce);
  }
}
