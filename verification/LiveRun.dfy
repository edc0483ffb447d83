/** One live run in the browser (frontend/src/store/useAppStore.ts): gateway events, the adoption of the
    selected offer, chain rows and timers race; every handler runs without interruption. Money is in cents. */
module LiveRun {
  import opened Units

  datatype Status =
    | Detected | ProviderSelected | Activating | EscrowLocked | Verifying | Restored | Failed | Noop

  /** `state.live`, present while the run is on. */
  datatype Live = Live(
    incidentId: Option<Text>,
    offer: Option<nat>,
    committed: bool,
    activationReported: bool,
    adopting: bool,
    chainOffline: bool)

  /** What the user is shown at the end. */
  datatype Result = Result(charged: nat, refund: nat)

  datatype Record = Record(ok: bool, charged: nat, refund: nat)

  datatype Payment = Payment(amount: nat, refund: nat)

  datatype Report = ReportAvailable | ReportFailed

  /** Where an adoption stands: asking for the offer, waiting for its commit, or over. */
  datatype Adoption = Polling | Committing | Over

  datatype State = State(
    live: Option<Live>,
    status: Status,
    result: Option<Result>,
    pending: Option<Result>,
    audited: bool,
    escrow: Option<nat>,
    cost: nat,
    balance: nat,
    records: seq<Record>,
    payments: seq<Payment>,
    adoptions: seq<Adoption>,
    offlineTimers: nat,
    reports: seq<Report>,
    seen: History)

  /** What has happened so far, kept only to state properties. */
  datatype History = History(commitsSent: nat, commitLanded: bool, graceFired: bool, finish: Option<Finish>)

  datatype Finish = Finish(ok: bool, committed: bool, offline: bool) | NothingNeeded

  /** The run as `beginLive` leaves it before the gateway has answered. */
  function Begin(balance: nat, cost: nat): State {
    State(Some(Live(None, None, false, false, false, false)), Detected, None, None, false, None, cost, balance,
          [], [], [], 0, [], History(0, false, false, None))
  }

  datatype GatewayStatus =
    | Querying | Selected | ActivatingNow | Available | NoRecoveryNeeded | AllActivationsFailed | FailedOutright

  datatype RowKind = SettledRow | ReturnedRow | AuditRow | OtherRow

  datatype Event =
    | Acknowledged(incidentId: Text)
    | Unreachable
    | Gateway(status: GatewayStatus)
    | OfferAnswered(adoption: nat, amount: nat)
    | PollingGaveUp(adoption: nat)
    | CommitDone(adoption: nat)
    | CommitFailed(adoption: nat)
    | OfflineTimer
    | GraceTimer
    | FeedRow(kind: RowKind)
    | StreamRow(kind: RowKind)

  // ---- Handlers --------------------------------------------------------------------------

  function Escrow(s: State): nat {
    s.escrow.GetOr(s.cost)
  }

  function AtLeastZero(x: int): nat {
    if x > 0 then x else 0
  }

  /** The record, the payment and the balance of a finish. */
  function Booked(s: State, ok: bool, charged: nat, refund: nat): State {
    s.(balance := AtLeastZero(s.balance - charged + refund),
       records := s.records + [Record(ok, charged, refund)],
       payments := (if charged > 0 || refund > 0 then [Payment(charged, if ok then refund else charged)] else []) + s.payments)
  }

  /** What the user sees of a finish, now or, when it is held back, once the audit has landed. */
  function Shown(s: State, ok: bool, held: bool, outcome: Result): State {
    if held then s.(status := Verifying, pending := Some(outcome))
    else s.(status := if ok then Restored else Failed, result := Some(outcome))
  }

  /** `finishLive`: the first one wins, the others find no run. */
  function FinishLive(s: State, ok: bool): State {
    if s.live.None? then s
    else
      var l := s.live.value;
      var charged: nat := if ok then Escrow(s) else 0;
      var refund: nat := if !ok && l.committed then Escrow(s) else 0;
      var held := ok && !l.chainOffline && !s.audited;
      Shown(Booked(s.(live := None), ok, charged, refund), ok, held, Result(charged, refund))
        .(seen := s.seen.(finish := Some(Finish(ok, l.committed, l.chainOffline))))
  }

  function FinishNoRecovery(s: State): State {
    if s.live.None? then s
    else s.(live := None, status := Noop, result := Some(Result(0, 0)), seen := s.seen.(finish := Some(NothingNeeded)))
  }

  function FlushPending(s: State): State {
    if s.pending.None? then s
    else if s.result.Some? then s.(pending := None)
    else s.(pending := None, status := Restored, result := s.pending)
  }

  function StartAdoption(s: State): State {
    if s.live.None? || s.live.value.adopting || s.live.value.offer.Some? then s
    else s.(live := Some(s.live.value.(adopting := true)), adoptions := s.adoptions + [Polling])
  }

  /** `reportActivationWhenCommitted` */
  function ReportWhenCommitted(s: State): State {
    if s.live.None? || s.live.value.activationReported then s
    else if !s.live.value.committed || s.live.value.incidentId.None? then s
    else s.(live := Some(s.live.value.(activationReported := true)), reports := s.reports + [ReportAvailable])
  }

  function OnGateway(s: State, status: GatewayStatus): State {
    if s.live.None? || s.result.Some? then s
    else
      match status
      case Querying => s.(status := Detected)
      case Selected =>
        var t := s.(status := ProviderSelected);
        if s.live.value.incidentId.Some? then StartAdoption(t) else t
      case ActivatingNow => s.(status := Activating)
      case Available =>
        var t := s.(status := Verifying);
        var u := if s.live.value.offer.None? && s.live.value.incidentId.Some? then StartAdoption(t) else t;
        ReportWhenCommitted(u)
      case NoRecoveryNeeded => FinishNoRecovery(s)
      case AllActivationsFailed =>
        if s.live.value.committed && s.live.value.incidentId.Some? then s.(reports := s.reports + [ReportFailed])
        else FinishLive(s, false)
      case FailedOutright => FinishLive(s, false)
  }

  /** The offer arrives: unless the run is over or has an offer, it is adopted and its commit is sent. */
  function OnOffer(s: State, i: nat, amount: nat): State
    requires i < |s.adoptions|
  {
    if s.live.None? then s.(adoptions := s.adoptions[i := Over])
    else
      var l := s.live.value.(adopting := false);
      if l.offer.Some? then s.(live := Some(l), adoptions := s.adoptions[i := Over]) else Adopted(s, l, i, amount)
  }

  function Adopted(s: State, l: Live, i: nat, amount: nat): State
    requires i < |s.adoptions|
  {
    s.(live := Some(l.(offer := Some(amount))), escrow := Some(amount), status := EscrowLocked,
       adoptions := s.adoptions[i := Committing], seen := s.seen.(commitsSent := s.seen.commitsSent + 1))
  }

  function OnGiveUp(s: State, i: nat): State
    requires i < |s.adoptions|
  {
    var t := s.(adoptions := s.adoptions[i := Over]);
    if s.live.None? then t else t.(live := Some(s.live.value.(adopting := false)))
  }

  /** The commit lands: it is recorded, and the activation is reported there and then. */
  function OnCommitDone(s: State, i: nat): State
    requires i < |s.adoptions|
  {
    var t := s.(adoptions := s.adoptions[i := Over], seen := s.seen.(commitLanded := true));
    if s.live.None? then t
    else ReportWhenCommitted(t.(live := Some(s.live.value.(committed := true))))
  }

  function OnCommitFailed(s: State, i: nat): State
    requires i < |s.adoptions|
  {
    var t := s.(adoptions := s.adoptions[i := Over]);
    if s.live.None? then t
    else t.(live := Some(s.live.value.(chainOffline := true)),
            offlineTimers := s.offlineTimers + if s.status == Verifying then 1 else 0)
  }

  /** A row of the run's own stream, or a settlement event of the gateway. */
  function OnChainRow(s: State, kind: RowKind): State {
    if s.live.None? then s
    else
      var t := if kind == AuditRow then FlushPending(s) else s;
      match kind
      case SettledRow => FinishLive(t, true)
      case ReturnedRow => FinishLive(t, false)
      case _ => t
  }

  /** An event that cannot happen now changes nothing. */
  function Next(s: State, e: Event): State {
    match e
    case Acknowledged(id) => if s.live.Some? then s.(live := Some(s.live.value.(incidentId := Some(id)))) else s
    case Unreachable => FinishLive(s, false)
    case Gateway(status) => OnGateway(s, status)
    case OfferAnswered(i, amount) => if i < |s.adoptions| && s.adoptions[i] == Polling then OnOffer(s, i, amount) else s
    case PollingGaveUp(i) => if i < |s.adoptions| && s.adoptions[i] == Polling then OnGiveUp(s, i) else s
    case CommitDone(i) => if i < |s.adoptions| && s.adoptions[i] == Committing then OnCommitDone(s, i) else s
    case CommitFailed(i) => if i < |s.adoptions| && s.adoptions[i] == Committing then OnCommitFailed(s, i) else s
    case OfflineTimer => if s.offlineTimers > 0 then FinishLive(s.(offlineTimers := s.offlineTimers - 1), true) else s
    case GraceTimer =>
      if s.pending.Some? then FlushPending(s.(seen := s.seen.(graceFired := true))) else s
    case FeedRow(kind) => if kind == AuditRow then FlushPending(s.(audited := true)) else s
    case StreamRow(kind) => OnChainRow(s, kind)
  }

  function Run(s: State, events: seq<Event>): State {
    if events == [] then s else Next(Run(s, events[..|events| - 1]), events[|events| - 1])
  }

  // ---- The store that carries the run ------------------------------------------------------------

  class Store {
    var live: Option<Live>
    var status: Status
    var result: Option<Result>
    var pending: Option<Result>
    var audited: bool
    var escrow: Option<nat>
    var cost: nat
    var balance: nat
    var records: seq<Record>
    var payments: seq<Payment>
    var adoptions: seq<Adoption>
    var offlineTimers: nat
    var reports: seq<Report>
    ghost var seen: History

    ghost function Abstract(): State
      reads this
    {
      State(live, status, result, pending, audited, escrow, cost, balance, records, payments, adoptions, offlineTimers, reports, seen)
    }

    constructor BeginLive(balance: nat, cost: nat)
      ensures Abstract() == Begin(balance, cost)
    {
      this.live := Some(Live(None, None, false, false, false, false));
      this.status, this.result, this.pending := Detected, None, None;
      this.audited, this.escrow := false, None;
      this.balance, this.cost := balance, cost;
      this.records, this.payments, this.adoptions, this.reports := [], [], [], [];
      this.offlineTimers := 0;
      this.seen := History(0, false, false, None);
    }

    /** The record, the payment and the balance of a finish. */
    method Book(ok: bool, charged: nat, refund: nat)
      modifies this`records, this`payments, this`balance
      ensures Abstract() == Booked(old(Abstract()), ok, charged, refund)
    {
      records := records + [Record(ok, charged, refund)];
      if charged > 0 || refund > 0 {
        payments := [Payment(charged, if ok then refund else charged)] + payments;
      }
      balance := AtLeastZero(balance - charged + refund);
    }

    /** What the user sees of a finish, now or once the audit has landed. */
    method Show(ok: bool, waitAudit: bool, outcome: Result)
      modifies this`status, this`result, this`pending
      ensures Abstract() == Shown(old(Abstract()), ok, waitAudit, outcome)
    {
      if waitAudit {
        status, pending := Verifying, Some(outcome);
      } else {
        status, result := if ok then Restored else Failed, Some(outcome);
      }
    }

    method FinishRun(ok: bool)
      modifies this
      ensures Abstract() == FinishLive(old(Abstract()), ok)
    {
      if live.None? {
        return;
      }
      var snapshot := live.value;
      var amount := escrow.GetOr(cost);
      var charged: nat := if ok then amount else 0;
      var refund: nat := if !ok && snapshot.committed then amount else 0;
      var waitAudit := ok && !snapshot.chainOffline && !audited;
      live := None;
      Book(ok, charged, refund);
      Show(ok, waitAudit, Result(charged, refund));
      seen := seen.(finish := Some(Finish(ok, snapshot.committed, snapshot.chainOffline)));
    }

    method FinishWithoutRecovery()
      modifies this
      ensures Abstract() == FinishNoRecovery(old(Abstract()))
    {
      if live.Some? {
        live := None;
        status := Noop;
        result := Some(Result(0, 0));
        seen := seen.(finish := Some(NothingNeeded));
      }
    }

    method Flush()
      modifies this
      ensures Abstract() == FlushPending(old(Abstract()))
    {
      if pending.None? {
        return;
      }
      var p := pending;
      pending := None;
      if result.None? {
        status := Restored;
        result := p;
      }
    }

    method AdoptSelectedOffer()
      modifies this
      ensures Abstract() == StartAdoption(old(Abstract()))
    {
      if live.None? || live.value.adopting || live.value.offer.Some? {
        return;
      }
      live := Some(live.value.(adopting := true));
      adoptions := adoptions + [Polling];
    }

    method ReportActivation()
      modifies this
      ensures Abstract() == ReportWhenCommitted(old(Abstract()))
    {
      if live.None? || live.value.activationReported {
        return;
      }
      if !live.value.committed || live.value.incidentId.None? {
        return;
      }
      live := Some(live.value.(activationReported := true));
      reports := reports + [ReportAvailable];
    }

    method OnGatewayEvent(update: GatewayStatus)
      modifies this
      ensures Abstract() == OnGateway(old(Abstract()), update)
    {
      if live.None? || result.Some? {
        return;
      }
      match update {
        case Querying => status := Detected;
        case Selected =>
          status := ProviderSelected;
          if live.value.incidentId.Some? {
            AdoptSelectedOffer();
          }
        case ActivatingNow => status := Activating;
        case Available =>
          status := Verifying;
          if live.value.offer.None? && live.value.incidentId.Some? {
            AdoptSelectedOffer();
          }
          ReportActivation();
        case NoRecoveryNeeded => FinishWithoutRecovery();
        case AllActivationsFailed =>
          if live.value.committed && live.value.incidentId.Some? {
            reports := reports + [ReportFailed];
          } else {
            FinishRun(false);
          }
        case FailedOutright => FinishRun(false);
      }
    }

    /** `adoptSelectedOffer` once the gateway has an offer. */
    method OfferArrives(i: nat, amount: nat)
      requires i < |adoptions| && adoptions[i] == Polling
      modifies this
      ensures Abstract() == OnOffer(old(Abstract()), i, amount)
    {
      if live.None? {
        adoptions := adoptions[i := Over];
        return;
      }
      var current := live.value.(adopting := false);
      if current.offer.Some? {
        live, adoptions := Some(current), adoptions[i := Over];
        return;
      }
      Adopt(current, i, amount);
    }

    /** The offer is taken and its commit is sent. */
    method Adopt(current: Live, i: nat, amount: nat)
      requires i < |adoptions|
      modifies this
      ensures Abstract() == Adopted(old(Abstract()), current, i, amount)
    {
      live := Some(current.(offer := Some(amount)));
      escrow := Some(amount);
      status := EscrowLocked;
      adoptions := adoptions[i := Committing];
      seen := seen.(commitsSent := seen.commitsSent + 1);
    }

    method CommitLands(i: nat)
      requires i < |adoptions| && adoptions[i] == Committing
      modifies this
      ensures Abstract() == OnCommitDone(old(Abstract()), i)
    {
      adoptions := adoptions[i := Over];
      seen := seen.(commitLanded := true);
      if live.Some? {
        live := Some(live.value.(committed := true));
        ReportActivation();
      }
    }

    method CommitThrows(i: nat)
      requires i < |adoptions| && adoptions[i] == Committing
      modifies this
      ensures Abstract() == OnCommitFailed(old(Abstract()), i)
    {
      adoptions := adoptions[i := Over];
      if live.Some? {
        live := Some(live.value.(chainOffline := true));
        if status == Verifying {
          offlineTimers := offlineTimers + 1;
        }
      }
    }

    method OnRow(kind: RowKind)
      modifies this
      ensures Abstract() == OnChainRow(old(Abstract()), kind)
    {
      if live.None? {
        return;
      }
      if kind == AuditRow && pending.Some? {
        Flush();
      }
      if kind == SettledRow {
        FinishRun(true);
      } else if kind == ReturnedRow {
        FinishRun(false);
      }
    }
  }

  // ---- What every run keeps ---------------------------------------------------------------------

  function Count(reports: seq<Report>, r: Report): nat {
    if reports == [] then 0
    else Count(reports[..|reports| - 1], r) + (if reports[|reports| - 1] == r then 1 else 0)
  }

  lemma CountMore(reports: seq<Report>, x: Report, r: Report)
    ensures Count(reports + [x], r) == Count(reports, r) + if x == r then 1 else 0
  {
    assert (reports + [x])[..|reports|] == reports;
  }

  /** While the run is on nothing has been recorded, paid or shown. */
  predicate Untouched(s: State, balance: nat) {
    s.records == [] && s.payments == [] && s.balance == balance && s.result.None? && s.pending.None? && s.seen.finish.None?
  }

  /** One finish: one record, at most one payment, one change of balance. */
  predicate Closed(s: State, balance: nat) {
    && s.seen.finish.Some?
    && match s.seen.finish.value
       case NothingNeeded => s.records == [] && s.payments == [] && s.balance == balance
       case Finish(ok, committed, _) =>
         var charged: nat := if ok then Escrow(s) else 0;
         var refund: nat := if !ok && committed then Escrow(s) else 0;
         && s.records == [Record(ok, charged, refund)]
         && s.payments == (if charged > 0 || refund > 0 then [Payment(charged, 0)] else [])
         && s.balance == AtLeastZero(balance - charged + refund)
  }

  /** The restored result is held back until one of its three reasons has come. */
  predicate ShownForAReason(s: State) {
    && (s.pending.Some? ==> Succeeded(s) && s.status == Verifying && s.result.None?)
    && (s.status == Restored ==>
          Succeeded(s) && s.result.Some? && (s.audited || s.seen.finish.value.offline || s.seen.graceFired))
  }

  predicate Succeeded(s: State) {
    s.seen.finish.Some? && s.seen.finish.value.Finish? && s.seen.finish.value.ok
  }

  predicate ReportsOk(s: State) {
    var available := Count(s.reports, ReportAvailable);
    && available <= 1 && (available == 1 ==> s.seen.commitLanded)
    && (s.live.Some? ==> (s.live.value.activationReported <==> available == 1))
    && (s.live.Some? && s.live.value.committed ==> s.seen.commitLanded)
  }

  predicate CommitsOk(s: State) {
    s.seen.commitsSent <= 1 && (s.live.Some? ==> s.seen.commitsSent == if s.live.value.offer.Some? then 1 else 0)
  }

  predicate Inv(s: State, balance: nat) {
    && (s.live.Some? ==> Untouched(s, balance)) && (s.live.None? ==> Closed(s, balance))
    && ShownForAReason(s) && ReportsOk(s) && CommitsOk(s)
  }

  lemma FinishKeeps(s: State, ok: bool, balance: nat)
    requires Inv(s, balance)
    ensures Inv(FinishLive(s, ok), balance) && Inv(FinishNoRecovery(s), balance)
  {}

  lemma FlushKeeps(s: State, balance: nat)
    requires Inv(s, balance) && (s.audited || s.seen.graceFired)
    ensures Inv(FlushPending(s), balance)
  {}

  lemma AdoptionKeeps(s: State, balance: nat)
    requires Inv(s, balance)
    ensures Inv(StartAdoption(s), balance) && StartAdoption(s).seen == s.seen
  {}

  lemma ReportKeeps(s: State, balance: nat)
    requires Inv(s, balance)
    ensures Inv(ReportWhenCommitted(s), balance)
  {
    CountMore(s.reports, ReportAvailable, ReportAvailable);
  }

  /** While the run is on, its status may move to anything but the restored one. */
  lemma StatusKeeps(s: State, status: Status, balance: nat)
    requires Inv(s, balance) && s.live.Some? && status != Restored
    ensures Inv(s.(status := status), balance)
  {}

  lemma GatewayKeeps(s: State, update: GatewayStatus, balance: nat)
    requires Inv(s, balance)
    ensures Inv(OnGateway(s, update), balance)
  {
    if s.live.Some? && s.result.None? {
      match update
      case Querying => StatusKeeps(s, Detected, balance);
      case Selected =>
        StatusKeeps(s, ProviderSelected, balance);
        AdoptionKeeps(s.(status := ProviderSelected), balance);
      case ActivatingNow => StatusKeeps(s, Activating, balance);
      case Available =>
        var t := s.(status := Verifying);
        StatusKeeps(s, Verifying, balance);
        AdoptionKeeps(t, balance);
        ReportKeeps(t, balance);
        ReportKeeps(StartAdoption(t), balance);
      case AllActivationsFailed =>
        CountMore(s.reports, ReportFailed, ReportAvailable);
        FinishKeeps(s, false, balance);
      case _ => FinishKeeps(s, false, balance);
    }
  }

  lemma CommitKeeps(s: State, i: nat, balance: nat)
    requires Inv(s, balance) && i < |s.adoptions|
    ensures Inv(OnCommitDone(s, i), balance) && Inv(OnCommitFailed(s, i), balance)
  {
    var t := s.(adoptions := s.adoptions[i := Over], seen := s.seen.(commitLanded := true));
    if s.live.Some? {
      ReportKeeps(t.(live := Some(s.live.value.(committed := true))), balance);
    }
  }

  lemma OfferKeeps(s: State, i: nat, amount: nat, balance: nat)
    requires Inv(s, balance) && i < |s.adoptions|
    ensures Inv(OnOffer(s, i, amount), balance) && Inv(OnGiveUp(s, i), balance)
  {}

  lemma AdoptionStepKeeps(s: State, e: Event, balance: nat)
    requires Inv(s, balance) && (e.OfferAnswered? || e.PollingGaveUp? || e.CommitDone? || e.CommitFailed?)
    ensures Inv(Next(s, e), balance)
  {
    match e
    case OfferAnswered(i, amount) => if i < |s.adoptions| { OfferKeeps(s, i, amount, balance); }
    case PollingGaveUp(i) => if i < |s.adoptions| { OfferKeeps(s, i, 0, balance); }
    case CommitDone(i) => if i < |s.adoptions| { CommitKeeps(s, i, balance); }
    case CommitFailed(i) => if i < |s.adoptions| { CommitKeeps(s, i, balance); }
  }

  lemma StepKeeps(s: State, e: Event, balance: nat)
    requires Inv(s, balance)
    ensures Inv(Next(s, e), balance)
  {
    match e
    case Unreachable => FinishKeeps(s, false, balance);
    case Gateway(update) => GatewayKeeps(s, update, balance);
    case OfferAnswered(_, _) => AdoptionStepKeeps(s, e, balance);
    case PollingGaveUp(_) => AdoptionStepKeeps(s, e, balance);
    case CommitDone(_) => AdoptionStepKeeps(s, e, balance);
    case CommitFailed(_) => AdoptionStepKeeps(s, e, balance);
    case OfflineTimer => if s.offlineTimers > 0 { FinishKeeps(s.(offlineTimers := s.offlineTimers - 1), true, balance); }
    case GraceTimer => if s.pending.Some? { FlushKeeps(s.(seen := s.seen.(graceFired := true)), balance); }
    case FeedRow(kind) => if kind == AuditRow { FlushKeeps(s.(audited := true), balance); }
    case StreamRow(kind) => RowKeeps(s, kind, balance);
    case _ =>
  }

  lemma RowKeeps(s: State, kind: RowKind, balance: nat)
    requires Inv(s, balance)
    ensures Inv(OnChainRow(s, kind), balance)
  {
    FinishKeeps(s, kind == SettledRow, balance);
  }

  /** In any interleaving of one run: AVAILABLE is reported at most once and only after the commit landed; at
      most one commit is sent; at most one finish takes effect, with one record, at most one payment and one
      change of balance; the restored result is shown only after the audit landed, the chain was found
      offline, or the grace timer fired. */
  lemma {:induction false} EveryRunIsOrderly(balance: nat, cost: nat, events: seq<Event>)
    ensures Inv(Run(Begin(balance, cost), events), balance)
  {
    if events != [] {
      EveryRunIsOrderly(balance, cost, events[..|events| - 1]);
      StepKeeps(Run(Begin(balance, cost), events[..|events| - 1]), events[|events| - 1], balance);
    }
  }

  // ---- What ends a run, and how -------------------------------------------------------------------------

  /** While the run is on, its escrow is the amount of the offer it adopted. */
  predicate EscrowIsTheOffer(s: State) {
    s.live.Some? ==> s.escrow == s.live.value.offer
  }

  lemma GatewayKeepsEscrow(s: State, update: GatewayStatus)
    requires EscrowIsTheOffer(s)
    ensures EscrowIsTheOffer(OnGateway(s, update))
  {}

  lemma StepKeepsEscrow(s: State, e: Event)
    requires EscrowIsTheOffer(s)
    ensures EscrowIsTheOffer(Next(s, e))
  {
    match e
    case Gateway(update) => GatewayKeepsEscrow(s, update);
    case _ =>
  }

  lemma {:induction false} EscrowStays(balance: nat, cost: nat, events: seq<Event>)
    ensures EscrowIsTheOffer(Run(Begin(balance, cost), events))
  {
    if events != [] {
      EscrowStays(balance, cost, events[..|events| - 1]);
      StepKeepsEscrow(Run(Begin(balance, cost), events[..|events| - 1]), events[|events| - 1]);
    }
  }

  lemma StepKeepsCost(s: State, e: Event)
    ensures Next(s, e).cost == s.cost
  {}

  /** The planned cost never changes. */
  lemma {:induction false} CostStays(s: State, events: seq<Event>)
    ensures Run(s, events).cost == s.cost
  {
    if events != [] {
      CostStays(s, events[..|events| - 1]);
      StepKeepsCost(Run(s, events[..|events| - 1]), events[|events| - 1]);
    }
  }

  /** What a run is worth: the adopted offer's amount, or the planned cost where none has been adopted. */
  function Worth(s: State): nat
    requires s.live.Some?
  {
    if s.live.value.offer.Some? then s.live.value.offer.value else s.cost
  }

  /** The books and the screen after a run that was on, at this balance, has ended well: its worth is charged, and the
      result is shown at once if the audit has landed or the chain is offline, and otherwise held back. */
  predicate EndedWell(s: State, t: State, balance: nat)
    requires s.live.Some?
  {
    var charged := Worth(s);
    && t.live.None? && t.records == [Record(true, charged, 0)]
    && t.payments == (if charged > 0 then [Payment(charged, 0)] else [])
    && t.balance == (if charged < balance then balance - charged else 0)
    && (if s.audited || s.live.value.chainOffline
        then t.status == Restored && t.result == Some(Result(charged, 0)) && t.pending.None?
        else t.status == Verifying && t.result.None? && t.pending == Some(Result(charged, 0)))
  }

  /** The same for a run that has failed: what had been committed is refunded, and the result is shown at once. */
  predicate EndedBadly(s: State, t: State, balance: nat)
    requires s.live.Some?
  {
    var refund := if s.live.value.committed then Worth(s) else 0;
    && t.live.None? && t.records == [Record(false, 0, refund)]
    && t.payments == (if refund > 0 then [Payment(0, 0)] else [])
    && t.balance == balance + refund
    && t.status == Failed && t.result == Some(Result(0, refund)) && t.pending.None?
  }

  /** And for one that turned out not to be needed. */
  predicate EndedUnneeded(t: State, balance: nat) {
    && t.live.None? && t.records == [] && t.payments == [] && t.balance == balance
    && t.status == Noop && t.result == Some(Result(0, 0)) && t.pending.None?
  }

  /** The events that end a run well: its settlement on the chain, or the timer armed when the chain was lost. */
  predicate Succeeds(s: State, e: Event) {
    e == StreamRow(SettledRow) || (e.OfflineTimer? && s.offlineTimers > 0)
  }

  /** Those that end it badly: the gateway is unreachable or has failed, the chain returns the money, or every activation
      failed and there is nothing on the chain to refund. */
  predicate Fails(s: State, e: Event)
    requires s.live.Some?
  {
    || e.Unreachable? || e == Gateway(FailedOutright) || e == StreamRow(ReturnedRow)
    || (e == Gateway(AllActivationsFailed) && !(s.live.value.committed && s.live.value.incidentId.Some?))
  }

  /** In every run that is on: exactly which events end it, and what is then booked and shown. */
  lemma WhatEndsARun(balance: nat, cost: nat, events: seq<Event>, e: Event)
    requires Run(Begin(balance, cost), events).live.Some?
    ensures var s := Run(Begin(balance, cost), events);
            var t := Next(s, e);
            && s.cost == cost
            && (t.live.None? <==> Succeeds(s, e) || Fails(s, e) || e == Gateway(NoRecoveryNeeded))
            && (Succeeds(s, e) ==> EndedWell(s, t, balance))
            && (Fails(s, e) ==> EndedBadly(s, t, balance))
            && (e == Gateway(NoRecoveryNeeded) ==> EndedUnneeded(t, balance))
  {
    var s := Run(Begin(balance, cost), events);
    EveryRunIsOrderly(balance, cost, events);
    EscrowStays(balance, cost, events);
    CostStays(Begin(balance, cost), events);
    WhichEventsEnd(s, e);
    if Succeeds(s, e) {
      SuccessBooks(s, e, balance);
    } else if Fails(s, e) {
      FailureBooks(s, e, balance);
    }
  }

  lemma WhichEventsEnd(s: State, e: Event)
    requires s.live.Some? && s.result.None?
    ensures Next(s, e).live.None? <==> Succeeds(s, e) || Fails(s, e) || e == Gateway(NoRecoveryNeeded)
  {
    match e
    case Gateway(update) => assert Next(s, e) == OnGateway(s, update);
    case StreamRow(kind) => assert Next(s, e) == OnChainRow(s, kind);
    case _ =>
  }

  lemma FinishBooks(s: State, balance: nat)
    requires s.live.Some? && Untouched(s, balance) && EscrowIsTheOffer(s)
    ensures EndedWell(s, FinishLive(s, true), balance)
  {}

  lemma SuccessBooks(s: State, e: Event, balance: nat)
    requires s.live.Some? && Untouched(s, balance) && EscrowIsTheOffer(s) && Succeeds(s, e)
    ensures EndedWell(s, Next(s, e), balance)
  {
    if e.OfflineTimer? {
      FinishBooks(s.(offlineTimers := s.offlineTimers - 1), balance);
    } else {
      FinishBooks(s, balance);
    }
  }

  lemma FailureBooks(s: State, e: Event, balance: nat)
    requires s.live.Some? && Untouched(s, balance) && EscrowIsTheOffer(s) && Fails(s, e)
    ensures EndedBadly(s, Next(s, e), balance)
  {}

  /** A SETTLED row of the run's stream therefore ends it well, charging what it adopted. */
  lemma ASettledRowEndsItWell(balance: nat, cost: nat, events: seq<Event>)
    requires Run(Begin(balance, cost), events).live.Some?
    ensures EndedWell(Run(Begin(balance, cost), events), Next(Run(Begin(balance, cost), events), StreamRow(SettledRow)), balance)
  {
    WhatEndsARun(balance, cost, events, StreamRow(SettledRow));
  }

  /** A result held back is shown exactly when the audit's row comes in on the feed, or the grace timer fires, and it is
      then the one that was held. */
  lemma HeldResultIsShownIff(s: State, e: Event)
    requires s.live.None? && s.pending.Some? && s.result.None?
    ensures Next(s, e).result.Some? <==> e == FeedRow(AuditRow) || e.GraceTimer?
    ensures Next(s, e).result.Some? ==> Next(s, e).result == s.pending && Next(s, e).status == Restored && Next(s, e).pending.None?
    ensures Next(s, e).result.None? ==> Next(s, e).pending == s.pending
  {}

  lemma StepAudits(s: State, e: Event)
    ensures Next(s, e).audited <==> s.audited || e == FeedRow(AuditRow)
  {}

  /** The audit has landed exactly when its row has come in on the feed. */
  lemma {:induction false} AuditedIff(s: State, events: seq<Event>)
    ensures Run(s, events).audited <==> s.audited || FeedRow(AuditRow) in events
  {
    if events != [] {
      var init, last := events[..|events| - 1], events[|events| - 1];
      AuditedIff(s, init);
      StepAudits(Run(s, init), last);
      assert events == init + [last];
    }
  }

  lemma StepAcknowledges(s: State, e: Event)
    ensures Next(s, e).live.Some? ==>
              s.live.Some? && (Next(s, e).live.value.incidentId.Some? <==> s.live.value.incidentId.Some? || e.Acknowledged?)
  {
    match e
    case Gateway(update) => assert Next(s, e) == OnGateway(s, update);
    case _ =>
  }

  /** A run that is on knows its incident exactly when the gateway has acknowledged it. */
  lemma {:induction false} AcknowledgedIff(balance: nat, cost: nat, events: seq<Event>)
    requires Run(Begin(balance, cost), events).live.Some?
    ensures Run(Begin(balance, cost), events).live.value.incidentId.Some?
       <==> exists i :: 0 <= i < |events| && events[i].Acknowledged?
  {
    if events != [] {
      var init, last := events[..|events| - 1], events[|events| - 1];
      StepAcknowledges(Run(Begin(balance, cost), init), last);
      AcknowledgedIff(balance, cost, init);
      assert forall i :: 0 <= i < |init| ==> init[i] == events[i];
    }
  }

  /** An adoption that gives up leaves the run free to ask again. */
  lemma GivingUpFreesTheRun(s: State, i: nat)
    requires i < |s.adoptions| && s.adoptions[i] == Polling && s.live.Some?
    ensures var t := Next(s, PollingGaveUp(i));
            && t.live.Some? && !t.live.value.adopting && t.adoptions[i] == Over
            && (s.result.None? && t.live.value.incidentId.Some? && t.live.value.offer.None? ==> TimeToAdopt(t, Gateway(Selected)))
  {}

  // ---- What the gateway's word does ------------------------------------------------------------------------

  /** What the user is shown while the run goes on. */
  lemma StatusFollowsTheGateway(s: State)
    requires s.live.Some? && s.result.None?
    ensures Next(s, Gateway(Querying)).status == Detected && Next(s, Gateway(Selected)).status == ProviderSelected
    ensures Next(s, Gateway(ActivatingNow)).status == Activating && Next(s, Gateway(Available)).status == Verifying
  {}

  /** It is time to ask the gateway for the offer: it has said SELECTED, or AVAILABLE, in an acknowledged run that has no
      offer and is not asking already. */
  predicate TimeToAdopt(s: State, e: Event) {
    && (e == Gateway(Selected) || e == Gateway(Available))
    && s.live.Some? && s.result.None? && s.live.value.incidentId.Some? && s.live.value.offer.None? && !s.live.value.adopting
  }

  /** Exactly when an adoption starts. */
  lemma AdoptionStartsIff(s: State, e: Event)
    ensures |Next(s, e).adoptions| == |s.adoptions| + if TimeToAdopt(s, e) then 1 else 0
    ensures TimeToAdopt(s, e) ==> Next(s, e).adoptions == s.adoptions + [Polling] && Next(s, e).live.value.adopting
  {
    match e
    case Gateway(update) => assert Next(s, e) == OnGateway(s, update);
    case _ =>
  }

  /** An offer that answers an adoption is taken, and its commit sent, exactly when the run is on and has none. */
  lemma OfferIsTakenIff(s: State, i: nat, amount: nat)
    requires i < |s.adoptions| && s.adoptions[i] == Polling
    ensures var t := Next(s, OfferAnswered(i, amount));
            && (t.adoptions[i] == Committing <==> s.live.Some? && s.live.value.offer.None?)
            && (t.adoptions[i] == Committing ==>
                  t.live.Some? && t.live.value.offer == Some(amount) && t.escrow == Some(amount) && t.status == EscrowLocked
                  && t.seen.commitsSent == s.seen.commitsSent + 1)
            && (t.adoptions[i] != Committing ==> t.adoptions[i] == Over && t.seen == s.seen)
  {}

  /** A failed activation is reported for a refund exactly when every activation failed in a run that has committed. */
  lemma ReportsFailedIff(s: State, e: Event)
    ensures Count(Next(s, e).reports, ReportFailed) == Count(s.reports, ReportFailed)
      + if e == Gateway(AllActivationsFailed) && s.live.Some? && s.result.None? && s.live.value.committed && s.live.value.incidentId.Some?
        then 1 else 0
  {
    CountMore(s.reports, ReportFailed, ReportFailed);
    CountMore(s.reports, ReportAvailable, ReportFailed);
    match e
    case Gateway(update) => assert Next(s, e) == OnGateway(s, update);
    case _ =>
  }

  // ---- Consequences, and where the run does not do what it says ----------------------------------------

  /** Once the run is closed, nothing it does later changes a record, a payment or the balance. */
  lemma {:induction false} ClosedStaysClosed(s: State, events: seq<Event>)
    requires s.live.None?
    ensures var t := Run(s, events);
            t.live.None? && t.records == s.records && t.payments == s.payments && t.balance == s.balance && t.reports == s.reports
  {
    if events != [] {
      ClosedStaysClosed(s, events[..|events| - 1]);
    }
  }

  /** A failed run gives the escrow back to a balance it was never taken from: the balance is unchanged
      exactly when nothing had been committed, or the escrow is zero. */
  lemma FailedRunBalance(balance: nat, cost: nat, events: seq<Event>)
    requires var f := Run(Begin(balance, cost), events).seen.finish; f.Some? && f.value.Finish? && !f.value.ok
    ensures var s := Run(Begin(balance, cost), events);
            && s.balance == balance + (if s.seen.finish.value.committed then Escrow(s) else 0)
            && (s.balance == balance <==> !s.seen.finish.value.committed || Escrow(s) == 0)
  {
    EveryRunIsOrderly(balance, cost, events);
  }

  /** Such a run: the offer is committed, then the chain returns the money; the balance has grown by the escrow. */
  lemma AFailedRunGainsMoney(balance: nat, cost: nat, id: Text, amount: nat) returns (events: seq<Event>)
    ensures var s := Run(Begin(balance, cost), events);
            s.seen.finish == Some(Finish(false, true, false)) && s.balance == balance + amount
  {
    events := UntilCommitSent(id, amount);
    CommitIsSent(balance, cost, id, amount);
    var s := Run(Begin(balance, cost), events);
    OneMore(Begin(balance, cost), events, CommitDone(0));
    events := events + [CommitDone(0)];
    OneMore(Begin(balance, cost), events, StreamRow(ReturnedRow));
    events := events + [StreamRow(ReturnedRow)];
  }

  lemma OneMore(s: State, events: seq<Event>, e: Event)
    ensures Run(s, events + [e]) == Next(Run(s, events), e)
  {
    assert (events + [e])[..|events|] == events;
  }

  function UntilCommitSent(id: Text, amount: nat): seq<Event> {
    [Acknowledged(id)] + [Gateway(Selected)] + [OfferAnswered(0, amount)]
  }

  /** The offer has been adopted and its commit sent. */
  lemma CommitIsSent(balance: nat, cost: nat, id: Text, amount: nat)
    ensures Run(Begin(balance, cost), UntilCommitSent(id, amount))
         == Begin(balance, cost).(live := Some(Live(Some(id), Some(amount), false, false, false, false)), status := EscrowLocked,
                                  escrow := Some(amount), adoptions := [Committing], seen := History(1, false, false, None))
  {
    var s := Begin(balance, cost);
    var known := s.(live := Some(Live(Some(id), None, false, false, false, false)));
    var asked := s.(live := Some(Live(Some(id), None, false, false, true, false)), status := ProviderSelected, adoptions := [Polling]);
    assert Next(s, Acknowledged(id)) == known;
    assert Next(known, Gateway(Selected)) == asked;
    OfferIsTaken(asked, amount);
    OneMore(s, [], Acknowledged(id));
    assert [] + [Acknowledged(id)] == [Acknowledged(id)];
    OneMore(s, [Acknowledged(id)], Gateway(Selected));
    OneMore(s, [Acknowledged(id)] + [Gateway(Selected)], OfferAnswered(0, amount));
  }

  lemma OfferIsTaken(s: State, amount: nat)
    requires s.adoptions == [Polling] && s.live.Some? && s.live.value.offer.None? && s.seen.commitsSent == 0
    ensures Next(s, OfferAnswered(0, amount))
         == s.(live := Some(s.live.value.(adopting := false, offer := Some(amount))), escrow := Some(amount), status := EscrowLocked,
               adoptions := [Committing], seen := s.seen.(commitsSent := 1))
  {
    assert s.adoptions[0 := Committing] == [Committing];
  }

  // ---- When the activation is reported -----------------------------------------------------------------

  /** The commit lands, or the gateway says AVAILABLE after it has landed, in an acknowledged run that has not reported. */
  predicate TimeToReport(s: State, e: Event) {
    && s.live.Some? && s.live.value.incidentId.Some? && !s.live.value.activationReported
    && ((e.CommitDone? && e.adoption < |s.adoptions| && s.adoptions[e.adoption] == Committing)
        || (e == Gateway(Available) && s.live.value.committed && s.result.None?))
  }

  lemma CommitReports(s: State, i: nat)
    requires i < |s.adoptions| && s.adoptions[i] == Committing
    ensures Count(OnCommitDone(s, i).reports, ReportAvailable)
         == Count(s.reports, ReportAvailable) + if TimeToReport(s, CommitDone(i)) then 1 else 0
  {
    CountMore(s.reports, ReportAvailable, ReportAvailable);
  }

  lemma AvailableReports(s: State)
    ensures Count(OnGateway(s, Available).reports, ReportAvailable)
         == Count(s.reports, ReportAvailable) + if TimeToReport(s, Gateway(Available)) then 1 else 0
  {
    CountMore(s.reports, ReportAvailable, ReportAvailable);
  }

  lemma OtherUpdatesReportNothing(s: State, update: GatewayStatus)
    requires update != Available
    ensures var after := OnGateway(s, update).reports; after == s.reports || after == s.reports + [ReportFailed]
  {}

  lemma FailuresAreNotCounted(before: seq<Report>, after: seq<Report>)
    requires after == before || after == before + [ReportFailed]
    ensures Count(after, ReportAvailable) == Count(before, ReportAvailable)
  {
    CountMore(before, ReportFailed, ReportAvailable);
  }

  lemma GatewayReports(s: State, update: GatewayStatus)
    ensures Count(OnGateway(s, update).reports, ReportAvailable)
         == Count(s.reports, ReportAvailable) + if TimeToReport(s, Gateway(update)) then 1 else 0
  {
    if update == Available {
      AvailableReports(s);
    } else {
      OtherUpdatesReportNothing(s, update);
      FailuresAreNotCounted(s.reports, OnGateway(s, update).reports);
    }
  }

  lemma OthersReportNothing(s: State, e: Event)
    requires !e.Gateway? && !(e.CommitDone? && e.adoption < |s.adoptions| && s.adoptions[e.adoption] == Committing)
    ensures Next(s, e).reports == s.reports && !TimeToReport(s, e)
  {}

  /** Exactly when a step reports AVAILABLE. */
  lemma ReportsAvailableIff(s: State, e: Event)
    ensures Count(Next(s, e).reports, ReportAvailable) == Count(s.reports, ReportAvailable) + if TimeToReport(s, e) then 1 else 0
  {
    if e.Gateway? {
      GatewayReports(s, e.status);
    } else if e.CommitDone? && e.adoption < |s.adoptions| && s.adoptions[e.adoption] == Committing {
      CommitReports(s, e.adoption);
    } else {
      OthersReportNothing(s, e);
    }
  }

  /** The gateway has not said AVAILABLE in these events. */
  predicate NeverAvailable(events: seq<Event>) {
    forall i :: 0 <= i < |events| ==> events[i] != Gateway(Available)
  }

  /** So the activation can be reported in a run in which the gateway never says AVAILABLE: it goes out with the commit. */
  lemma ReportedWithoutAvailable(balance: nat, cost: nat, id: Text, amount: nat) returns (events: seq<Event>)
    ensures NeverAvailable(events) && Run(Begin(balance, cost), events).reports == [ReportAvailable]
  {
    events := UntilCommitSent(id, amount);
    CommitIsSent(balance, cost, id, amount);
    OneMore(Begin(balance, cost), events, CommitDone(0));
    events := events + [CommitDone(0)];
  }

  // ---- Runs that lose the chain --------------------------------------------------------------------------

  /** How adoptions, the offer and the timers go together while the run is on. */
  predicate AdoptionsOk(s: State) {
    s.live.Some? ==>
      var l := s.live.value;
      && (forall i, j :: 0 <= i < j < |s.adoptions| ==> s.adoptions[i] == Over || s.adoptions[j] == Over)
      && (forall i :: 0 <= i < |s.adoptions| && s.adoptions[i] == Polling ==> l.offer.None? && l.adopting)
      && (forall i :: 0 <= i < |s.adoptions| && s.adoptions[i] == Committing ==>
            l.offer.Some? && !l.committed && !l.chainOffline && s.offlineTimers == 0)
      && (l.offer.None? ==> !l.committed && !l.chainOffline && s.offlineTimers == 0)
      && (l.adopting ==> l.offer.None?)
      && (l.offer.None? && !l.adopting ==> forall i :: 0 <= i < |s.adoptions| ==> s.adoptions[i] == Over)
  }

  lemma AdoptionStarts(s: State)
    requires AdoptionsOk(s)
    ensures AdoptionsOk(StartAdoption(s))
  {}

  lemma GatewayKeepsAdoptions(s: State, update: GatewayStatus)
    requires AdoptionsOk(s)
    ensures AdoptionsOk(OnGateway(s, update))
  {
    match update
    case Selected => AdoptionStarts(s.(status := ProviderSelected));
    case Available => AvailableKeepsAdoptions(s);
    case _ =>
  }

  lemma AvailableKeepsAdoptions(s: State)
    requires AdoptionsOk(s)
    ensures AdoptionsOk(OnGateway(s, Available))
  {
    var t := s.(status := Verifying);
    AdoptionStarts(t);
    ReportKeepsAdoptions(t);
    ReportKeepsAdoptions(StartAdoption(t));
  }

  lemma ReportKeepsAdoptions(s: State)
    requires AdoptionsOk(s)
    ensures AdoptionsOk(ReportWhenCommitted(s))
  {}

  lemma OfferKeepsAdoptions(s: State, i: nat, amount: nat)
    requires AdoptionsOk(s) && i < |s.adoptions| && s.adoptions[i] == Polling
    ensures AdoptionsOk(OnOffer(s, i, amount)) && AdoptionsOk(OnGiveUp(s, i))
  {}

  lemma CommitKeepsAdoptions(s: State, i: nat)
    requires AdoptionsOk(s) && i < |s.adoptions| && s.adoptions[i] == Committing
    ensures AdoptionsOk(OnCommitDone(s, i)) && AdoptionsOk(OnCommitFailed(s, i))
  {}

  lemma FinishEnds(s: State, ok: bool)
    ensures FinishLive(s, ok).live.None?
  {}

  lemma FlushKeepsAdoptions(s: State)
    requires AdoptionsOk(s)
    ensures AdoptionsOk(FlushPending(s))
  {}

  lemma RowKeepsAdoptions(s: State, kind: RowKind)
    requires AdoptionsOk(s)
    ensures AdoptionsOk(OnChainRow(s, kind))
  {
    FlushKeepsAdoptions(s);
    FinishEnds(s, true);
    FinishEnds(s, false);
  }

  lemma OthersKeepAdoptions(s: State, e: Event)
    requires AdoptionsOk(s)
    requires e.Acknowledged? || e.Unreachable? || e.OfflineTimer? || e.GraceTimer? || e.FeedRow? || e.StreamRow?
    ensures AdoptionsOk(Next(s, e))
  {
    match e
    case Unreachable => FinishEnds(s, false);
    case OfflineTimer => if s.offlineTimers > 0 { FinishEnds(s.(offlineTimers := s.offlineTimers - 1), true); }
    case GraceTimer => FlushKeepsAdoptions(s.(seen := s.seen.(graceFired := true)));
    case FeedRow(kind) => FlushKeepsAdoptions(s.(audited := true));
    case StreamRow(kind) => RowKeepsAdoptions(s, kind);
    case Acknowledged(id) =>
  }

  lemma StepKeepsAdoptions(s: State, e: Event)
    requires AdoptionsOk(s)
    ensures AdoptionsOk(Next(s, e))
  {
    match e
    case Gateway(update) => GatewayKeepsAdoptions(s, update);
    case OfferAnswered(i, amount) => if i < |s.adoptions| && s.adoptions[i] == Polling { OfferKeepsAdoptions(s, i, amount); }
    case PollingGaveUp(i) => if i < |s.adoptions| && s.adoptions[i] == Polling { OfferKeepsAdoptions(s, i, 0); }
    case CommitDone(i) => if i < |s.adoptions| && s.adoptions[i] == Committing { CommitKeepsAdoptions(s, i); }
    case CommitFailed(i) => if i < |s.adoptions| && s.adoptions[i] == Committing { CommitKeepsAdoptions(s, i); }
    case _ => OthersKeepAdoptions(s, e);
  }

  lemma {:induction false} AdoptionsStayOk(balance: nat, cost: nat, events: seq<Event>)
    ensures AdoptionsOk(Run(Begin(balance, cost), events))
  {
    if events != [] {
      AdoptionsStayOk(balance, cost, events[..|events| - 1]);
      StepKeepsAdoptions(Run(Begin(balance, cost), events[..|events| - 1]), events[|events| - 1]);
    }
  }

  /** The run has lost its chain before delivery was announced: no commit, nothing under way, no timer. */
  predicate Stranded(s: State) {
    && s.live.Some? && s.live.value.chainOffline && !s.live.value.committed && s.live.value.offer.Some?
    && s.result.None? && s.pending.None?
    && s.offlineTimers == 0 && forall i :: 0 <= i < |s.adoptions| ==> s.adoptions[i] == Over
  }

  /** Events that can end a stranded run: a failure, or a chain row for it. */
  predicate Ends(e: Event) {
    e.Unreachable? || (e.StreamRow? && (e.kind == SettledRow || e.kind == ReturnedRow))
    || (e.Gateway? && (e.status == NoRecoveryNeeded || e.status == AllActivationsFailed || e.status == FailedOutright))
  }

  lemma StrandedStep(s: State, e: Event)
    requires Stranded(s) && !Ends(e)
    ensures Stranded(Next(s, e))
  {}

  /** A delivery announced after that never closes the run: only a failure or a chain row does. */
  lemma {:induction false} StrandedRunNeverCloses(s: State, events: seq<Event>)
    requires Stranded(s)
    requires forall i :: 0 <= i < |events| ==> !Ends(events[i])
    ensures Stranded(Run(s, events))
  {
    if events != [] {
      StrandedRunNeverCloses(s, events[..|events| - 1]);
      StrandedStep(Run(s, events[..|events| - 1]), events[|events| - 1]);
    }
  }

  /** The run is over, or a timer is armed that will end it. */
  predicate TimerArmed(s: State) {
    s.live.Some? ==> s.offlineTimers > 0
  }

  lemma TimerStep(s: State, e: Event)
    requires TimerArmed(s)
    ensures TimerArmed(Next(s, e))
  {}

  lemma {:induction false} TimerStaysArmed(s: State, events: seq<Event>)
    requires TimerArmed(s)
    ensures TimerArmed(Run(s, events))
  {
    if events != [] {
      TimerStaysArmed(s, events[..|events| - 1]);
      TimerStep(Run(s, events[..|events| - 1]), events[|events| - 1]);
    }
  }

  /** A commit of the run that is on fails: whether that strands the run depends on its status at that moment. If delivery
      had been announced, a timer is armed that ends the run whenever it fires, whatever happens before; if not, the
      run is stranded. */
  lemma FailedCommitStrandsIff(balance: nat, cost: nat, events: seq<Event>, i: nat, later: seq<Event>)
    requires var s := Run(Begin(balance, cost), events);
             s.live.Some? && i < |s.adoptions| && s.adoptions[i] == Committing
    ensures var s := Run(Begin(balance, cost), events);
            var t := Next(s, CommitFailed(i));
            && (Stranded(t) <==> s.status != Verifying)
            && (s.status == Verifying ==>
                  var u := Run(t, later);
                  u.live.None? || (u.offlineTimers > 0 && Next(u, OfflineTimer).live.None?))
  {
    EveryRunIsOrderly(balance, cost, events);
    AdoptionsStayOk(balance, cost, events);
    var t := Next(Run(Begin(balance, cost), events), CommitFailed(i));
    if t.offlineTimers > 0 {
      TimerStaysArmed(t, later);
    }
  }

  /** Such a run exists: the offer is adopted, its commit fails, and only then is delivery announced. */
  lemma ARunIsStranded(balance: nat, cost: nat, id: Text, amount: nat) returns (events: seq<Event>)
    ensures Stranded(Run(Begin(balance, cost), events)) && Run(Begin(balance, cost), events).status == Verifying
  {
    events := UntilCommitSent(id, amount);
    CommitIsSent(balance, cost, id, amount);
    OneMore(Begin(balance, cost), events, CommitFailed(0));
    events := events + [CommitFailed(0)];
    OneMore(Begin(balance, cost), events, Gateway(Available));
    events := events + [Gateway(Available)];
  }
}
