# NetChain: a verified model of recovery, settlement and money

NetChain buys backup network capacity from competing provider agents and settles the payment through an
on-chain escrow. This project models the parts of it on which money and safety depend, and proves what they
keep. Paths below are paths in the NetChain repository.

## The modules

| file | what it models |
|---|---|
| Units, Rounding, Digits, StableSort | UTF-16 texts, `Math.round`, decimal numerals, `Array.prototype.sort` |
| Json, Utf8, Signing | the JSON grammar of RFC 8259 with its parser and printer, UTF-8 bytes, the canonical printer and the signed payloads |
| TornText, LedgerText, Events | ledger rows as lines of text, what a torn or glued line does to the parser, the append-only ledger and its registry |
| Escrow | the escrow contract: one transaction at a time, its coins, its nonces, its event log |
| TrustSteps, TrustSafety, TrustFinality, TrustRuns | the trust service as interleaved steps over ledger and chain, its invariant, and what follows from it |
| TrustRows | what each call of the service starts, and what its rows say in full |
| TrustService | the service object itself, method by method, over the ledger file |
| Integration, PipelineRuns, Polling | the settlement pipeline for one envelope, its re-runs after a crash, runs that leave it stuck, and the poll loop |
| SseTail | the loop that feeds the event stream from the ledger |
| Delivery | delivery check, penalty, simulated samples |
| Money, Amounts, Vouchers | fee split, schema checks, base units, printed amounts, the voucher builder |
| Offers, Consensus, ExtractJson, Verdicts | viability and ordering, Borda consensus, reading a model's answer, merging verdicts |
| RescueAgent, Intents | the recovery pipeline and its cache per incident |
| Market, ProviderAgent | the rolled provider market and its quotes, the repeat-safety caches of a provider agent |
| LiveRun | the live run in the browser |

## How it is modelled

* Node runs one piece of code at a time, so everything between two awaits is one step. A step of the trust
  service is one such stretch, one transaction landing on the chain, one transaction of somebody else, or a crash
  that forgets everything in memory while transactions already sent may still land. A crash falls at an await or in
  the middle of a ledger append, where it leaves nothing, a part or all of the line without its newline. Properties
  are about all sequences of steps. The methods of class `TrustService` are proved to do to the ledger file and to
  memory what their step says, on every file that emits and such crashes can leave.
* Objects that the source updates in place (ledger, trust service, poller, tail, live store, rescue agent cache,
  provider agent cache, the shuffled array) are classes and arrays. Expressions are functions.
* The escrow contract is taken from its Move source, `move/sources/escrow.move`. Amounts are unbounded naturals;
  the position of a transaction in the event log stands for its digest.
* Human amounts, percentages and draws are exact reals, base units are integers, texts are sequences of UTF-16
  code units, JSON numbers are kept as they are written.
* Hashes and signatures are taken at face value: a signature holds or it does not, and agreements with the same
  digest are the same deal. `Signing.BuyerBytesFixTheDeal` shows the bytes under the digest fix the deal.
* A model's answer, a health probe, the arrival order of offers, an activation's outcome and the clock are
  arbitrary inputs.

## Where the code departs from what it says

Each point has a lemma with the input or run that shows it, and the exact condition where there is one.

* **A crash after the verdict landed is not repaired.** The comment on `processEnvelope` calls a re-run
  idempotent, but the contract takes one verdict per nonce, so once a verdict or a close is on the chain every re-run
  throws and the poller marks the incident ERROR (`Integration.VerdictOnChainBlocksReRun`).
  `PipelineRuns.StuckAfterVerdict` and `StuckAfterSettlement` are runs from the start that end there. When a run settles
  is exact: `Integration.CalmRunSettlesIff` on the state before it, `RunSettlesIff` under any transactions landing
  meanwhile, `ReRunAfterCrash` over every cut.
* **A failed poll can be forgotten.** A failure mark is in the state file exactly when its pass or a later one before
  the crash handled some envelope (`Polling.MarkIsSavedIff`), and a restart hands the envelope in again exactly when it
  is not (`RestartHandsBackIff`). `AFailureIsForgotten` is such a pass.
* **A torn ledger line takes the next row with it**, and `emit` leaves a registry in memory that a restart will not
  rebuild (`Events.EmitSurvivesIffTerminated`, `GluedCommitIsForgotten`). A settlement's row can be lost that way
  (`TrustFinality.BareSettlementIsLost`). The event stream stops at a line that does not parse for good
  (`SseTail.TornLineBlocksForGood`).
* **A late commit reopens a settled nonce** in the registry (`TrustRuns.LateCommitReopens`); on a file that no crash
  has torn nothing else can (`TrustFinality.TerminalStatusChanges`).
* **The penalty on a SETTLED row can be 0 while the chain paid one** (`TrustRuns.PenaltyMissingFromRow`), exactly when
  the verdict reached the registry after the settlement had looked the commitment up (`TrustFinality.SettledRowMoney`).
* **A confirmation trusts any commit event** in the transaction it is given (`TrustRuns.WrongDigestIsBelieved`). The
  ledger stays true exactly when every confirmation was for an event of its own nonce with the committed amounts, and
  every commit that reported had a share and a fee that add up (`TrustFinality.LedgerTrueIffHonest`).
* **"Exactly one verdict per nonce" holds only for verdicts with a digest.** The contract takes an empty digest and then
  another verdict (`Escrow.TwoVerdicts`, and exactly when in `SecondVerdictIff`); the service always sends 32 bytes.
* **A zero fee cannot be settled.** The schema and the contract allow it, `toBaseUnits` does not; a cent price c at p
  percent becomes a voucher exactly when c*p >= 50 (`Vouchers.CentPricesBuildIff`). A positive price below a millionth
  of a base unit is not refused but becomes 0 (`Money.DustIsZeroIff`).
* **The schema can refuse a price half way between two cents**, because rounding moves it by the whole tolerance: in
  exact arithmetic it refuses exactly those (`Money.PriceCheckIff`), and 0.125, which is exact in binary, is one
  (`Money.HalfCentPricesFail`). A decimal half cent that binary floating point only approximates may still pass.
* **Rolled reliability scores leave the ranges of the premium and balanced tiers**, because they are rounded to two
  digits (`Market.RolledInRanges`).
* **An incomplete ballot can win**, contrary to the comment in `mergeVotes` (`Consensus.LeftOutCanWin`,
  `LeftOutShouldLose`). `Consensus.OrderIsWrongIff` says for any ballots when the order differs from the one in which
  every omission counts as the last place, `UnrankedBeatsRankedIff` for a provider that nobody ranks.
* **`extractLastJsonObject` never ends** on a text that starts with a closing brace and holds no object that parses
  (`ExtractJson.ExtractLastJsonObject`), such as a closing brace alone (`LoneBraceLoops`).
* **A failed live run adds the escrow to a balance it was never taken from** (`LiveRun.AFailedRunGainsMoney`, and
  exactly when in `FailedRunBalance`). A run whose commit fails before delivery is announced never closes by itself, and
  no other is left so (`LiveRun.FailedCommitStrandsIff`, `StrandedRunNeverCloses`). The activation is reported with the
  commit, whether or not the gateway has said AVAILABLE (`LiveRun.ReportedWithoutAvailable`, `ReportsAvailableIff`).
* **Identical overlapping quote requests can mint two offers**, and only overlapping ones can
  (`ProviderAgent.OneOfferIff`, `TwoRequestsOverlap`).
* **An incident id with a colon can share a nonce with another incident** (`RescueAgent.ColonsCollide`).

## Model

| member | source | states |
|---|---|---|
| `Json.RoundTrip` | src/a2a/signing.js:26 | parsing a printed JSON value gives the value back, for every value |
| `Utf8.Utf8Injective` | src/a2a/signing.js:29-31 | distinct well-formed texts have distinct UTF-8 bytes |
| `Utf8.BytesMend` | src/a2a/signing.js:29-31 | any text comes back from its bytes with its lone surrogates replaced by U+FFFD |
| `Utf8.MendedIffBroken` | src/a2a/signing.js:29-31 | so it comes back unchanged exactly when it is well-formed |
| `Signing.CanonicalRoundTrip` | src/a2a/signing.js:14-27 | a JSON parser undoes the canonical printer up to the order of object members |
| `Signing.CanonicalInjective` | src/a2a/signing.js:14-27 | two values have the same canonical text exactly when they are the same value, whatever their key order |
| `Signing.CanonicalBytesInjective` | src/a2a/signing.js:29-31 | the same for the bytes that are signed and hashed |
| `Signing.OfferBytesFixEveryField` | src/a2a/signing.js:56-59 | two offers have the same signing bytes exactly when they agree on every field but the signature |
| `Signing.BuyerBytesFixTheDeal` | src/a2a/signing.js:76-82 | two selected offers have the same buyer bytes exactly when incident, provider and agreement agree |
| `LedgerText.ReadWritten` | src/sui/events.js:91-92 | reading a written row gives the row back |
| `TornText.BrokenDoesNotParse` | src/sui/events.js:23-27 | a line that is a proper start of a row, or has a row glued to it, makes the JSON parser throw |
| `TornText.GlueBreaks` | src/sui/events.js:92 | a row glued onto a finished or torn line leaves a line that does not parse |
| `Events.EventLedger.constructor` | src/sui/events.js:12-16 | a new ledger has the registry that its file replays to |
| `Events.EventLedger.Rebuild` | src/sui/events.js:18-30 | the registry becomes the replay of every line that parses as a row, and the count is that of all non-blank lines |
| `Events.EventLedger.IndexEvent` | src/sui/events.js:32-86 | one row changes the entry of its own nonce as its type says, and nothing else |
| `Events.FindIndex` | src/sui/events.js:32-86 | indexing a row changes what a lookup of its nonce returns and no other lookup |
| `Events.RegistryIsTheLatestWord` | src/sui/events.js:32-86 | the registry a restart builds says of every nonce, field by field, what the rows last said of it: its status, the terms of its last COMMITTED row, the last penalty and hash, the last closing |
| `Events.LatestIsTheLast` | src/sui/events.js:32-59 | where the last word on a topic is the last row of the nonce that tells of it, verdicts and audits counting only once a lifecycle row has opened the nonce |
| `Events.EventLedger.Emit` | src/sui/events.js:88-95 | the row gets the next line number, its line is appended with a newline, and the registry is the replay plus this row |
| `Events.EventLedger.Lookup` | src/sui/events.js:97-99 | there is an answer exactly when the registry holds an entry with this nonce, and it is that entry |
| `Events.EventLedger.ByIncident` | src/sui/events.js:101-103 | exactly the entries of the incident, in the order of the registry |
| `Events.NoncesKeepTheirPlaces` | src/sui/events.js:59-85 | a row keeps every nonce at its place in the registry and puts a new one at the end, so entries stand oldest first |
| `Events.RunKeepsLedger` | src/sui/events.js:88-95 | after any emits and any crashes in mid-append every line is a whole row with its own number or does not parse |
| `Events.SeqIsLineNumber` | src/sui/events.js:90 | in every such file the row read from line k has seq k, so rows come in increasing seq |
| `Events.EmitsNumberTheRows` | src/sui/events.js:88-95 | emits without a crash keep every row, and the k-th has seq k |
| `Events.EmitSurvivesIffTerminated` | src/sui/events.js:92 | an emitted row survives a restart exactly when the file ended in a newline; otherwise it takes the last line with it |
| `Events.CrashLosesOnlyTheTornRow` | src/sui/events.js:23-27 | a crash in mid-append loses that row and no other |
| `Events.RegistryAgreesAfterEmit` | src/sui/events.js:88-95 | on a file that ends in a newline the registry after an emit is what a restart rebuilds |
| `Events.GluedCommitIsForgotten` | src/sui/events.js:88-95 | on a file that does not, a commitment just indexed is unknown after a restart |
| `Escrow.ExecuteConserves` | move/sources/escrow.move:121-477 | every transaction keeps received = available + locked + paid out |
| `Escrow.ExecuteKeepsNonce` | move/sources/escrow.move:135-477 | every transaction keeps each nonce in order: one lock, at most one verdict with a digest, at most one close, and payouts that match its status |
| `Escrow.ExecuteExtends` | move/sources/escrow.move:135-477 | no transaction changes a deal, a recorded verdict or a closed status |
| `Escrow.ExecuteMovesOneNonce` | move/sources/escrow.move:135-477 | a transaction adds one event and changes the commitment of at most the nonce it names |
| `Escrow.EveryChainIsOk` | move/sources/escrow.move:111-477 | over any transactions at any times coins are conserved and each nonce is locked and closed at most once |
| `Escrow.SecondVerdictIff` | move/sources/escrow.move:351-355 | after a verdict and anything else, another one is taken on the open commitment exactly when the recorded digest is empty |
| `Escrow.TwoVerdicts` | move/sources/escrow.move:351-355 | a chain that takes a verdict with an empty digest and then a second one that replaces its penalty |
| `Escrow.SettlePaysTheSplit` | move/sources/escrow.move:374-415 | a settlement pays the penalty to the buyer, the fee to the platform and a positive rest to the provider, and nobody else |
| `Escrow.ClosingNeverLacksFunds` | move/sources/escrow.move:374-477 | an open commitment can always be settled and refunded, and reclaimed exactly from its expiry on |
| `Escrow.ReclaimPaysTheBuyer` | move/sources/escrow.move:454-477 | a reclaim pays the whole amount to the buyer of the commitment and nothing to anybody else |
| `Escrow.OthersPayNobody` | move/sources/escrow.move:121-452 | deposit, commit, verdict and refund pay nobody |
| `Escrow.PoolMoves` | move/sources/escrow.move:121-477 | the pool gains a deposit's value and a refunded amount, loses the amount of a new pool commitment, and is otherwise left alone |
| `Escrow.CoinsComeIn` | move/sources/escrow.move:121-341 | coins come in only with a deposit and with a buyer's own new commitment |
| `Escrow.EventTells` | move/sources/escrow.move:121-477 | each transaction is told of by the event of its own type, nonce and values |
| `Escrow.CommitRecords` | move/sources/escrow.move:135-341 | a new commitment records deal, payout addresses and buyer of its transaction and holds the whole amount; the same voucher again changes nothing |
| `Escrow.CommitAcceptedIff` | move/sources/escrow.move:135-241 | the pool pays for a new commitment exactly when the fee is below the amount, both signatures hold, the capability allows it, it has not expired and the coins are there; a known nonce is taken again exactly with the same deal |
| `Escrow.BuyerCommitAcceptedIff` | move/sources/escrow.move:243-341 | a buyer's coin is taken exactly when it is the amount of such a deal |
| `Escrow.VerdictIsRecorded` | move/sources/escrow.move:343-372 | a verdict is taken exactly on an open commitment without one, at a penalty that leaves the provider something, and records digest and penalty |
| `Escrow.AbortsAreJustified` | move/sources/escrow.move:135-477 | no transaction aborts without the reason its code gives |
| `Escrow.VoucherIsPaidOut` | move/sources/escrow.move:374-421 | from a new commitment to its settlement, whatever happens between: the voucher's provider address gets the price less the recorded penalty, its platform address the fee, the buyer the penalty |
| `Escrow.VoucherIsReclaimed` | move/sources/escrow.move:454-477 | reclaimed instead, not before its expiry, its buyer gets the whole amount back |
| `TrustSafety.StepKeeps` | src/sui/service.js:36-526 | every step of the service, the chain and the outside keeps the invariant |
| `TrustSafety.EveryRunIsSafe` | src/sui/service.js:36-526 | under any interleaving, with crashes at any await and in the middle of any ledger append, every row and registry entry is true of the chain and every terminal row has a closing event of its own |
| `TrustSafety.LandingIsTrue` | src/sui/service.js:395-417 | a transaction that lands makes true what its method will report |
| `TrustSafety.EffectTrue` | src/sui/events.js:32-86 | a true row turns a true registry entry into a true one |
| `TrustFinality.EachNonceOnce` | src/sui/service.js:36-526 | in every run coins are conserved, each nonce locks, closes and pays out at most once, and gets at most one SETTLED, REFUNDED or RECLAIMED row |
| `TrustFinality.SettledRowMoney` | src/sui/service.js:402-417 | provider net, penalty and fee of a SETTLED row add up to the locked amount; its penalty is the chain's exactly when the verdict was known before or is zero |
| `TrustRows.EveryRowTellsTheDeal` | src/sui/service.js:36-526 | in every run whose confirmations are told all the amounts, crashes included, every COMMITTED row tells amount, share and fee of its commitment, and every SETTLED row besides a positive rest that with penalty and fee adds up to what was locked |
| `TrustRows.LandedRowTellsAll` | src/sui/service.js:77-417 | a landed transaction is reported by the row of its event's type under its nonce and position; a COMMITTED row tells incident, amounts and digest of the deal, a DELIVERY_VERIFIED row the penalty and hash on the chain |
| `TrustRows.CommitStarts` | src/sui/service.js:36-77 | a commit is sent exactly for a voucher that builds under a nonce not in the registry; otherwise a DUPLICATE_BLOCKED or VERIFICATION_FAILED note and no transaction |
| `TrustRows.ConfirmStarts` | src/sui/service.js:169-188 | a confirmation waits exactly when its nonce is not in the registry, and sends nothing |
| `TrustRows.VerifyStarts` | src/sui/service.js:297-331 | a verdict is sent exactly when the incident has an open entry and the report promises and samples something: for the oldest such entry, with the penalty p such that 100 * promised * p is the last multiple not above share times the shortfall beyond the tolerance |
| `TrustRows.ActivationStarts` | src/sui/service.js:395-401 | AVAILABLE sends the settlement of the oldest open entry of the incident, FAILED its refund, any other status leaves a note, and without such an entry nothing is done |
| `TrustRows.ReclaimStarts` | src/sui/service.js:518-519 | a reclaim is sent for whatever nonce it is given |
| `TrustRows.CrashRecallsNothing` | src/sui/events.js:12-30 | after a crash exactly those transactions are under way that were, or that a method waited for |
| `TrustRuns.PenaltyMissingFromRow` | src/sui/service.js:395-417 | a run from the start whose SETTLED row has penalty 0 while the chain paid one, for every report that costs something |
| `TrustRuns.HalfTheShareIsLost` | src/sui/verify.js:27-30 | such a report: 40 of 100 promised at a tolerance of 10 costs 450 of a share of 900 |
| `TrustFinality.TerminalStatusChanges` | src/sui/events.js:59-85 | on a file that ends in a newline a terminal status changes exactly when a commit of the same nonce reports, and then reads COMMITTED |
| `TrustFinality.BareRowIsLost` | src/sui/events.js:88-95 | on a file whose last row lost its newline exactly the next append takes that row away |
| `TrustFinality.BareSettlementIsLost` | src/sui/events.js:88-95 | so a SETTLED row torn from its newline is gone after the next note, and the ledger is back where it was |
| `TrustFinality.EveryRunIsSeen` | src/sui/service.js:36-45 | in every run that tears no append, a commit under way had looked its nonce up, and not found it, among the rows before it began |
| `TrustFinality.ClosedIsFinal` | src/sui/service.js:36-526 | a nonce closed in the registry with no commit of it under way keeps its status in every continuation that tears no append |
| `TrustFinality.ConfirmedRowTrueIff` | src/sui/service.js:190-221 | the row of a confirmation is true exactly when the two things the code does not check are so: the event in the transaction is for this nonce, and the amounts stated are the committed ones |
| `TrustFinality.LedgerTrueIffHonest` | src/sui/service.js:169-221 | a run without torn appends ends with a true ledger exactly when every confirmation in it passed that check and every commit that reported has a share and a fee that add up; one that did not leaves a false row for good |
| `TrustRuns.WrongDigestIsBelieved` | src/sui/service.js:169-221 | a run from the start that confirms one nonce with another's transaction: the registry has it COMMITTED, the chain has never heard of it |
| `TrustRuns.LateCommitReopens` | src/sui/service.js:36-103 | a run of two commits of one voucher whose second report turns SETTLED back into COMMITTED |
| `TrustService.TrustService.constructor` | src/sui/service.js:20-32 | a service starts with nothing waiting, over any file that emits and crashes can leave |
| `TrustService.TrustService.Commit` | src/sui/service.js:36-76 | a duplicate or invalid offer leaves a note and sends nothing; otherwise VERIFIED is written and the transaction sent |
| `TrustService.TrustService.ConfirmZkCommit` | src/sui/service.js:169-188 | a known nonce leaves a note; otherwise the chain is read |
| `TrustService.TrustService.FindOpen` | src/sui/service.js:306-307 | the first commitment of the incident that is still COMMITTED |
| `TrustService.TrustService.VerifyDelivery` | src/sui/service.js:297-336 | the verdict for the open commitment is sent with the penalty on its provider share, which `TrustRows.VerifyStarts` states from the samples |
| `TrustService.TrustService.Activation` | src/sui/service.js:395-401 | AVAILABLE sends a settlement, FAILED a refund, anything else leaves a note |
| `TrustService.TrustService.Reclaim` | src/sui/service.js:518-519 | a reclaim is sent without asking the registry |
| `TrustService.TrustService.Resume` | src/sui/service.js:77-103 | once the chain has answered, exactly the row of this method is appended |
| `TrustService.TrustService.BuildRow` | src/sui/service.js:402-417 | the payload of each method, from what it looked up before the await |
| `TrustService.TrustService.CrashAndRestart` | src/sui/events.js:12-30 | a crash forgets the waiting methods, keeps their transactions under way, and rebuilds the registry from the file |
| `TrustService.EmitIsAStep` | src/sui/events.js:88-95 | on every such file, torn or not, an emit does to rows, lines, ending and registry what the step says |
| `TrustService.CutIsAStep` | src/sui/events.js:91-92 | and so does a crash that keeps any number of units of the line |
| `Integration.ClosedNonceIsLeftAlone` | src/sui/integration.js:105-110 | a nonce that is terminal in the registry costs no row and no transaction |
| `Integration.RunStaysSteady` | src/sui/integration.js:87-92 | whatever is done, in any order and however often, and at whatever await it crashes, leaves a state from which the incident can be run again |
| `Integration.EveryRunIsReady` | src/sui/integration.js:87-92 | so after any such run from an empty service the incident can be handed to the pipeline |
| `Integration.ProcessLeads` | src/sui/integration.js:93-148 | a run of the pipeline, with everything that lands meanwhile, is such a sequence of steps |
| `Integration.CommitReported` | src/sui/integration.js:113-118 | the commit of an unknown nonce registers it under its incident exactly when the chain takes it as it lands |
| `Integration.CommitSendsNothing` | src/sui/service.js:37-65 | a commit of a known nonce, whether or not its voucher still builds, or of an unknown one whose voucher does not, sends no transaction and changes no entry |
| `Integration.VerifyReported` | src/sui/integration.js:123-143 | the verdict is reported exactly when the check runs through and the commitment still awaits one as it lands |
| `Integration.SettleReported` | src/sui/integration.js:147-148 | the settlement is reported exactly when the commitment is still open as it lands |
| `Integration.RunSettlesIff` | src/sui/integration.js:93-148 | with any transactions of earlier runs or other people landing while it waits, a run settles exactly when the nonce is not closed, its commit goes through or was registered, the commitment awaits its verdict as the verdict lands and is open as the settlement lands; it then has one lock and one payout, and in any case nothing happens twice |
| `Integration.FirstRunTellsAll` | src/sui/integration.js:93-148 | the first run of an envelope, when it settles, ends the ledger with a SETTLED row that tells the voucher's amount, share and fee, what the report costs, and what that leaves |
| `Integration.PenaltyDueIff` | src/sui/service.js:316-317 | the penalty of the run is what the report costs the share on record, from promise, samples and tolerance alone |
| `Integration.CalmRunSettlesIff` | src/sui/integration.js:93-148 | with nothing else going on a run settles exactly under a condition on the state before it: the nonce is not closed, and the commitment, known or made by a commit the chain takes now, awaits its verdict |
| `Integration.OpenSettlesIff` | src/sui/integration.js:93-148 | for a nonce open in the registry: exactly when the commitment on the chain awaits its verdict |
| `Integration.SettledRunsAreNotRepeated` | src/sui/integration.js:105-110 | a settled envelope handed in again, after anything that tears no append and starts no commit of its nonce, costs no row and no transaction |
| `Integration.ReRunAfterCrash` | src/sui/integration.js:87-92 | after a crash at any await of a run, with its transactions landing before, during or after a re-run or never, the re-run settles under exactly that condition and nothing is locked, closed or paid twice |
| `Integration.UnreportedCommitIsRepaired` | src/sui/integration.js:87-92 | a commit that landed unreported, before or during the re-run, is no obstacle |
| `Integration.VerdictOnChainBlocksReRun` | move/sources/escrow.move:351-355 | once a verdict or a close is on the chain, reported or not, every later run throws, whatever else happens, unless the registry has closed the nonce |
| `PipelineRuns.StuckAfterVerdict` | src/sui/integration.js:123-143 | a run from the start, cut when its verdict has landed and not reported: the commitment is open on both sides and every re-run throws at any time and in any weather |
| `PipelineRuns.StuckAfterSettlement` | src/sui/integration.js:147-148 | a run from the start, cut when its settlement has landed and not reported: the chain has paid, the registry has the nonce open, and every re-run throws |
| `Integration.DirectSettlement` | src/sui/integration.js:147-148 | while the commitment is open a settlement asked for directly still goes through |
| `Integration.RefundReported` | src/sui/service.js:395-401 | a failed activation closes the commitment as refunded, on chain and ledger, exactly when it is still open as the refund lands |
| `Integration.ReclaimReported` | src/sui/service.js:518-523 | a reclaim closes it as reclaimed exactly when it is open and expired as it lands, whatever the registry knows |
| `Integration.SkippedIff` | src/sui/integration.js:97-104 | an envelope is skipped exactly when nothing was selected, leaving one note |
| `Integration.PositiveToleranceIsAccepted` | src/sui/verify.js:29-30 | with a tolerance above zero the penalty never stands in the way |
| `Polling.Poller.ProcessEnvelope` | src/sui/integration.js:93-148 | the pipeline does to service and result what its specification says |
| `Polling.Poller.PollOnce` | src/sui/integration.js:190-215 | every envelope not yet marked is processed once, and the marks are saved only if one did not throw |
| `Polling.SecondPassIsIdle` | src/sui/integration.js:196 | a second pass over the same envelopes touches neither ledger nor chain |
| `Polling.HandledAreTheNewSuccesses` | src/sui/integration.js:198-200 | a pass returns exactly the newly marked incidents that did not fail, each once |
| `Polling.FailuresAreForgotten` | src/sui/integration.js:213 | a pass leaves the state file as it was exactly when every newly marked incident failed |
| `Polling.MarkIsSavedIff` | src/sui/integration.js:190-215 | over any passes a mark is in the state file exactly when its pass or a later one handled something |
| `Polling.RestartHandsBackIff` | src/sui/integration.js:190-196 | after a crash and restart an envelope is handed to the pipeline again exactly when its incident is not in the state file |
| `Polling.UnmarkedIsHandedOn` | src/sui/integration.js:193-206 | a pass processes an unmarked envelope at its first place among the recoveries and marks what came of it |
| `Polling.AFailureIsForgotten` | src/sui/integration.js:190-215 | a pass over one envelope whose voucher does not build: its failure is marked in memory and not in the state file |
| `SseTail.Tail.Tick` | src/sui/server.js:158-173 | a tick sends the rows above the last sequence number, in order, up to the first line that does not parse |
| `SseTail.TickCatchesUp` | src/sui/server.js:158-173 | one tick over a ledger without torn rows sends every row appended since the last one exactly once and in order |
| `SseTail.EveryTickCatchesUp` | src/sui/server.js:153-173 | from the start of the server, over any emits and ticks, every tick leaves exactly the rows emitted since the start sent |
| `SseTail.SentAreTheEmitted` | src/sui/server.js:153-173 | the k-th row sent is the k-th emitted since the start, under its own number |
| `SseTail.EmittedFilesAreWhole` | src/sui/server.js:158-173 | the files that emits alone leave behind are such ledgers |
| `SseTail.TornLineBlocks` | src/sui/server.js:170-172 | a tick sends no row behind a line that does not parse |
| `SseTail.TornLineBlocksForGood` | src/sui/server.js:153-173 | nor does any later one, whatever is emitted or torn and however often the server restarts |
| `Delivery.PenaltyPctMeaning` | src/sui/verify.js:29-30 | there is a penalty exactly when the average falls short of the promise by more than the tolerance, and the percentage times the promise is that shortfall, for any tolerance |
| `Delivery.PenaltyOfTheShortfall` | src/sui/service.js:316-317 | the penalty is the one whole number p with 100 * promised * p <= share * shortfall < 100 * promised * (p + 1), where the shortfall is read off promise, samples and tolerance; no other is due |
| `Delivery.AverageIsTotalOverCount` | src/sui/verify.js:27-28 | the average is the total of the samples over their number |
| `Delivery.SumOfParts` | src/sui/verify.js:27-28 | and the total is additive, so order and grouping of the samples do not matter |
| `Delivery.PenaltyPctBounds` | src/sui/verify.js:29-30 | with samples and tolerance at least 0 the percentage is between 0 and 100, and 100 only if nothing was delivered or tolerated |
| `Delivery.PenaltyFitsTheShare` | src/sui/service.js:316-317 | that penalty is at most the provider share, and below it, as the contract wants, unless nothing was delivered under a zero tolerance |
| `Delivery.MoreDeliveredCostsLess` | src/sui/verify.js:27-30 | delivering more never costs more |
| `Delivery.SynthesizeDeliveredSamples` | src/sui/integration.js:73-86 | each sample is the recovered capacity jittered by the draw of its turn, from a 32-bit generator seeded by the nonce |
| `Delivery.SampleIsNearest` | src/sui/integration.js:82-85 | a sample is the tenth of a megabit next to the capacity jittered by its draw |
| `Delivery.FirstWords` | src/sui/integration.js:73-81 | the first words of the generator for two seeds |
| `Delivery.SynthesizedVerdict` | src/sui/integration.js:82-85 | which recovered capacities are penalty-free, and which are penalized, whatever the nonce |
| `Delivery.FullRecoveryIsFree` | src/sui/integration.js:73-86 | any number of samples at the promised capacity of at least 1 Mbps costs nothing at the default tolerance |
| `Money.SplitOfCents` | src/a2a/fees.js:33-42 | on the cent grid the split is exact and passes the four schema checks |
| `Money.FeeIsTheNearestCent` | src/a2a/fees.js:33-42 | the fee on any price is the whole number of cents next to that percentage of it, half a cent counting upwards |
| `Money.FeeIsPositiveIff` | src/a2a/fees.js:34 | the fee is at least a cent exactly when price times percentage reaches half a cent |
| `Money.ToleranceIsEqualityOnCents` | src/a2a/schemas/selectedOffer.js:141 | between cent amounts the tolerance is equality |
| `Money.CheckedCentsAreExact` | src/a2a/schemas/selectedOffer.js:143-178 | an agreement on the cent grid passes the money checks exactly when it is the computed split |
| `Money.PriceCheckIff` | src/a2a/schemas/selectedOffer.js:143-149 | in exact arithmetic the computed split fails its own price check exactly for prices half way between two cents |
| `Money.HalfCentPricesFail` | src/a2a/schemas/selectedOffer.js:143-149 | 0.125, which binary floating point represents exactly, is such a price |
| `Money.ToBaseUnits` | src/sui/stablecoin.js:32-45 | only positive amounts within a millionth of a whole number of base units convert, up to the largest safe integer |
| `Money.DustIsZeroIff` | src/sui/stablecoin.js:37-44 | a positive amount converts to zero exactly when it is at most a millionth of a base unit |
| `Money.CentsConvert` | src/sui/stablecoin.js:32-45 | with two decimals or more every positive amount of cents converts exactly |
| `Money.TwoDecimalsAgree` | src/a2a/schemas/selectedOffer.js:141 | at two decimals amounts within the tolerance are the same base units |
| `Money.TwoDecimalsAdd` | src/a2a/schemas/selectedOffer.js:170-178 | at two decimals the signed total converts to the sum of its parts |
| `Money.SixDecimalsDiffer` | src/sui/stablecoin.js:17-29 | at six decimals two amounts within the tolerance differ in base units |
| `Amounts.PrintedAmountsConvertBack` | src/sui/stablecoin.js:52-55 | reading back a printed amount gives the same base units at every decimals setting |
| `Amounts.PrintedAmountsDiffer` | src/sui/stablecoin.js:52-55 | different amounts print differently |
| `Amounts.PrintedTidily` | src/sui/stablecoin.js:54 | no trailing point and no trailing fractional zero |
| `Vouchers.ResolveOriginalOffer` | src/sui/voucher.js:59-81 | an embedded offer is taken exactly when it is the one the selection names; otherwise the offers on file decide |
| `Vouchers.SelectedEnvelopesPassTheSchema` | src/agents/rescueAgent.js:278-334 | what the pipeline selects at a cent price passes the schema, and names the winner, the platform address, percentage, expiry and attempt it was built for |
| `Vouchers.BuiltVouchers` | src/sui/voucher.js:107-199 | a built voucher locks price plus fee, pays the provider at its address on file and the platform at the signed one, has incident, provider, nonce, expiry and digest as signed, has both signatures and has not expired |
| `Vouchers.SignedAmountsArePaid` | src/sui/voucher.js:176-199 | committed and settled, whatever happens between, it pays the provider's address on file the signed price less the recorded penalty, the signed platform address the signed fee, and the buyer the penalty |
| `Vouchers.BuildsIff` | src/sui/voucher.js:107-199 | a selection becomes a voucher exactly when it passes the schema, its three amounts convert, an offer on file or embedded verifies, the provider is known, the buyer signed and it has not expired |
| `Vouchers.RefusalsAreJustified` | src/sui/voucher.js:107-199 | no selection is refused without the fault it is told |
| `Vouchers.SharesAddUpIff` | src/sui/voucher.js:182-185 | share and fee add up to the amount exactly when price and provider amount are the same in base units, and always at two decimals |
| `Vouchers.LockedIsTheSignedTotal` | src/sui/voucher.js:185 | at two decimals what is locked is the signed total |
| `Vouchers.CentPricesBuildIff` | src/sui/voucher.js:124-134 | a sound selection with a computed split at a cent price becomes a voucher exactly when its fee is positive, and is then exact |
| `Vouchers.FeeBelowAmountIff` | move/sources/escrow.move:181 | the fee is below the amount, as the contract wants, unless the price is dust |
| `Vouchers.ContractTakesBuiltVouchers` | move/sources/escrow.move:180-195 | the contract refuses a built voucher only for the capability's limit or an empty pool |
| `Offers.EvaluateOffer` | src/a2a/offerEvaluator.js:14-86 | an offer is viable exactly when it meets every requirement |
| `Offers.ReasonsAreTheFailures` | src/a2a/offerEvaluator.js:14-86 | the reasons are exactly the requirements it fails |
| `Offers.OrderedSplits` | src/a2a/offerEvaluator.js:112-123 | viable and non-viable arrivals together are the arrivals |
| `Offers.OrderedIsTheStableOrder` | src/a2a/offerEvaluator.js:90-108 | the order is the only sorted one that leaves ties as they arrived: by class, price and reliability, or by arrival in an emergency |
| `Offers.NormalOrder` | src/a2a/offerEvaluator.js:90-108 | of two candidates in normal mode the first has the faster class, or the same class and at most the price, or the same class and price and at least the reliability |
| `Offers.EmergencyOrder` | src/a2a/offerEvaluator.js:119-121 | in an emergency the first did not arrive later |
| `Offers.FirstReasonIsTheFirstFailure` | src/a2a/offerEvaluator.js:14-86 | the first reason given is the first requirement failed, in the order of the checks |
| `Offers.WhyItLost` | src/a2a/offerEvaluator.js:137-155 | a viable loser was superseded exactly in an emergency in which it came later, and ranked below otherwise |
| `Offers.SelectionCoversEveryArrival` | src/a2a/offerEvaluator.js:128-162 | winner and rejections name every arrival exactly once |
| `Offers.WinnerIsMinimal` | src/a2a/offerEvaluator.js:128-146 | there is a winner exactly when an offer is viable, and no viable offer comes before it |
| `Consensus.MergeVotes` | src/a2a/gonkaRanker.js:186-212 | the accumulated ranking is the one sorted by score, then by deterministic place |
| `Consensus.MergedPermutes` | src/a2a/gonkaRanker.js:200-212 | the ranking is a rearrangement of the deterministic order for any ballots |
| `Consensus.MergedIsUnique` | src/a2a/gonkaRanker.js:200-212 | it is the only rearrangement in which everyone beats those after them |
| `Consensus.BallotOrderIsIrrelevant` | src/a2a/gonkaRanker.js:189-193 | the ranking does not depend on the order of the ballots |
| `Consensus.MergedIsBorda` | src/a2a/gonkaRanker.js:186-212 | on complete ballots it is the Borda order with the deterministic tie-break |
| `Consensus.UnanimityIsRespected` | src/a2a/gonkaRanker.js:186-212 | a provider every model puts before another comes out before it |
| `Consensus.Reinforcement` | src/a2a/gonkaRanker.js:186-212 | what two groups of ballots agree on, their union agrees on |
| `Consensus.LeftOutCanWin` | src/a2a/gonkaRanker.js:195-197 | a provider missing from a ballot can win |
| `Consensus.LeftOutShouldLose` | src/a2a/gonkaRanker.js:195-197 | on those ballots it would lose if an omission counted as the last place |
| `Consensus.OrderIsWrongIff` | src/a2a/gonkaRanker.js:195-197 | for any two providers and any ballots, exactly when the order differs from the one in which every omission counts as the last place |
| `Consensus.EqualOmissionsAreFair` | src/a2a/gonkaRanker.js:195-197 | two ranked providers left out of equally many ballots stand as in that order |
| `Consensus.UnrankedBeatsRankedIff` | src/a2a/gonkaRanker.js:195-197 | when a provider nobody ranks comes before one that is ranked |
| `Consensus.BallotsAreClean` | src/a2a/gonkaRanker.js:115-119 | a ballot names only quoting providers, none twice |
| `Consensus.RankingIff` | src/a2a/gonkaRanker.js:240-271 | there is a consensus ranking exactly when there are two candidates to rank and some model's answer names one |
| `Consensus.FaithfulAnswersAreRead` | src/a2a/gonkaRanker.js:115-119 | an answer that names every provider in its own spelling is read back as that ballot |
| `Consensus.FaithfulConsensus` | src/a2a/gonkaRanker.js:240-271 | the consensus of such answers is the merged ranking of their ballots |
| `Consensus.ConsensusKeepsEveryProvider` | src/a2a/gonkaRanker.js:258-271 | no answer of any model adds, drops or repeats a provider |
| `ExtractJson.FindOpen` | src/a2a/gonkaRanker.js:69-95 | the inner loop finds the brace matched by the string-aware backward scan |
| `ExtractJson.ExtractLastJsonObject` | src/a2a/gonkaRanker.js:68-97 | the object is the parse of the slice matched with the rightmost closing brace whose slice parses; which texts give null, and on which the loop never ends |
| `ExtractJson.LoneBraceLoops` | src/a2a/gonkaRanker.js:68-97 | a closing brace alone meets the condition under which the loop never ends |
| `ExtractJson.NeverRunsOut` | src/a2a/claimAgent.js:245 | on a text that starts with a closing brace the outer index never becomes -1 |
| `ExtractJson.RunsOut` | src/a2a/claimAgent.js:245 | on any other text it does, within the length of the text |
| `ExtractJson.QuoteFreeMatch` | src/a2a/claimAgent.js:246-271 | without quotes the matched slice is the shortest balanced one |
| `Verdicts.Tally` | src/a2a/claimAgent.js:290-293 | each verdict is counted once with its votes |
| `Verdicts.MergeVerdicts` | src/a2a/claimAgent.js:279-303 | the verdict is the first mentioned among those with most votes; score and band come from mean and spread |
| `Verdicts.MeanIsTotalOverCount` | src/a2a/claimAgent.js:286-287 | the mean is the total of the scores over their number |
| `Verdicts.SpreadIsHalfTheRange` | src/a2a/claimAgent.js:288-300 | the spread is half the range of the scores |
| `Verdicts.BandHoldsTheScore` | src/a2a/claimAgent.js:298-302 | the band holds the score and stays within 0 and 100 |
| `RescueAgent.ValidateArrival` | src/agents/rescueAgent.js:231-253 | an offer is accepted exactly when it is one, comes from the provider asked, is for this incident and verifies |
| `RescueAgent.HealthGate` | src/agents/rescueAgent.js:469-492 | the gate splits the providers into ready and rejected |
| `RescueAgent.BidRace` | src/agents/rescueAgent.js:516-607 | each ready provider's first reply decides: an offer of its own for this incident under its own key arrives in the order of arrival, anything else is refused for what is wrong with it, and who has not replied is pending |
| `RescueAgent.FirstRepliesDecide` | src/agents/rescueAgent.js:231-253 | every first in-time reply of a ready provider that carries its own verified offer for the incident is an arrival, and any other is refused: timeout for a call cut off, unavailable for a failed one, invalid where there is no offer, tampered for another provider, another incident or a bad signature |
| `RescueAgent.ArrivalsAreFirstReplies` | src/agents/rescueAgent.js:548-607 | every arrival is such a genuine first reply |
| `RescueAgent.RefusalsAreFirstReplies` | src/agents/rescueAgent.js:548-607 | every refusal of the race is a first reply with that fault |
| `RescueAgent.StopStragglers` | src/agents/rescueAgent.js:609-627 | exactly those still pending are recorded as misses |
| `RescueAgent.RejectNonViable` | src/agents/rescueAgent.js:634-646 | every non-viable offer is rejected with the first requirement it fails |
| `RescueAgent.RankedOrder` | src/agents/rescueAgent.js:659-692 | the consensus ranking is followed in normal mode when there is one, and keeps every candidate |
| `RescueAgent.ActivateRanked` | src/agents/rescueAgent.js:336-455 | candidates are tried strictly in order, each once, up to the first that is available; winner, nonce and rejections are those of that attempt |
| `RescueAgent.RunRecovery` | src/agents/rescueAgent.js:457-731 | the walk goes along the viable ones of exactly the genuine in-time offers, in deterministic or consensus order; the first available candidate is selected if its result builds, else it throws, and with none available there is no viable offer; the envelopes account for every provider |
| `RescueAgent.NothingToTryIff` | src/agents/rescueAgent.js:632-656 | there is nothing to try exactly when no healthy provider's first reply was in time and carried an own, verified offer for the incident that meets the request |
| `RescueAgent.EveryViableOfferIsACandidate` | src/agents/rescueAgent.js:632-656 | each such offer is a candidate of the walk |
| `RescueAgent.WhyNeverAttempted` | src/agents/rescueAgent.js:395-409 | a candidate behind the winner is superseded exactly in an emergency in which it came later than the first, and outranked otherwise |
| `RescueAgent.NonceFixesAttempt` | src/agents/rescueAgent.js:344 | within an incident two attempts share a nonce only if they are the same |
| `RescueAgent.NonceIsInjective` | src/agents/rescueAgent.js:344 | across incidents the nonce fixes incident, provider and attempt when incident ids hold no colon |
| `RescueAgent.ColonsCollide` | src/agents/rescueAgent.js:344 | with a colon in an incident id two incidents can share a nonce |
| `Digits.PadStartInjective` | src/agents/rescueAgent.js:57-59 | padding never makes two attempt numbers look alike |
| `Intents.Agent.ProcessIntent` | src/agents/rescueAgent.js:733-762 | a call gets the cached envelope, joins the running recovery, or starts one |
| `Intents.Agent.Then` | src/agents/rescueAgent.js:748-754 | an envelope is cached exactly when it is SELECTED or NO_VIABLE_OFFER |
| `Intents.OneRecoveryPerIncident` | src/agents/rescueAgent.js:733-762 | at most one recovery per incident is under way, and at most one ends with an envelope that is kept |
| `Intents.WhatACallGets` | src/agents/rescueAgent.js:733-762 | in every run a call gets the envelope its incident ended with, else the recovery that is open, else a new one, which it starts |
| `Intents.CachedForGood` | src/agents/rescueAgent.js:735-739 | once cached, every later call gets that envelope |
| `Intents.UnfinishedIsRetried` | src/agents/rescueAgent.js:749-757 | a recovery that threw or found nothing to do is started again by the next call |
| `Market.FisherYates` | src/a2a/dynamicProviders.js:166-169 | the in-place shuffle exchanges each place with the one its draw picks |
| `Market.ShuffledPermutes` | src/a2a/dynamicProviders.js:166-169 | a shuffle is a rearrangement whatever the draws |
| `Market.PickIff` | src/a2a/dynamicProviders.js:166-169 | a draw picks place j of i + 1 exactly when it lies in the j-th of i + 1 equal parts |
| `Market.EveryArrangementIsReached` | src/a2a/dynamicProviders.js:160-172 | every arrangement of the tiers comes up for some stream |
| `Market.RollDynamicProviders` | src/a2a/dynamicProviders.js:160-229 | three slots carry a permutation of the tiers, and each persona is rolled from its slot's tier by the draws of its turn |
| `Market.InsertionOrderIsIrrelevant` | src/a2a/dynamicProviders.js:174 | the slots do not depend on the insertion order of the base profiles |
| `Market.SlotsAscend` | src/a2a/dynamicProviders.js:174 | the ids of the slots ascend by their code units |
| `Market.RolledInRanges` | src/a2a/dynamicProviders.js:70-114 | every rolled value lies in its tier's range, except the reliability score, which does exactly for the budget tier |
| `Market.RolledIsNearest` | src/a2a/dynamicProviders.js:186-223 | each rolled value is the whole number or hundredth next to where its own draw falls between the ends of its range |
| `Market.DrawsAreConsecutive` | src/a2a/dynamicProviders.js:176-229 | no draw is used twice or skipped: a slot begins where the one before it ended, one later if it draws its brand |
| `Market.PriceIsTheNearestCent` | src/agents/providerAgent.js:165-171 | a price is the cent next to base fee plus hourly price for the capacity and time asked, in the money that is settled |
| `Market.OffersAreHonest` | src/agents/providerAgent.js:156-191 | an offer promises what its persona has: capacity, latency, loss, reliability, the asked duration, the lane that fits, and its own price |
| `Market.PriceBound` | src/agents/providerAgent.js:160-178 | no tier quotes more than 4.30 for an hour |
| `Market.MarketServesModestRequests` | src/a2a/dynamicProviders.js:70-114 | for every random stream a modest request gets at least two viable offers, and three in an emergency |
| `ProviderAgent.Agent.QuoteOffer` | src/agents/providerAgent.js:198-206 | a cached request gets its offer, any other starts a draft |
| `ProviderAgent.Agent.ActivateOnce` | src/agents/providerAgent.js:220-259 | an activation is entered in the table before anything is awaited |
| `ProviderAgent.RepeatsGetTheSameOffer` | src/agents/providerAgent.js:198-218 | once an offer is cached and none is being drafted, every repeat gets that same offer |
| `ProviderAgent.OneOfferIff` | src/agents/providerAgent.js:198-218 | all answers to a request are one signed offer, whatever is drafted and signed, exactly when it never comes in while a quote of it is being drafted |
| `ProviderAgent.OverlappingRequestsCanDiffer` | src/agents/providerAgent.js:198-218 | any run with such an overlap can, with other signatures at the same moments, answer with two offers |
| `ProviderAgent.TwoRequestsOverlap` | src/agents/providerAgent.js:198-218 | the request twice before the first draft is signed is such an overlap |
| `ProviderAgent.ActivationsStartOnce` | src/agents/providerAgent.js:220-259 | an activation is started once per incident and offer |
| `LiveRun.Store.BeginLive` | frontend/src/store/useAppStore.ts:1882-1907 | a run starts with nothing recorded, paid or shown |
| `LiveRun.Store.FinishRun` | frontend/src/store/useAppStore.ts:1274-1479 | a finish takes the run away and books record, payment and balance once |
| `LiveRun.Store.Book` | frontend/src/store/useAppStore.ts:1362-1440 | the record, the payment and the balance of a finish |
| `LiveRun.Store.Show` | frontend/src/store/useAppStore.ts:1399-1479 | the result is shown at once, or held back until the audit lands |
| `LiveRun.Store.FinishWithoutRecovery` | frontend/src/store/useAppStore.ts:1508-1538 | nothing is bought or booked |
| `LiveRun.Store.Flush` | frontend/src/store/useAppStore.ts:802-816 | a held result is shown once |
| `LiveRun.Store.OnGatewayEvent` | frontend/src/store/useAppStore.ts:1675-1780 | what each gateway status does to the run |
| `LiveRun.Store.OfferArrives` | frontend/src/store/useAppStore.ts:1556-1600 | an offer is adopted, and its commit sent, only by a run that is on and has none |
| `LiveRun.Store.CommitLands` | frontend/src/store/useAppStore.ts:1610-1662 | the commit is recorded and the activation reported |
| `LiveRun.Store.CommitThrows` | frontend/src/store/useAppStore.ts:1663-1673 | the chain is marked offline, and the timer armed while verifying |
| `LiveRun.Store.ReportActivation` | frontend/src/store/useAppStore.ts:1848-1852 | AVAILABLE is reported once, after the commit |
| `LiveRun.Store.OnRow` | frontend/src/store/useAppStore.ts:1867-1880 | a terminal chain row finishes the run, SETTLED well and REFUNDED or RECLAIMED badly (`LiveRun.WhatEndsARun`) |
| `LiveRun.EveryRunIsOrderly` | frontend/src/store/useAppStore.ts:1274-1880 | in any interleaving AVAILABLE is reported at most once and after the commit, one commit is sent, one finish takes effect, and the restored result waits for audit, offline chain or grace timer |
| `LiveRun.WhatEndsARun` | frontend/src/store/useAppStore.ts:1274-1880 | in every run that is on, exactly which events end it: well a SETTLED row or the armed timer, with one record and payment of the adopted amount charged, the balance lowered to no less than 0, and the result shown or held; badly an unreachable or failed gateway, a returned row or failed activations with nothing committed, with what was committed refunded; and one that was not needed |
| `LiveRun.ASettledRowEndsItWell` | frontend/src/store/useAppStore.ts:1875-1876 | so a SETTLED row ends any run well |
| `LiveRun.HeldResultIsShownIff` | frontend/src/store/useAppStore.ts:780-816 | a held result is shown exactly when the audit row comes in on the feed or the grace timer fires, and it is the one that was held |
| `LiveRun.AuditedIff` | frontend/src/store/useAppStore.ts:780-790 | the audit counts as landed exactly when its row has come in on the feed |
| `LiveRun.AdoptionStartsIff` | frontend/src/store/useAppStore.ts:1540-1542 | an adoption starts exactly when the gateway says SELECTED or AVAILABLE in an acknowledged run that has no offer and is not asking |
| `LiveRun.OfferIsTakenIff` | frontend/src/store/useAppStore.ts:1557-1600 | an answered offer is adopted, its amount becoming the escrow and its commit sent, exactly when the run is on and has none |
| `LiveRun.GivingUpFreesTheRun` | frontend/src/store/useAppStore.ts:1544-1559 | an adoption that gives up leaves the run free to ask again |
| `LiveRun.ReportsFailedIff` | frontend/src/store/useAppStore.ts:1765-1771 | FAILED is reported exactly when every activation failed in an acknowledged run that has committed |
| `LiveRun.StatusFollowsTheGateway` | frontend/src/store/useAppStore.ts:1695-1737 | what the user is shown while the run goes on |
| `LiveRun.ClosedStaysClosed` | frontend/src/store/useAppStore.ts:1274-1277 | nothing after the finish changes a record, a payment, a report or the balance |
| `LiveRun.FailedRunBalance` | frontend/src/store/useAppStore.ts:1362-1412 | a failed run leaves the balance unchanged exactly when nothing was committed or the escrow is zero |
| `LiveRun.AFailedRunGainsMoney` | frontend/src/store/useAppStore.ts:1362-1412 | a run that is committed and refunded and ends with a balance grown by the escrow |
| `LiveRun.ReportsAvailableIff` | frontend/src/store/useAppStore.ts:1848-1852 | a step reports AVAILABLE exactly when an acknowledged run that has not reported it has its commit land, or hears AVAILABLE after that |
| `LiveRun.ReportedWithoutAvailable` | frontend/src/store/useAppStore.ts:1660-1662 | a run that reports it though the gateway never said AVAILABLE |
| `LiveRun.FailedCommitStrandsIff` | frontend/src/store/useAppStore.ts:1663-1673 | a failed commit strands its run exactly when delivery had not been announced by then; otherwise a timer is armed that ends the run whenever it fires |
| `LiveRun.StrandedRunNeverCloses` | frontend/src/store/useAppStore.ts:1663-1672 | a run that lost the chain before delivery was announced is closed only by a failure or a chain row |
| `LiveRun.ARunIsStranded` | frontend/src/store/useAppStore.ts:1663-1672 | such a run exists |

## Left out

- TrustSafety.EveryRunIsSafe: takes it that a confirmed digest belongs to the nonce it is confirmed for and comes with true amounts, which `confirmZkCommit` does not check, and that the voucher of a commit that reports has a share and a fee that add up, which holds at two decimals (`Vouchers.SharesAddUpIff`); `TrustFinality.LedgerTrueIffHonest` is the exact condition of both. It also takes it that hashes are not empty and that only the service holds the capability.
- TrustService.TrustService.ConfirmZkCommit: a failed transaction has no place in the log of events; confirming one leaves the same VERIFICATION_FAILED note as an event of another type and changes nothing else.
- TrustSafety.StepKeeps: rows appended after the settlement itself (archive, callback and audit rows) are notes with any content; sending them over the network is not modelled.
- TrustFinality.ClosedIsFinal: is about runs without a torn append; after one a terminal row can be lost (`TrustFinality.BareSettlementIsLost`).
- Integration.RunSettlesIff: while the run waits, transactions of earlier runs and of other people land, but no other method of the service starts or reports; other interleavings are covered by `Integration.RunStaysSteady` and the invariant.
- Integration.ReRunAfterCrash: the crash falls at an await; a ledger torn in the middle of an append is covered by `TrustSafety.EveryRunIsSafe` only.
- Events.EventLedger.Rebuild: a line that is JSON of another shape than `emit` writes is skipped here, where the source indexes whatever fields it finds; nothing but `emit` writes the file.
- Events.EventLedger.IndexEvent: of an entry, provider, addresses, the idempotent flag, capacity, claims and timing are dropped, and one closing time stands for the three the source keeps.
- Money.PriceCheckIff: is about exact reals; the double nearest a decimal half cent may lie on either side of it, so some such prices pass in the source.
- Events.EventLedger.Emit: rows carry the payload fields the registry reads for money and status; the other payload fields are dropped.
- Events.CrashLosesOnlyTheTornRow: a torn append keeps a prefix in UTF-16 units; a cut inside one character is not modelled.
- Escrow.ExecuteConserves: amounts are unbounded, so the contract's 64-bit overflow aborts are not modelled, nor are the counters of the capability; agreements with the same digest are taken to be the same deal.
- Escrow.EveryChainIsOk: a transaction is a function from chain to chain, because it takes effect as a whole or not at all; object ownership and gas are not modelled.
- Signing.CanonicalInjective: numbers are compared as they are printed, and a value without a JSON form (undefined, a function) is not modelled.
- Delivery.SynthesizeDeliveredSamples: the seed is a given 32-bit word; the SHA-256 that makes it from the nonce is not modelled.
- Vouchers.BuiltVouchers: takes it that the provider has an address on file; without one the voucher still builds and its transaction cannot be assembled, which is not modelled.
- Market.RollDynamicProviders: brands, traits and descriptions are dropped, but the draws they consume are counted; the string hash that seeds the stream is not modelled.
- Consensus.ConsensusKeepsEveryProvider: prompts, the query budget and the reasons shown to the user are not modelled; ballots are arbitrary.
- ExtractJson.ExtractLastJsonObject: where the source loops for ever the method returns a value that says so.
- RescueAgent.RunRecovery: the replies that beat the deadline are given as a list in the order in which they settle; events to dashboards and the acknowledgement call are dropped.
- LiveRun.EveryRunIsOrderly: covers one run whose predecessors have left no task behind; run log, session, capacity and activity entries are dropped, and a stream that fails to open after the commit is not modelled.
- HTTP servers, CORS, the stream transport, timers as wall-clock time, wallets, zkLogin, gas, Walrus and the page components: foreign calls or presentation.
- `confirmZkCommit` and `activation` callbacks to the gateway, `fundUser`, `archive` and `status`: they would only add easy members.
- IEEE 754 behaviour: amounts are exact, so effects of binary rounding inside `toBaseUnits`, `round2` and `toFixed` are not modelled.
- Provider profiles, key formats and the Truth Agent's evidence gathering: not part of this model.
