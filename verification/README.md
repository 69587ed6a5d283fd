# PEPEW payment platform: a verified model

This project models the persisted payment platform as one stateful system and proves what it keeps over
every run: the evaluator that turns observed outputs into a payment status, the store whose methods are
atomic database transactions, the watcher that reconciles the store with the chain, the webhook worker,
and the merchant's own order book at the far end. Beside it stand two arithmetic cores (decimal amounts and
Base58Check addresses) and two protocol cores (the ElectrumX request/reply client and the off-host backup
stream).

How the parts fit together:

- `PaymentTables` gives the database tables as one value and every write of the store as an atomic step on
  it. `Run` is any interleaving of such steps by any number of processes. `PaymentStore` is the store as an
  object whose methods update its tables row by row; each method is proved to be exactly its step.
- `StoreInvariants`, `Creation`, `Ownership`, `Expiry`, `PaymentRows`, `LogRefinement`, `LogVerdicts` and
  `StoredLogs` are about every state such interleavings reach, `StoredTotals` about what a refresh stores. `Gateway`
  is about the checks the HTTP layer makes before it creates.
- `PaymentWatcher` has the watcher's programs of store steps and the methods that perform them;
  `Reconciliation`, `ReconcileTwice`, `HeaderRefresh`, `HeaderRuns` and `HeaderCutoff` say what they establish.
- `WebhookWorker` and `DeliveryRuns` are the delivery state machine, `EndpointRuns` says who receives;
  `ReferenceMerchant` and `MerchantRuns` are the merchant's consumer; `EndToEnd` joins the store's event log to the
  merchant's order, and `DeliveredEvents` the delivered rows.
- `Pagination` and `PageWalks`, `Base58` and `ScripthashWindows`, `Decimals` and `Amounts`, `RpcClient`, and
  `TransferFraming` are the remaining cores. `Text`, `Counting`, `Wrappers` and `Samples` are shared.

Each store method opens its own connection and commits once, so it is one atomic step. SHA-256 identifiers
are injective: an event id is (payment, version, type) and a delivery id is (event, endpoint). Time is an
argument. A transaction's content is a fixed function of its id. The ElectrumX history, the network's
answers, and the interleaving of everybody else's steps are arbitrary inputs.

## Where the code and its promises part

Each of these is a lemma, with the exact condition under which the promise holds.

- An expired payment can come back to life after its deadline: if an output seen in time was counted out
  because it sat at or below the creation height, a late reorganisation makes it count
  (`Expiry.ExpiredCanRevive`; exact condition in `Expiry.ExpiredIsAbsorbing`).
- Two identical concurrent creations that carry an idempotency key and a merchant reference: the slower can
  get a reference conflict where a replay is promised (`Gateway.ConcurrentTwinIsRefused`; exact condition in
  `Gateway.GatewayMatchesAtomicCreate`).
- A header refresh skips expired payments, so their policy-confirmed total can lag behind the chain
  (`HeaderRefresh.PolicyTotalLags`; exact condition in `HeaderRefresh.HeaderKeepsCurrent`).
- A header refreshes at most twice the subscription limit of payments, the most recently updated ones, and a paid
  payment is refreshable for good. So enough paid payments keep an older invoice cut off from every later header:
  it goes on saying that it is waiting, deadline or not (`HeaderCutoff.InvoiceIsForgotten`, in general
  `HeaderCutoff.CutOffForGood`). A header reaches every payment exactly when there are no more refreshable ones than
  that (`HeaderRuns.PlainHeader`, `HeaderRefresh.ListCovers`), and one payment as `HeaderCutoff.ListedOrCutOff` says.
  Over whole runs, with clocks in any order, a payment that a header reaches is behind the chain in nothing but an
  expired payment's policy total (`HeaderRuns.HeadersKeepStatuses`).
- The store merges first-seen times before scoping to the window and the evaluator after, so their verdicts can
  differ: an output sighted again after the deadline is confirmed for one and not for the other
  (`LogVerdicts.LateConfirmationCountsOnlyInStore`; exact condition in `LogVerdicts.VerdictsAgreeExactly`, for
  stored rows in `StoredLogs.StoredVerdictsAgreeExactly`).
- The store does not check a webhook endpoint's merchant against the merchant table, so the one ownership count
  that can be nonzero is the endpoints' (`Ownership.EndpointWithoutMerchant`; exact condition in
  `Ownership.OwnershipClosure`). This is a fact about the store: over HTTP the merchant is the authenticated
  caller's own.
- A merchant's bind overwrites a newer version with an older one, and redelivery does not repair it
  (`MerchantRuns.LateBindLosesPaidStatus`; exact condition in `MerchantRuns.RaisesUnlessRegressing`).
- An amount with more than 28 significant digits may be rounded and accepted although it has too many
  decimals, and a positive amount below the smallest exponent is accepted as zero
  (`Amounts.LongAmountAccepted`, `Amounts.TinyStringAccepted`; exact condition in `Amounts.ConvertMeaning`
  and `Amounts.KeptAmount`).
- The sender of a backup does not check that the database is non-empty or within the receiver's size limit
  (`TransferFraming.RoundTrip`).

Window exclusivity, on the other hand, turned out to need no hypothesis that a payment's creation time is at
most its expiry time.

## Main results

- Evaluator: `PaymentState.MergeMeaning`, `PaymentState.StatusMeaning`, `LogVerdicts.VerdictsAgreeExactly`,
  `StoredLogs.StoredVerdictsAgreeExactly`.
- Store: `Creation.EventLogEqualsState`, `Creation.CreateStores`, `StoredTotals.RefreshMeaning`,
  `Creation.ReplayForever`, `Creation.WindowExclusivity`,
  `ScripthashWindows.ScripthashExclusivity`, `Ownership.OwnershipClosure`, `Expiry.ExpiredIsAbsorbing`,
  `Gateway.GatewayMatchesAtomicCreate`.
- Watcher: `Reconciliation.ReconcileConverges`, `ReconcileTwice.ReconcileAll`, `ReconcileTwice.SecondPassIsQuiet`,
  `HeaderRuns.HeadersKeepStatuses`, `HeaderCutoff.CutOffForGood`.
- Worker and merchant: `DeliveryRuns.WorkerTerminates`, `DeliveryRuns.EndsWhenDueEnough`, `DeliveryRuns.DoneInTime`,
  `DeliveryRuns.AttemptsSpaced`, `MerchantRuns.MerchantConverges`, `EndToEnd.MerchantAgreesWithStore`,
  `DeliveredEvents.DeliveredMeansAgreed`.
- Pagination: `PageWalks.WalkMissesNothing`.
- Arithmetic: `Base58.DecodeMeaning`, `Base58.DecodeInjective`, `Amounts.ReadForm`, `Amounts.ConvertMeaning`, `Amounts.RoundTrip`.
- Protocols: `RpcClient.RepliesReachTheirRequests`, `RpcClient.NothingLeftWaiting`, `TransferFraming.RoundTrip`,
  `TransferFraming.PrefixRefused`, `TransferFraming.ExtensionRefused`.

The remaining rows of the table below say what each method does and which smaller facts the main results rest on.

## Model

| member | source | states |
|---|---|---|
| PaymentState.ConfirmationsForHeight | backend/app/services/payment_state.py:44-50 | no confirmations in the mempool or above the tip; otherwise at least one, and one more per block |
| PaymentState.BelongsMeaning | backend/app/services/payment_state.py:158-187 | which sightings a payment counts, for every combination of boundaries given and left out |
| PaymentState.MergeMeaning | backend/app/services/payment_state.py:213-249 | deduplication fails exactly when two counted sightings of one output disagree on its value; otherwise each output appears once with its last height, common value and earliest known time |
| PaymentState.SummaryDetermines | backend/app/services/payment_state.py:231-249 | that summary leaves no freedom: an output's merged entry is determined by its sightings |
| PaymentState.MergeObservations | backend/app/services/payment_state.py:213-249 | the loop over a log computes the merge |
| PaymentState.EvaluatePaymentObservations | backend/app/services/payment_state.py:190-293 | the method validates its inputs, scopes, merges, sums and derives exactly the specified evaluation |
| PaymentState.TotalsNest | backend/app/services/payment_state.py:251-263 | policy-confirmed is at most confirmed is at most received when at least one confirmation is required, with the exact condition for each to be equal |
| PaymentState.EvaluationFields | backend/app/services/payment_state.py:251-293 | an evaluation repeats amount, policy and deadline, and gives the three sums and the two counts under their own names |
| PaymentState.StatusMeaning | backend/app/services/payment_state.py:265-281 | each status if and only if a condition on the counted outputs, the amount and the deadline; `seen_in_mempool` never |
| PaymentState.RaisingTip | backend/app/services/payment_state.py:256-273 | a higher tip only turns paid_unconfirmed into paid_confirmed |
| PaymentState.PassingDeadline | backend/app/services/payment_state.py:274-281 | the clock can only expire a payment that is still short |
| PaymentState.MatchMeaning | backend/app/services/payment_state.py:117-155 | reading the outputs fails exactly if one to the address has an unreadable or negative index or amount; otherwise an observation is reported if and only if some output to the address has its positive value and its index, an output without an index counting by its position |
| PaymentState.TransactionMeaning | backend/app/services/payment_state.py:100-155 | the same of a whole transaction, which also fails unless its id is 64 hexadecimal digits and it has a list of outputs |
| PaymentState.MatchTransactionOutputs | backend/app/services/payment_state.py:100-155 | the loop over outputs computes that reading |
| PaymentTables.FanOutMembers | backend/app/services/payment_store.py:110-147 | an event is queued to exactly the enabled endpoints of its merchant that want its type |
| PaymentTables.MerchantMeaning | backend/app/services/merchant_store.py:119-146 | a merchant is added exactly under a new id that starts with mrc_ and has at most 96 characters, with a name of 1 to 128 characters |
| PaymentTables.CredentialMeaning | backend/app/services/merchant_store.py:148-195 | a credential is added exactly for a known merchant, under a new id, with a label of at most 128 characters |
| PaymentTables.UpsertRefuses | backend/app/services/payment_store.py:1178-1235 | an output is recorded exactly for a known payment, with an index, a positive value and no other value on record |
| PaymentTables.UpsertMeaning | backend/app/services/payment_store.py:1194-1235 | its row keeps the earlier time and takes the height reported; no other row is touched |
| PaymentTables.TipMeaning | backend/app/services/payment_store.py:1126-1139 | the tip row gets height, hash and time, or stays if the height is negative |
| PaymentStore.PaymentStore.constructor | backend/app/services/payment_store.py:152-156 | a new store holds the legacy merchant and nothing else |
| PaymentStore.PaymentStore.RegisterMerchant | backend/app/services/merchant_store.py:119-146 | adds a new merchant with a proper display name and id, or changes nothing |
| PaymentStore.PaymentStore.CreateCredential | backend/app/services/merchant_store.py:148-195 | adds a credential of an existing merchant under a label that is not too long, or changes nothing |
| PaymentStore.PaymentStore.CreateWebhookEndpoint | backend/app/services/payment_store.py:765-800 | adds an enabled endpoint under a new id, whatever merchant it names |
| PaymentStore.PaymentStore.DisableWebhookEndpoint | backend/app/services/payment_store.py:851-869 | disables the merchant's own endpoint or reports it missing |
| PaymentStore.PaymentStore.StoreEvent | backend/app/services/payment_store.py:74-148 | appends an event once and queues its deliveries endpoint by endpoint, replacing none |
| PaymentStore.PaymentStore.CreatePayment | backend/app/services/payment_store.py:434-568 | replay, then reference, address and constraint checks in order, then payment, baseline, event and key together; nothing written on failure |
| PaymentStore.PaymentStore.UpsertTransaction | backend/app/services/payment_store.py:1178-1235 | keeps the earliest first-seen time and the last height; refuses a changed value |
| PaymentStore.PaymentStore.DeleteTransactionsNotIn | backend/app/services/payment_store.py:1078-1101 | keeps exactly the rows whose transaction is listed |
| PaymentStore.PaymentStore.UpdateChainTip | backend/app/services/payment_store.py:1126-1139 | replaces the tip, refusing a negative height |
| PaymentStore.PaymentStore.RefreshPayment | backend/app/services/payment_store.py:1237-1329 | stores a different evaluation under the next version with its event, and otherwise nothing |
| PaymentStore.PaymentStore.MarkWebhookDeliverySuccess | backend/app/services/payment_store.py:966-996 | the delivery becomes delivered, with its whole new row |
| PaymentStore.PaymentStore.MarkWebhookDeliveryFailure | backend/app/services/payment_store.py:998-1033 | the delivery becomes retry or dead, with its whole new row |
| PaymentStore.SelectObservations | backend/app/services/payment_store.py:1253-1272 | lists each recorded output once |
| PaymentStore.MergeOfDistinct | backend/app/services/payment_store.py:1263-1283 | evaluating recorded rows does not depend on the order they are listed in |
| StoreInvariants.StepKeepsRows | backend/app/services/payment_store.py:1178-1235 | every step keeps amounts, outputs and the tip within their constraints |
| StoreInvariants.RefreshSucceeds | backend/app/services/payment_store.py:1237-1284 | on such tables no refresh of a stored payment ever raises |
| StoreInvariants.FreshVersion | backend/app/services/payment_store.py:92-108 | inserting an event or ignoring it never ignores a new version's event |
| StoreInvariants.StepKeepsLogs | backend/app/services/payment_store.py:1285-1328 | every step keeps each payment's log a complete history |
| Creation.RunPersists | backend/app/services/payment_store.py:434-568 | no run changes a payment's terms, lowers a version, drops or rewrites an event, a key or a baseline |
| Creation.RunSound | backend/app/services/payment_store.py:434-568 | every state reached from a sound one is sound, under any interleaving |
| Creation.EventLogEqualsState | backend/app/services/payment_store.py:46-108 | at version n a payment has n events, one per version, first its creation, consecutive ones differing in status or a total; the event of each version goes on saying, field by field, what the row said at that version |
| Creation.WindowExclusivity | backend/app/services/payment_store.py:495-506 | an observation with a first-seen time belongs to at most one payment of an address, across merchants, in every reachable state |
| Creation.CreateStores | backend/app/services/payment_store.py:434-568 | a create stores a payment if and only if merchant, terms, id, key, reference and address allow it, each condition spelled out; the row is as requested, field by field, with its baseline, its creation event and its key, and nothing else changes |
| Creation.CreateRefuses | backend/app/services/payment_store.py:434-568 | any other create writes nothing: it replays its key's payment, or is refused for the first reason that applies |
| Creation.ReplayForever | backend/app/services/payment_store.py:461-492 | once a key made or replayed a payment, the same key and hash return it for good and another hash fails, with nothing written, whatever happens between |
| Creation.OneInsertPerKey | backend/app/services/payment_store.py:461-492 | any number of creations with one merchant and key insert one payment |
| Creation.ReferenceRefused | backend/app/services/payment_store.py:481-493 | a second payment for a merchant's reference is refused with nothing written, unless it is a replay |
| Gateway.GatewayMatchesAtomicCreate | backend/app/services/payment_gateway_service.py:244-302 | the separate checks and the create answer as one atomic create exactly unless no tip was found or another process overtook them |
| Gateway.AloneMatchesAtomicCreate | backend/app/services/payment_gateway_service.py:244-302 | with nobody else writing they always do, once a tip is found |
| Gateway.ConcurrentTwinIsRefused | backend/app/services/payment_gateway_service.py:253-266 | being overtaken happens: a concurrent twin gets a reference conflict instead of its replay |
| Ownership.EndpointOrigins | backend/app/services/payment_store.py:765-800 | the endpoints of a run are those its registering steps named, under the merchants they named |
| Ownership.ChecksMeaning | backend/scripts/payment_db_backup.py:106-182 | what it means for each of the eight counts to be zero |
| Ownership.OwnershipClosure | backend/scripts/payment_db_backup.py:106-182 | in every reachable state seven ownership counts are zero, and the eighth is exactly when every registered endpoint's merchant exists |
| Ownership.EndpointWithoutMerchant | backend/app/services/payment_store.py:765-800 | the eighth count does become one: a run of the store that registers an endpoint for no merchant |
| PaymentRows.RowsAfterRun | backend/app/services/payment_store.py:1178-1235 | in any interleaving a payment's rows are the fold of its own row steps |
| PaymentRows.PaymentUntouched | backend/app/services/payment_store.py:1237-1329 | a payment's row changes only by its own refreshes |
| StoredTotals.RefreshMeaning | backend/app/services/payment_store.py:1237-1329 | whatever was stored before, a refresh stores the sums over the recorded rows that are in time, in a block, and deep enough below the tip, and the status those sums give, as a new version with its event exactly if something is new |
| Expiry.LateRunKeepsLost | backend/app/services/payment_state.py:172-187 | a payment that can no longer be paid in time stays expired through every late run |
| Expiry.ExpiredIsAbsorbing | backend/app/services/payment_state.py:265-281 | expired is never left by any late run if and only if the outputs ever seen in time fall short of the amount |
| Expiry.FreshlyExpiredIsFinal | backend/app/services/payment_state.py:172-187 | with no recorded height in 1..creation height, a payment found expired is expired for good |
| Expiry.ExpiredCanRevive | backend/app/services/payment_state.py:172-187 | without that hypothesis it is not: a reachable expired payment and late steps that revive it |
| LogRefinement.FoldRefinesEvaluation | backend/app/services/payment_store.py:1194-1235 | storing a log then scoping gives the very entries that the evaluator's own merge of the raw log gives, if and only if every outpoint is settled |
| LogRefinement.OneTimeIsSettled | backend/app/services/payment_state.py:231-249 | sightings that share one first-seen time are settled |
| LogVerdicts.VerdictsAgreeExactly | backend/app/services/payment_state.py:213-293 | the stored rows and the raw log get the same verdict under every policy, tip and time, if and only if nothing counted was sighted too early and the last sightings show the same value arriving by every block, and as many outputs unconfirmed, as the last sightings in time |
| LogVerdicts.SettledVerdictsAgree | backend/app/services/payment_state.py:213-293 | in particular if each outpoint's last sighting is in the block of its last sighting in time |
| LogVerdicts.LoneDispute | backend/app/services/payment_state.py:213-293 | and with one outpoint in dispute, exactly then |
| LogVerdicts.MovesCanCancel | backend/app/services/payment_state.py:251-263 | with two in dispute not: outputs of equal value that swap blocks leave every verdict the same |
| StoredLogs.RowsAreSurvivors | backend/app/services/payment_store.py:1178-1235 | a payment's rows are the merge of the observations its upserts stored and its deletions spared, refused ones left out |
| StoredLogs.StoredVerdictsAgreeExactly | backend/app/services/payment_store.py:1237-1284 | in any run from a payment's creation, deletions and refused upserts included, its rows get the evaluator's verdict on that log, under every policy, tip and time, if and only if the log is undisturbed |
| StoredLogs.StoredEvaluationIsLogEvaluation | backend/app/services/payment_store.py:1268-1284 | so its stored evaluation is the evaluator's own when no outpoint changed its block, or was first sighted, out of time |
| LogVerdicts.LateConfirmationCountsOnlyInStore | backend/app/services/payment_store.py:1206-1225 | a log on which five are confirmed for the store and none for the evaluator, paid_confirmed for one and paid_unconfirmed for the other |
| PaymentWatcher.PaymentWatcher.PaymentsByScripthash | backend/app/services/payment_store.py:1036-1048 | finds exactly the payments of a script hash, each once |
| PaymentWatcher.PaymentWatcher.UpsertAll | backend/app/services/payment_watcher.py:510-517 | stores observations in order, stopping at the first that raises |
| PaymentWatcher.PaymentWatcher.RecordEntry | backend/app/services/payment_watcher.py:487-517 | records one history line, skipping baseline and unreadable transactions |
| PaymentWatcher.PaymentWatcher.RecordHistory | backend/app/services/payment_watcher.py:486-517 | records a whole history, in order |
| PaymentWatcher.PaymentWatcher.ReconcilePayment | backend/app/services/payment_watcher.py:479-528 | record, delete what is no longer listed, refresh |
| PaymentWatcher.PaymentWatcher.ReconcileScripthash | backend/app/services/payment_watcher.py:443-530 | performs exactly that program for every payment of the script hash |
| PaymentWatcher.PaymentWatcher.ListRefreshable | backend/app/services/payment_store.py:1103-1124 | lists refreshable payments up to the limit, the most recently updated kept |
| PaymentWatcher.PaymentWatcher.ApplyHeader | backend/app/services/payment_watcher.py:417-441 | sets the tip and refreshes the listed payments in turn |
| Reconciliation.ReconcileConverges | backend/app/services/payment_watcher.py:452-528 | whatever was recorded or missed before and whatever others did meanwhile, a reconcile leaves exactly the new positive outputs of the history, at their last heights and earliest times |
| Reconciliation.ConvergedDetermines | backend/app/services/payment_watcher.py:479-528 | converged rows do not depend on the past |
| Reconciliation.ReachableRowsFromChain | backend/app/services/payment_watcher.py:510-517 | the hypothesis on earlier rows holds in every state reached by reconciles |
| Reconciliation.ReconcileMakesChainSteps | backend/app/services/payment_watcher.py:486-517 | whatever the history holds, a reconcile upserts only outputs the chain pays the address and that are not in the baseline |
| Reconciliation.ReconcileUpsertsFromChain | backend/app/services/payment_watcher.py:479-517 | that stays so however long after its reading of the payment an upsert is made |
| Reconciliation.ReachableFromChain | backend/app/services/payment_watcher.py:486-517 | in every state reached from an empty database by such upserts and anything else, all payments' rows come from the chain |
| ReconcileTwice.ReconcileExecutes | backend/app/services/payment_watcher.py:479-528 | no step of a reconcile of a readable history raises |
| ReconcileTwice.ReconcileAll | backend/app/services/payment_watcher.py:452-530 | with a readable history and rows that came from the chain, a reconcile of a script hash completes and leaves all its payments caught up, rows and stored status |
| ReconcileTwice.ProcessScripthash | backend/app/services/payment_watcher.py:399-415 | a notification for a subscribed script hash ends with all its payments caught up, any other changes nothing |
| ReconcileTwice.ReconcileIdempotent | backend/app/services/payment_watcher.py:479-528 | repeating it later on the same side of every deadline changes only when rows were last written |
| ReconcileTwice.SecondPassIsQuiet | backend/app/services/payment_watcher.py:479-528 | so of two reconciles in a row the second leaves every height, value, time, version and event alone |
| HeaderRefresh.RefreshesExecute | backend/app/services/payment_watcher.py:432-441 | refreshing the listed payments stops at none of them |
| HeaderRefresh.ListCovers | backend/app/services/payment_store.py:1103-1124 | the list names every refreshable payment exactly when there are no more of them than its limit |
| HeaderRefresh.HeaderKeepsCurrent | backend/app/services/payment_watcher.py:417-441 | per payment: if it was up to date, or refreshable, it is up to date after a header that lists it if it is refreshable, its policy total included unless it has expired; that of an expired one stays current exactly if no counted output crosses its policy between the tips |
| HeaderRuns.AccountedIsKept | backend/app/services/payment_store.py:1103-1124 | a payment last judged no later than now, at whatever tip, is up to date now or refreshable now |
| HeaderRuns.HeaderStands | backend/app/services/payment_watcher.py:417-441 | after a header, with any rowless writes of other processes between its tip update and its refreshes, a payment that it refreshed or need not refresh is up to date as of some refresh, or untouched |
| HeaderRuns.HeadersKeepStatuses | backend/app/services/payment_watcher.py:399-441 | in every interleaved run of headers, reconciles and other writes, with clocks in any order, a payment that is behind is a refreshable one, and right after a header that reaches it, it is not behind, but for an expired payment's policy total |
| HeaderRuns.ListedHeader | backend/app/services/payment_watcher.py:427-440 | a header among other processes' writes is such a turn, and reaches a payment that is listed or that another process refreshed before the listing; so it reaches all if the list holds what is left then |
| HeaderRuns.PlainHeader | backend/app/services/payment_watcher.py:427-440 | with nobody writing in between it reaches exactly the payments it lists and those not refreshable, and all payments exactly when no more are refreshable than the list may hold |
| HeaderRuns.PlainReconcile | backend/app/services/payment_watcher.py:476-528 | a payment's reconcile is such a turn, however long ago its clock was read |
| HeaderRefresh.PolicyTotalLags | backend/app/services/payment_store.py:1110 | a reachable expired payment whose policy total stays 0 where an evaluation finds 60 |
| HeaderCutoff.ListedOrCutOff | backend/app/services/payment_store.py:1103-1124 | a refreshable payment is listed if no more than the limit were updated as recently, and cut off if the limit or more were updated more recently |
| HeaderCutoff.CutOffForGood | backend/app/services/payment_watcher.py:432-440 | with as many more recently updated paid payments as the list may hold, no later header refreshes the payment, however many follow and whatever other rowless writes come between |
| HeaderCutoff.CrowdedInvoiceWaits | backend/app/services/payment_watcher.py:432-440 | so an unpaid invoice crowded out like that still says waiting past its deadline, is behind, and stays refreshable |
| HeaderCutoff.CrowdForms | backend/app/services/payment_store.py:1237-1329 | two paid payments do crowd out an older invoice from lists of two, in a reachable state |
| HeaderCutoff.InvoiceIsForgotten | backend/app/services/payment_watcher.py:432-435 | from there, with a limit of one subscription, every series of headers leaves the invoice waiting after its deadline |
| WebhookWorker.RetryDelayDoubles | backend/app/services/webhook_worker.py:81-85 | the delay starts at the base, doubles, and stays at the maximum |
| WebhookWorker.AttemptVerdict | backend/app/services/webhook_worker.py:87-208 | delivered exactly on 200 to 299; retried exactly, with attempts to spare, without an answer or on 408, 409, 425, 429 or 500 to 599; dead otherwise; with the code, status and times that each leaves in the row |
| WebhookWorker.WebhookWorker.ListDue | backend/app/services/payment_store.py:871-902 | lists due deliveries of enabled endpoints up to the limit, the longest due kept |
| WebhookWorker.WebhookWorker.Deliver | backend/app/services/webhook_worker.py:87-186 | one attempt makes exactly one write |
| WebhookWorker.WebhookWorker.Fail | backend/app/services/webhook_worker.py:188-208 | a failure is recorded with its next attempt time |
| WebhookWorker.WebhookWorker.RunOnce | backend/app/services/webhook_worker.py:70-79 | one cycle attempts the listed batch in order, as it was listed |
| EndpointRuns.AddedReceives | backend/app/services/payment_store.py:74-148 | an endpoint just added receives each later event of its merchant of a type it takes, due at once, and no other |
| EndpointRuns.DisableCloses | backend/app/services/payment_store.py:851-869 | only its own merchant disables an endpoint, and no other endpoint changes |
| EndpointRuns.ClosedForGood | backend/app/services/payment_store.py:110-148 | whatever any process does, a disabled endpoint stays disabled, no event queues a delivery for it, and none it has is due again |
| DeliveryRuns.DeliveriesEnd | backend/app/services/webhook_worker.py:170-208 | pending means no attempts, retry fewer than the limit, never more than the limit; delivered and dead are final, in every run |
| DeliveryRuns.DeliveryTerminates | backend/app/services/webhook_worker.py:170-208 | every attempt uses up allowance and no delivery has more than the limit, so a run makes at most limit attempts per delivery |
| DeliveryRuns.RunOnceIsLegal | backend/app/services/webhook_worker.py:70-79 | what one polling cycle writes is a legal play of attempts |
| DeliveryRuns.WorkerIsLegal | backend/app/services/webhook_worker.py:55-79 | whatever one worker's cycles do, interleaved with any other writes, is a legal play |
| DeliveryRuns.WorkerTerminates | backend/app/services/webhook_worker.py:170-208 | so a worker started on an empty database makes at most limit attempts per delivery ever queued |
| DeliveryRuns.DueIsListed | backend/app/services/payment_store.py:880-902 | a due delivery is in the batch if no more than a batch's worth has been due as long |
| DeliveryRuns.DueIsAttempted | backend/app/services/webhook_worker.py:70-79 | every cycle that finds a delivery due makes an attempt at it, if those cycles have room for it and are not cut short; nothing is asked of the cycles between |
| DeliveryRuns.EndsWhenDueEnough | backend/app/services/webhook_worker.py:87-208 | so a delivery found due as often as it has attempts left is delivered or dead |
| DeliveryRuns.DoneInTime | backend/app/services/webhook_worker.py:55-85 | if the worker lists at least every so often and the endpoint stays enabled, it is delivered or dead by the first listing after its next attempt time plus, for each further attempt, a retry delay and two gaps |
| DeliveryRuns.DeliveredWasAccepted | backend/app/services/webhook_worker.py:170-177 | a delivery that a run leaves delivered was answered with a 2xx in that run |
| DeliveryRuns.PlayIsRun | backend/app/services/webhook_worker.py:70-79 | a play of the worker and the others is a run of the store |
| DeliveryRuns.AttemptsSpaced | backend/app/services/webhook_worker.py:81-85 | successive attempts are at least the growing delay apart, and are all counted |
| ReferenceMerchant.ReferenceMerchantStore.constructor | backend/examples/reference_merchant.py:353-376 | the order book starts empty |
| ReferenceMerchant.ReferenceMerchantStore.ReserveOrder | backend/examples/reference_merchant.py:383-411 | reserves a new order under a new key, returns the same reservation, or changes nothing |
| ReferenceMerchant.ReserveMeaning | backend/examples/reference_merchant.py:383-411 | every outcome of a reservation by its condition: malformed, the same again, another key's conflict, a key in use, or a new row that is empty but for its key |
| ReferenceMerchant.ReferenceMerchantStore.BindPayment | backend/examples/reference_merchant.py:413-454 | writes the answer's payment, status and version over whatever the order held, unless reference, payment id, checkout base or order refuse it |
| ReferenceMerchant.BindMeaning | backend/examples/reference_merchant.py:413-454 | every outcome of a bind by its condition, and every field of the one row it writes |
| ReferenceMerchant.ReferenceMerchantStore.FindOrder | backend/examples/reference_merchant.py:502-511 | looks an event's order up by payment, then by reference |
| ReferenceMerchant.ReferenceMerchantStore.ApplyVerifiedEvent | backend/examples/reference_merchant.py:466-557 | records and applies, ignores as duplicate or stale, or rolls everything back, the record included |
| ReferenceMerchant.ReceiveMeaning | backend/examples/reference_merchant.py:502-557 | for an event about an order: mismatch, conflict, duplicate, stale or applied, each by its condition, with the record and the row it leaves |
| ReferenceMerchant.UnknownIsRefused | backend/examples/reference_merchant.py:502-514 | an event about no order is refused without a record |
| ReferenceMerchant.CheckoutMeaning | backend/examples/reference_merchant.py:100-113 | a checkout URL is the base without the slashes at its end, and the payment id as the only parameter |
| ReferenceMerchant.PaymentIdMeaning | backend/examples/reference_merchant.py:38 | a payment id is pay_ and 8 to 92 letters, digits, underscores and hyphens |
| ReferenceMerchant.KeyMeaning | backend/examples/reference_merchant.py:36 | a key is 1 to 128 letters, digits and four other characters |
| Text.ReferenceMeaning | backend/app/services/payment_gateway_service.py:39-40 | a reference is 1 to 128 letters, digits and five other characters |
| MerchantRuns.EarlyActLeavesNoTrace | backend/examples/reference_merchant.py:502-518 | events and binds that come before the reservation are refused and leave no record, so they can still be applied later |
| MerchantRuns.MerchantConverges | backend/examples/reference_merchant.py:498-557 | in any order, with any repetition or loss, an order ends at the highest version brought to it, with that version's status, if no bind regresses |
| MerchantRuns.HighestMeaning | backend/examples/reference_merchant.py:530-531 | the highest version is one of those brought and at least each of them |
| MerchantRuns.OrderIrrelevant | backend/examples/reference_merchant.py:498-557 | two runs that bring the same versions leave the same payment, version and status |
| MerchantRuns.RaisesUnlessRegressing | backend/examples/reference_merchant.py:441-452 | an act leaves the higher version exactly when it is not a bind of an older one |
| MerchantRuns.RedeliveryRepairsNothing | backend/examples/reference_merchant.py:519-528 | redelivering recorded events changes nothing |
| MerchantRuns.LateBindLosesPaidStatus | backend/examples/reference_merchant.py:441-452 | a paid order goes back to waiting by a late bind and stays there |
| EndToEnd.EventFacts | backend/app/services/payment_store.py:46-71 | a stored event carries its payment's merchant and reference and the status of one of its versions |
| EndToEnd.SentIsGenuine | backend/app/services/payment_store.py:1285-1328 | every event and every answer ever sent about a payment tells the same story of its versions |
| EndToEnd.MerchantAgreesWithStore | backend/examples/reference_merchant.py:498-557 | if the current version's event arrives at least once after the reservation and no later bind regresses, the merchant's order has the store's status and version |
| DeliveredEvents.OnlyLateIsTaken | docs/PHASE_H3_REFERENCE_MERCHANT_FLOW.md:316-336 | the order book takes no event of the payment before its order is reserved, so one that it took came after |
| DeliveredEvents.DeliveredMeansAgreed | docs/WEBHOOKS.md:184 | if the delivery of the current version's event ends delivered, its receiver answers 2xx only to what the order book took, and no later bind regresses, the merchant's order has the store's status and version |
| Pagination.LessMeaning | backend/app/services/payment_store.py:684-696 | ids are ordered by their first different character, a prefix before its extensions |
| Pagination.ListingOrder | backend/app/services/payment_store.py:701-711 | rows come newest first and, of one second, in falling order of their ids |
| Pagination.ListsOnce | backend/app/services/payment_store.py:701-711 | a set of rows has one listing in strictly descending order |
| Pagination.RestIsListing | backend/app/services/payment_store.py:684-696 | the rows below a row are the rest of the listing |
| Pagination.ListPayments | backend/app/services/payment_store.py:654-714 | the query, read row by row, is the listing's first rows and whether there are more |
| Pagination.StatusNames | backend/app/services/payment_gateway_service.py:42-51 | each of the six names is its own status, and any other name is none |
| Pagination.KeyMembers | backend/app/services/payment_store.py:664-696 | a query has the merchant's payments with the status and reference asked for, below the cursor |
| Pagination.NamedRefuses | backend/app/services/payment_gateway_service.py:334-340 | a malformed reference is refused first, then an unknown status |
| Pagination.ListAnswers | backend/app/services/payment_gateway_service.py:341-394 | which limits and cursors are refused, and which rows and next cursor any other call gets |
| Pagination.ListPersistedPayments | backend/app/services/payment_gateway_service.py:322-394 | validates reference, status, limit and cursor, in that order, and answers the page with its next cursor |
| PageWalks.PagesConcatenate | backend/app/services/payment_gateway_service.py:382-386 | following cursors ends and concatenates to the whole list, under any filter |
| PageWalks.WalkMissesNothing | backend/app/services/payment_gateway_service.py:382-386 | while others write between pages and without a status filter, the walk ends, repeats no payment, misses none present at the start and shows only the merchant's own |
| Text.SpaceMeaning | backend/app/pepepow/address.py:33-37 | the 29 code points that are stripped |
| Text.StripMeaning | backend/app/pepepow/address.py:33-37 | stripping takes those off both ends of a string and nothing else |
| Base58.DigitIsAlphabetIndex | backend/app/pepepow/address.py:6-7 | a character's digit is its place in the alphabet |
| Base58.ToBytesIsBytes | backend/app/pepepow/address.py:50 | the length computed from the bit length is exactly the number of bytes needed |
| Base58.B58Decode | backend/app/pepepow/address.py:40-52 | the accumulating loop computes the decoding, with its errors |
| Base58.DecodeRefuses | backend/app/pepepow/address.py:40-47 | decoding refuses exactly blank strings and strings with a character outside the alphabet |
| Base58.DecodeMeaning | backend/app/pepepow/address.py:48-52 | the decoded bytes, read in base 256, are the number the characters' places in the alphabet write in base 58, and start with one zero byte for each leading 1 and no more |
| Base58.DecodeInjective | backend/app/pepepow/address.py:40-52 | two strings with the same decoding are the same but for surrounding space |
| Base58.Base58CheckDecode | backend/app/pepepow/address.py:55-71 | splits and checks the checksum, with its errors in order |
| Base58.DecodePepewP2pkhAddress | backend/app/pepepow/address.py:74-84 | accepts exactly prefix, version and length |
| Base58.AcceptedMeaning | backend/app/pepepow/address.py:74-84 | an address is accepted exactly if it starts with P and decodes to 25 bytes, the first 55 and the last four the checksum; its script is those 20 bytes between 76a914 and 88ac |
| Base58.RefusedMeaning | backend/app/pepepow/address.py:55-84 | any other address is refused for the first reason that applies |
| Base58.AddressesNeverShareKeys | backend/app/pepepow/address.py:74-84 | accepted addresses that pay one key hash are the same address |
| Base58.ScripthashNamesAddress | backend/app/pepepow/scripthash.py:12-15 | a script hash names one address |
| ScripthashWindows.ScripthashExclusivity | backend/app/services/payment_gateway_service.py:211-290 | exclusivity by address string is exclusivity by script hash |
| Decimals.KeptMeaning | backend/app/services/payment_service.py:92-95 | the context keeps every digit exactly when there are at most 28 significant ones, none below the smallest unit |
| Decimals.HalfEvenMeaning | backend/app/services/payment_service.py:92-93 | a number is rounded to the nearest, and to the even one of two as near |
| Decimals.RoundedIsExact | backend/app/services/payment_service.py:92-93 | the rounded product is the product exactly when every digit was kept |
| Amounts.SpaceIgnored | backend/app/services/payment_service.py:80-87 | space around an amount makes no difference |
| Amounts.UnderscoreIgnored | backend/app/services/payment_service.py:84-87 | nor does an underscore inside it |
| Amounts.ReadForm | backend/app/services/payment_service.py:80-87 | every numeral with a sign or none, digits, a point or none and an exponent or none is read as its value |
| Amounts.OnlyFormsAreRead | backend/app/services/payment_service.py:84-87 | and nothing else is read |
| Amounts.ConvertMeaning | backend/app/services/payment_service.py:80-97 | a numeral whose digits are kept is accepted exactly when its value is a whole number of atoms, and as that number; any other is never accepted as its value |
| Amounts.KeptAmount | backend/app/services/payment_service.py:92-95 | when the digits of a written amount are kept |
| Amounts.FormatSign | backend/app/services/payment_service.py:101-107 | a negative amount is written as its opposite after a minus sign, and zero as one digit |
| Amounts.RoundTrip | backend/app/services/payment_service.py:80-107 | parsing the formatted amount gives it back, if and only if it has at most 28 significant digits and at most a million digits |
| Amounts.EveryRealAmount | backend/app/services/payment_service.py:80-107 | in particular for every positive amount below 10^28 |
| Amounts.LongAmountAccepted | backend/app/services/payment_service.py:92-97 | an amount with nine decimals is accepted as another amount |
| Amounts.TinyAmountAccepted | backend/app/services/payment_service.py:92-97 | a positive numeral far enough below the smallest unit is accepted as zero |
| Amounts.TinyStringAccepted | backend/app/services/payment_service.py:80-98 | the string 1e-k is accepted exactly for k up to 8, and again, as zero, for k from 1000035 on |
| RpcClient.SubscriptionClient.Open | backend/app/electrumx/subscription_client.py:57-79 | a new connection with its reader |
| RpcClient.SubscriptionClient.BeginRequest | backend/app/electrumx/subscription_client.py:88-144 | refused unless connected, otherwise a new pending id |
| RpcClient.SubscriptionClient.FinishRequest | backend/app/electrumx/subscription_client.py:171-174 | a request leaves the table and cancels its future if still unresolved |
| RpcClient.SubscriptionClient.Dispatch | backend/app/electrumx/subscription_client.py:197-219 | a reply settles the pending future of its id and touches no other |
| RpcClient.SubscriptionClient.FailPending | backend/app/electrumx/subscription_client.py:238-241 | fails exactly the unresolved pending futures |
| RpcClient.SubscriptionClient.EndReader | backend/app/electrumx/subscription_client.py:227-236 | the reader's end fails what is pending unless it was cancelled by a close |
| RpcClient.SubscriptionClient.BeginClose | backend/app/electrumx/subscription_client.py:102-110 | close marks the client closing and drops its reader task |
| RpcClient.SubscriptionClient.FailOnClose | backend/app/electrumx/subscription_client.py:116-121 | close drops the writer and fails what is pending |
| RpcClient.SubscriptionClient.EndClose | backend/app/electrumx/subscription_client.py:123-133 | close has returned and the client is idle |
| RpcClient.FlagMeaning | backend/app/electrumx/subscription_client.py:57-133 | writer, reader task, reader loop, closing and closed are each on exactly if something set them and nothing has cleared them since, and a request begins exactly when the first three are on |
| RpcClient.InTableUntilEnd | backend/app/electrumx/subscription_client.py:140-174 | a request is in the pending table from its beginning to its own end |
| RpcClient.NothingLeftWaiting | backend/app/electrumx/subscription_client.py:102-133 | in every interleaving no future is unresolved once the reader ended outside close, nor from close's failing until the next connection |
| RpcClient.RepliesReachTheirRequests | backend/app/electrumx/subscription_client.py:140-219 | a request's future is a result, an error or a missing result if and only if the first step that settles it is the reply with its id that carries just that; cancelled or broken if and only if that step ended the request or failed it; unresolved if and only if there is none; and it never changes again |
| RpcClient.IdsNeverReused | backend/app/electrumx/subscription_client.py:140-144 | a later request always has a higher id, over reconnections too |
| TransferFraming.SendableMeaning | backend/scripts/payment_db_offhost_sender.py:44-66 | a pair is sent exactly if its name, its manifest and the drill allow it; the database's size is not looked at |
| TransferFraming.WriteTransferStream | backend/scripts/payment_db_offhost_sender.py:82-98 | writes header line, manifest and database of a valid pair, and nothing otherwise |
| TransferFraming.CopyExact | backend/scripts/payment_db_offhost_receiver.py:92-100 | for any chunking, copies exactly the size asked for or reports truncation |
| TransferFraming.Destination.LinkPair | backend/scripts/payment_db_offhost_receiver.py:103-118 | both files appear or neither does |
| TransferFraming.Destination.ReceiveStream | backend/scripts/payment_db_offhost_receiver.py:128-184 | the outcome depends only on the bytes, and a refused transfer leaves the directory as it was |
| TransferFraming.RoundTrip | backend/scripts/payment_db_offhost_receiver.py:64-169 | what is written is read back byte for byte, exactly when the sizes are within bounds and the names free |
| TransferFraming.NameMeaning | backend/scripts/payment_db_offhost_receiver.py:22 | a backup is named after eight digits of day and six of time |
| TransferFraming.AcceptedIsStored | backend/scripts/payment_db_offhost_receiver.py:149-165 | the stored files are the accepted stream, cut where the header says |
| TransferFraming.AcceptedExactly | backend/scripts/payment_db_offhost_receiver.py:64-184 | a transfer is accepted as a pair if and only if its stream is a proper header line that declares it, then its manifest and its database, the names are free, the manifest fits and the drill passes |
| TransferFraming.PrefixRefused | backend/scripts/payment_db_offhost_receiver.py:64-100 | every strict prefix of an accepted stream is refused as truncated |
| TransferFraming.ExtensionRefused | backend/scripts/payment_db_offhost_receiver.py:164-165 | every strict extension is refused for trailing data |

## Left out

- HTTP routers, templates, deployment files, price, market, network and status services: plumbing and
  upstream aggregation with easy branches only.
- SHA-256, HMAC, base64, tokens, DNS and TLS: opaque. Identifiers are injective, signatures are checked before
  the model begins, and the address checksum is an arbitrary function of the payload.
- Schema migration, write-ahead logging, busy timeouts and connection handling: the store starts empty and
  each method is one atomic step. Legacy rows from before window exclusivity are not modelled.
- PaymentStore.PaymentStore.CreateCredential: a disabled merchant is refused in the code, but nothing in the
  repository disables a merchant, so merchants have no such flag here.
- ReferenceMerchant.ReferenceMerchantStore.BindPayment: `urlparse` is opaque, so a checkout base comes with its
  parts; the checks on the parts are modelled.
- HeaderRuns.HeadersKeepStatuses: row steps of a payment come with the refresh that completes its reconcile; a
  reconcile that raises before it is not covered. A header interrupted by another process's tip update counts as
  single writes: nothing is claimed until the next header.
- Payments' label and message columns, creation timestamps of merchants and credentials, disabling a credential, and
  JSON text layout.
- Transaction ids are taken in lower case, and a history line always carries its id: the code lower-cases ids
  and falls back on the transaction's own id.
- The order in which observations are read back from the store: evaluation is proved not to depend on it.
- Ties in queries ordered by one column and cut by a limit: any order among equals is allowed.
- The watcher's subscription bookkeeping, its notification queue and overflow flag, and its health counters;
  a request that fails in the middle of a reconcile. Convergence is stated for each completed reconcile.
- Malformed verbose transactions: the methods skip them as the code does, and convergence assumes that the
  history's transactions are readable.
- The client's reader loop is modelled one turn at a time, each turn a method: notifications, unusable replies
  and the bytes on the wire change none of the modelled state.
- RpcClient.RepliesReachTheirRequests: a reply's id is taken after the code's conversion to an integer, which
  also accepts a numeral in a string or a fraction; and `connect` and `close` are called by one task at a time.
- EndToEnd.MerchantAgreesWithStore: assumes that the last event is received. `DeliveredEvents.DeliveredMeansAgreed`
  has that from a delivered row; a delivery that ends dead brings nothing.
- DeliveryRuns.DoneInTime: assumes, of the cycles that find the delivery due, that they attempt all they list and
  that no more than a batch has been due as long; and that the worker goes on listing. Without the first it may
  starve behind a backlog, which is `DeliveryRuns.DueIsListed`.
- PaymentStore.PaymentStore.CreatePayment: the code reads the row it returns on a new connection after the commit, so
  another process's refresh can already show in it; here it is the row as created or found.
- PageWalks.WalkMissesNothing: assumes, as the gateway's own ids satisfy, that the merchant's payments have
  non-negative creation times and ids of 8 to 96 characters, since the gateway refuses other cursors.
- Amounts.RoundTrip: Python refuses to write an integer of more than 4300 digits as text unless told otherwise;
  that limit is not modelled.
- Amounts: `TooLarge` stands for the overflow the parser lets escape; digits are ASCII, decimals are fixed at eight, and the constructor's own limits on exponents beyond
  10^18 are not modelled.
- TransferFraming: backup names use ASCII digits; the header, the manifest parser and the restore drill are
  arbitrary functions, headers being one line that reads back; pruning old pairs, permissions and fsync are
  left out, and the sender's files do not change while they are sent.
- The legacy in-memory payment monitor.
