# ClaimRail: a Dafny model of its claim pipeline

ClaimRail turns finished prediction-market positions into a redemption plan, follows the owner's transactions on
chain and delivers events about them. This project models the parts of it in which money or messages could be lost,
repeated or misreported, and proves what those parts promise. `dafny verify dfyconfig.toml` checks everything.

## What is modelled

**Leases.** Deliveries, outbox jobs and claim transactions are rows that several workers lease, retry, complete, fail
and replay. `DeliveryRepository`, `OutboxJobs` and `ClaimRepository` are the repository classes; `Deliveries`,
`OutboxJobs` and `Claims` say what each statement does to the tables; `DeliveryRuns`, `JobRuns`, `Dispatch` and
`ClaimRuns` are the transition systems in which the environment picks the interleaving, the clock, crashes, lost answers
and which eligible row a lease returns. The `fail` of a delivery and of a job are two steps, as their select and their
update are. `DeliverySafety`, `DeliveryHistory`, `WorkerHistory` and `ClaimHistory` hold what is true of every run;
`DeliveryHistory` and `ClaimHistory` speak of the columns of rows, whoever may lease or write them and what each write
leaves, `WorkerHistory` of the calls of the worker loop.

**Planning.** `Planner` prepares a plan (deduplicate, gate, group, floor-divide, check the backing of each market,
batch), `Payout` holds the payout arithmetic, `Finalize` pairs batches with simulations. The results about it are in
`PlanAccounting`, `PlanReasons`, `PlanSafety`, `PlanOrder` and `PlanFields`; `PlanReasons.Fate` judges one candidate
among those that pass their gates, `PlanFields` does so in the fields of the input alone.

**Chain evidence.** `Receipts` matches the logs of a mined transaction to a batch, `ReceiptSafety` says when that
matching can be trusted, `ReceiptFields` which receipts confirm a batch, and `Conservation` joins planner, receipts and
claim repository into one statement about money.

**Reading.** `OutcomeBalances` is the paged scan, `Concurrency` the bounded map over it, `Markets` the comparison of
indexer and chain, `ReadSide` the positions, assessments, candidates and inbox, `ReadFields` what these say in the
fields of rows and records, `InboxAgreement` their agreement with the planner.

**Integrity.** `Canonical` is the normal form that is hashed and the form that is stored, `PlanStorage` the
schema-driven decoder, `PlanIntegrity` the claim-plan schema and the survival of its hash, `PlanValues` the plan as a
JavaScript value and the chain from planner to stored hash, `PlanContent` what that value says under each key.

**Quotes.** `OrderBook`, `OrderQuote`, `StakeQuote`, `SellQuote` and `PositionPnL` are the order-book sweeps and the
average-cost fold of the checked-in SDK source.

`Ordering`, `Arithmetic`, `Backoff` and `Wrappers` are shared.

## Main results

- Fencing: in every interleaving at most one `complete` of a delivery succeeds, `delivered` is never left, and a holder
  whose lease was retaken (also under the same worker id) always loses. The split `fail` acts as one step for every
  attempt number not above the row's counter at its select, which covers every attempt a worker was granted; above it
  the exact condition is given, and a concrete run in which the two statements differ from one.
- Exactly-once routing over at-least-once jobs, by any number of crashing workers, which refine the delivery protocol: a
  job is only ever completed by the lease holder that routed its event under that lease. Exactly which stale calls the
  outbox guard lets through is stated for callers without any discipline.
- Who is notified of what: in every run a delivery was created for a route that was live and listed the event's type,
  and is marked delivered only after the transport accepted it under the attempt the row carries. A worker that does
  not crash reports every attempt it leased.
- Conservation: a confirmed claim reports the summed expected payouts of its recorded batches, never more than the plan
  expected, and the whole of it if and only if every batch was recorded; its gas is the sum of what its completions
  brought.
- The planner lists every candidate exactly once and never exceeds a balance or a market's backing. It redeems a
  candidate if and only if nothing is wrong with its evidence, its position or its market, and otherwise excludes it
  for exactly that reason, for every candidate list; `PlanFields` says the same in the fields of the input alone. What
  deduplication keeps is the same for every order of the input if and only if no two different candidates share the
  first place among those of their id. Then the plan is the same, too; otherwise it need not be, and a concrete input
  whose plan changes under a swap is given.
- The greedy receipt matcher is sound always, and complete exactly when the first log naming each entry agrees with
  it. A batch is confirmed if and only if the fields of the receipt and of the chain's after-state say so.
- Every plan prepared from typed input and finalized survives storage, key reordering and decoding with its hash. For
  any value that parses, decoding keeps the normal form if and only if the value has no unknown key and lower-case
  identifiers, and storing keeps it if and only if the value has no date. The hash is a function of the normal form, so
  it survives then; that it changes otherwise needs a digest without collisions.
- The stake sweep buys the most that any single limit price can buy within the stake.
- Average-cost accounting conserves money exactly in spite of floor division, up to dust that is bounded by the largest
  holding and does not pile up over any stream of trades.

## Reading notes

- Each database transaction is one atomic step. Under READ COMMITTED two simultaneous completions of different batches
  could each still count the other as pending (packages/db/src/repositories/claims.ts:403-427); that is not modelled.
- Claim status `confirmed` counts recorded transactions only, not all batches of the plan. The code does that, and
  `Conservation.ConfirmedClaimIsWhole` states the consequence.
- A delivery whose worker crashes on its last attempt stays `delivering` for ever (`DeliverySafety.LastAttemptStrands`).
- `complete` does not look at the lease expiry: an expired lease that nobody has retaken can still complete.
- Delivery writes are fenced by worker and attempt number, outbox writes by worker id only. `Dispatch.OutboxFence` has
  one live call per worker id, as the worker loops do. Without that, `JobRuns.StaleCallsExactly` says that a stale
  call gets through exactly when its own worker id has leased the job again, and `JobRuns.OutboxFenceNeedsOneCall` is
  such a run.
- JavaScript bigint division rounds toward zero; `Arithmetic.Trunc` does too, wherever an operand could be negative.
- Identifiers are lower case and `localeCompare` is comparison by code unit. Times are integer milliseconds.
- A `Date` is stored as its text (packages/db/src/json.ts:10) and hashed as an empty object
  (packages/core/src/claims/canonical.ts:27-36). A plan holds none, so its hash is safe.

## Model

| member | source | states |
|---|---|---|
| `Backoff.DelaySchedule` | packages/db/src/repositories/deliveries.ts:433-439 | the first retry waits the base, each further failure doubles the wait until the cap or the twentieth doubling, and the wait never shrinks |
| `DeliveryRepository.DeliveryRepository.constructor` | packages/db/src/repositories/deliveries.ts:99-100 | a repository works on the tables as it finds them |
| `DeliveryRepository.DeliveryRepository.LeaseNext` | packages/db/src/repositories/deliveries.ts:265-348 | blank worker and non-positive lease are rejected; otherwise the first eligible unlocked row by due time is leased with the next attempt number and its attempt row opened, or nothing changes exactly when no row is ready |
| `DeliveryRepository.DeliveryRepository.Complete` | packages/db/src/repositories/deliveries.ts:350-402 | true, with the row delivered and the attempt closed, exactly when worker and attempt number still hold the row; otherwise nothing changes |
| `DeliveryRepository.DeliveryRepository.ReadForFail` | packages/db/src/repositories/deliveries.ts:418-433 | the select of `fail`, fenced by the worker only |
| `DeliveryRepository.DeliveryRepository.WriteFail` | packages/db/src/repositories/deliveries.ts:434-484 | the guarded update of `fail` decided from an earlier select: retry with backoff or dead, and a terminal failure switches the route off |
| `DeliveryRepository.DeliveryRepository.Fail` | packages/db/src/repositories/deliveries.ts:404-485 | undisturbed, the two statements are the indivisible `fail`; a non-positive back-off option is rejected, but only once the select has found the row |
| `DeliveryRepository.DeliveryRepository.ReplayDead` | packages/db/src/repositories/deliveries.ts:638-692 | only a dead row of this owner is revived, with at least the additional attempts left |
| `DeliveryRepository.DeliveryRepository.MaterializeEvent` | packages/db/src/repositories/deliveries.ts:200-263 | resolves the event to its wallet; afterwards every matching route has a delivery of the event, and the count is the number of new rows; without a wallet nothing happens |
| `DeliveryRepository.DeliveryRepository.EnqueueTestNotification` | packages/db/src/repositories/deliveries.ts:102-198 | an invalid address and a non-positive cooldown are rejected; nothing without a route; refused during the cooldown of the latest test event; otherwise one row for every live route; routes and rows are counted |
| `DeliveryRepository.RecentTests` | packages/db/src/repositories/deliveries.ts:128-150 | is empty exactly when the wallet is not cooling down |
| `DeliveryRepository.InsertRoutesAll` | packages/db/src/repositories/deliveries.ts:248-261 | after the insert every route has its row, so repeating it would insert nothing |
| `DeliveryRepository.InsertCreatesAll` | packages/db/src/repositories/deliveries.ts:235-261 | the routes that get a row are exactly those of the owner that are active, verified and sealed, list the event's type and had none |
| `DeliveryRepository.OwnerInFields` | packages/db/src/repositories/deliveries.ts:210-234 | whose event it is: a wallet event's address, else the payload's wallet or owner address, else the owner that the claim or position row names |
| `DeliveryRepository.AddressInFields` | packages/db/src/repositories/deliveries.ts:102-127 | an accepted address is 0x and forty digits or small letters a to f |
| `DeliveryRuns.RowChanges` | packages/db/src/repositories/deliveries.ts:265-485 | a step leaves a row alone, leases it, ends its current attempt or revives it from dead, and says which |
| `DeliveryRuns.StepKeepsInv` | packages/db/src/repositories/deliveries.ts:265-485 | the ledger, foreign-key, unique-route, grant and open-fail invariants are inductive |
| `DeliverySafety.Ledger` | packages/db/src/repositories/deliveries.ts:277-348 | in every reachable state attempt rows are numbered exactly 1..attemptCount within the budget, delivering is being leased, delivered is the last attempt having succeeded, no earlier attempt succeeded, and, while no `fail` names an attempt beyond the one its select finds, a failed row has an attempt left |
| `DeliverySafety.DeliveredIsFinal` | packages/db/src/repositories/deliveries.ts:361-401 | a delivered row is never written again |
| `DeliverySafety.OneCompletion` | packages/db/src/repositories/deliveries.ts:350-402 | in every run at most one `complete` of a delivery succeeds |
| `DeliverySafety.AttemptsNeverDrop` | packages/db/src/repositories/deliveries.ts:306-315 | attempt counters never decrease, replays included |
| `DeliverySafety.RetakenHolderLoses` | packages/db/src/repositories/deliveries.ts:374-381 | once a row is leased again, even to the same worker id, the earlier holder can neither complete nor fail it |
| `DeliverySafety.FailIsAtomic` | packages/db/src/repositories/deliveries.ts:404-485 | in every interleaving the split `fail` of an attempt number not above the counter at its select has the tables and the outcome of one indivisible step |
| `DeliverySafety.FailIsAtomicExactly` | packages/db/src/repositories/deliveries.ts:404-485 | the split acts as one step if and only if the number was not above the counter at the select, or the row itself would have decided and delayed alike |
| `DeliverySafety.GrantedIsPrudent` | packages/db/src/repositories/deliveries.ts:418-439 | an attempt that was granted to the calling worker is never above the counter at the select |
| `DeliverySafety.OverstatedFailIsNotAtomic` | packages/db/src/repositories/deliveries.ts:404-485 | a concrete run of five steps in which a `fail` with a number above the counter at its select does not act as one step |
| `DeliverySafety.RetryWaits` | packages/db/src/repositories/deliveries.ts:291-296 | after a retryable failure nobody leases the row before the backoff of the attempt its select found has passed |
| `DeliverySafety.LeaseIsExclusive` | packages/db/src/repositories/deliveries.ts:291-299 | between two leases of a row its holder ended the attempt or the first lease expired |
| `DeliverySafety.LastAttemptStrands` | packages/db/src/repositories/deliveries.ts:291-296 | a row whose last attempt is out stays as it is until its holder comes back |
| `DeliverySafety.LeaseBudget` | packages/db/src/repositories/deliveries.ts:649-676 | over a run the leases of a row are its attempt counter and at most the initial budget plus what replays added |
| `DeliverySafety.TestNotificationsAreSpaced` | packages/db/src/repositories/deliveries.ts:102-198 | queued test notifications of a wallet lie a full cooldown apart |
| `DeliveryHistory.MaterializeCreatesExactly` | packages/db/src/repositories/deliveries.ts:235-261 | a materialize creates a row for a route if and only if it is the owner's, active, verified and sealed, lists the event's type and had no row of the event |
| `DeliveryHistory.TestCreatesExactly` | packages/db/src/repositories/deliveries.ts:151-197 | a test notification creates a row for exactly the live routes of its owner, and only once no test event is younger than the cooldown |
| `DeliveryHistory.DeliveredForCause` | packages/db/src/repositories/deliveries.ts:235-261 | in every run each row was created pending for a route that was live then, by a materialize of an event whose type it listed or by a test |
| `DeliveryHistory.SubscribersOnly` | packages/db/src/repositories/deliveries.ts:245 | in every run a delivery of an event that is no test was created while its subscription listed the event's type |
| `DeliveryHistory.LeasableExactly` | packages/db/src/repositories/deliveries.ts:281-299 | a lease may return exactly the rows of live routes of the asked kinds with an attempt left that are due and pending, failed, or delivering with an expired lease |
| `DeliveryHistory.LeaseWrites` | packages/db/src/repositories/deliveries.ts:306-336 | what a lease writes, field by field, and that its attempt row opens and nothing else changes |
| `DeliveryHistory.CompletionWrites` | packages/db/src/repositories/deliveries.ts:361-401 | what a completion by the holder writes to the row and its attempt; by anyone else nothing changes |
| `DeliveryHistory.FailureReads` | packages/db/src/repositories/deliveries.ts:418-433 | the select of a failure finds a row exactly while it is out to the worker |
| `DeliveryHistory.FailureWrites` | packages/db/src/repositories/deliveries.ts:434-484 | what a failure by the holder writes: dead or due after the back-off, the attempt rejected, and the route switched off exactly when the failure is terminal |
| `DeliveryHistory.TerminalFailureSilences` | packages/db/src/repositories/deliveries.ts:470-484 | after a terminal failure no delivery of the route is leased or created until its subscription is edited |
| `DeliveryHistory.ReplayWrites` | packages/db/src/repositories/deliveries.ts:649-676 | what a replay writes, and that it changes nothing but a dead row of the owner |
| `OutboxJobs.OutboxJobRepository.LeaseNext` | packages/db/src/jobs/repository.ts:54-93 | the first ready unlocked job by availability is leased, or nothing changes exactly when none is ready |
| `OutboxJobs.OutboxJobRepository.Complete` | packages/db/src/jobs/repository.ts:95-115 | true, and the job completed, exactly when the worker owns the lease |
| `OutboxJobs.OutboxJobRepository.Fail` | packages/db/src/jobs/repository.ts:117-155 | undisturbed, the two statements are the indivisible `fail` with capped backoff; a non-positive back-off option is rejected once the select has found the job |
| `Dispatch.RefinesDeliveryRuns` | apps/worker/src/jobs/delivery-dispatch.ts:20-90 | every run of the worker loops is a run of the delivery protocol, so everything proved of it holds of the workers |
| `Dispatch.ExactlyOnceRouting` | apps/worker/src/jobs/delivery-dispatch.ts:67-88 | a completed job's event was routed by the lease holder that completed it, and every route that matched at any materialize has exactly one delivery from then on, whatever crashed |
| `Dispatch.MatchedStaysRouted` | packages/db/src/repositories/deliveries.ts:235-261 | a route that matched at a materialize is routed in every later state |
| `Dispatch.CompletedIsMaterialized` | apps/worker/src/jobs/delivery-dispatch.ts:67-80 | a completed job was completed by a lease holder that had routed its event under that very lease, with nothing of its own in between |
| `Dispatch.OutboxFence` | packages/db/src/jobs/repository.ts:95-115 | with one live call per worker id a completed job is completed by its latest lease, and once |
| `Dispatch.CompletedJobIsFinal` | packages/db/src/jobs/repository.ts:95-115 | a completed job never changes again |
| `Dispatch.WorkersArePrudent` | apps/worker/src/jobs/delivery-dispatch.ts:20-66 | a worker fails only the attempt it was granted, so its split `fail` acts as one step |
| `Dispatch.JobFailIsAtomic` | packages/db/src/jobs/repository.ts:117-155 | the split `fail` of a job acts as one step in every interleaving |
| `Dispatch.RefinesJobRuns` | packages/db/src/jobs/repository.ts:54-155 | the outbox steps of every run of the worker loops are a run of the undisciplined outbox |
| `JobRuns.StaleCallsExactly` | packages/db/src/jobs/repository.ts:95-155 | for callers that may lease, complete and fail at any time: the guard admits an earlier lessee if and only if the job is out and the same worker id has leased it again, and then another attempt is ended than the one it was given |
| `JobRuns.LatestOrNobody` | packages/db/src/jobs/repository.ts:95-155 | after a lease the guard admits exactly its worker id, and only while the job is out |
| `JobRuns.OutboxFenceNeedsOneCall` | packages/db/src/jobs/repository.ts:95-115 | a concrete run in which a call given attempt 1 completes attempt 2 |
| `JobRuns.LeasableExactly` | packages/db/src/jobs/repository.ts:63-75 | exactly which jobs a lease may return |
| `JobRuns.LeaseWrites` | packages/db/src/jobs/repository.ts:76-92 | what a lease writes, field by field |
| `JobRuns.CompletionWrites` | packages/db/src/jobs/repository.ts:95-115 | what a completion by the holding worker id writes; by any other nothing changes |
| `JobRuns.FailureReads` | packages/db/src/jobs/repository.ts:117-135 | the select of a failure finds a job exactly while its worker id holds it |
| `JobRuns.FailureWrites` | packages/db/src/jobs/repository.ts:117-155 | what a failure writes: dead once the attempts are used up, otherwise waiting until the back-off has passed |
| `JobRuns.JobRetryWaits` | packages/db/src/jobs/repository.ts:136-147 | in every run nobody leases a failed job before its back-off has passed |
| `JobRuns.JobLeaseIsExclusive` | packages/db/src/jobs/repository.ts:63-75 | between two leases of a job its worker id ended the first or the first expired |
| `Dispatch.JobBudget` | packages/db/src/jobs/repository.ts:63-68 | no job is leased more often than its maximum attempts |
| `WorkerHistory.LeaseIsAnswered` | apps/worker/src/jobs/delivery-dispatch.ts:25-65 | a worker that has not crashed since it leased a delivery has the attempt in hand for as long as it is out, so no call ends without reporting it |
| `WorkerHistory.JobLeaseIsAnswered` | apps/worker/src/jobs/delivery-dispatch.ts:67-88 | the same of the jobs it leases |
| `WorkerHistory.DeliveredWasAccepted` | apps/worker/src/jobs/delivery-dispatch.ts:30-42 | in every run a delivered row was leased, then accepted by the transport, then completed, by one worker under the attempt the row carries |
| `WorkerHistory.FailureIsBlamed` | apps/worker/src/jobs/delivery-dispatch.ts:43-64 | in every run an open `fail` is for an attempt the transport refused, terminally exactly if it says so, or whose completion did not come through, with the default back-off |
| `WorkerHistory.JobFailureIsBlamed` | apps/worker/src/jobs/delivery-dispatch.ts:71-88 | in every run a job is failed only after its routing or its completion did not come through |
| `WorkerHistory.CallEndsFor` | apps/worker/src/jobs/delivery-dispatch.ts:25-90 | a call that ends without a crash heard that its completion took effect, has written its failure, or found nothing out to it |
| `WorkerHistory.CallsEnd` | apps/worker/src/jobs/delivery-dispatch.ts:20-90 | whatever the answers, every step of a call brings its end closer |
| `WorkerHistory.WorkerCanMove` | apps/worker/src/jobs/delivery-dispatch.ts:20-90 | in every reachable state every worker can go on without crashing |
| `ClaimRepository.ClaimRepository.PersistReadyPlan` | packages/db/src/repositories/claims.ts:128-207 | upserts the deployment, an existing one keeping its chain, inserts the ready claim named by the hash once and publishes its creation; changes nothing exactly when the deployments table refuses the row, and keeps its constraints |
| `ClaimRepository.ClaimRepository.RecordSubmission` | packages/db/src/repositories/claims.ts:535-656 | every rejection in the code's order, a repeat reported as duplicate, otherwise a pending row, the claim submitted and the event published |
| `ClaimRepository.ClaimRepository.LeasePendingTransaction` | packages/db/src/repositories/claims.ts:284-337 | the first leasable unlocked row by due and submission time is leased, or nothing changes when none is |
| `ClaimRepository.ClaimRepository.DeferReconciliation` | packages/db/src/repositories/claims.ts:339-369 | releases and delays the row exactly when the worker holds it |
| `ClaimRepository.ClaimRepository.CompleteReconciliation` | packages/db/src/repositories/claims.ts:371-533 | closes a held row, judges its claim from all its rows and publishes the outcome |
| `ClaimRepository.SumRows` | packages/db/src/repositories/claims.ts:403-418 | counts and sums over the rows of the claim, nulls adding nothing |
| `ClaimRuns.StepKeepsInv` | packages/db/src/repositories/claims.ts:284-656 | claim verdicts, row uniqueness and the published events are kept by every step |
| `ClaimRuns.ClaimStatusIsVerdict` | packages/db/src/repositories/claims.ts:421-443 | submitted implies a pending transaction; with none pending the status is failed over superseded over confirmed; confirmed implies all recorded ones are, with collateral and gas their sums |
| `ClaimRuns.TerminalIsFinal` | packages/db/src/repositories/claims.ts:390-396 | a transaction with a terminal status is never written again |
| `ClaimRuns.OutcomePublished` | packages/db/src/repositories/claims.ts:445-480 | an outcome event exists exactly for the terminal status a transaction has |
| `ClaimRuns.SubmissionIsIdempotent` | packages/db/src/repositories/claims.ts:563-583 | an accepted submission repeated at once is a duplicate that changes nothing |
| `ClaimRuns.BatchesRecordedOnce` | packages/db/src/repositories/claims.ts:563-600 | no batch and no chain transaction is recorded twice |
| `ClaimHistory.AcceptedExactly` | packages/db/src/repositories/claims.ts:535-600 | a submission is recorded if and only if it is for a stored plan of its owner and chain, in time, names a batch without a row and brings a new hash; it is a duplicate if and only if the batch has the row of its hash |
| `ClaimHistory.RejectedFor` | packages/db/src/repositories/claims.ts:535-600 | the error a submission gets is the first thing wrong with it |
| `ClaimHistory.RecordedLegitimately` | packages/db/src/repositories/claims.ts:535-600 | in every run each recorded transaction was submitted for a plan of its owner and chain before the plan expired |
| `ClaimHistory.HashTakenExactly` | packages/db/src/repositories/claims.ts:584-656 | in every reachable state the unique keys refuse a hash exactly when a transaction has it |
| `ClaimHistory.ClosedBy` | packages/db/src/repositories/claims.ts:371-402 | in every run a closed row carries status, block, gas, collateral and time of the completion by its lease holder; a pending one has none |
| `ClaimHistory.ConfirmedTotals` | packages/db/src/repositories/claims.ts:403-443 | in every run a confirmed claim reports the sums of gas and collateral over all its rows, each as its completion brought it |
| `ClaimHistory.ClaimHeader` | packages/db/src/repositories/claims.ts:601-625 | in every run a claim has the hash of its batch 0 and the time of its first submission |
| `ClaimHistory.ConfirmingStep` | packages/db/src/repositories/claims.ts:427-443 | the completion that confirms a claim stamps it with its time and block |
| `ClaimHistory.PlanStays` | packages/db/src/repositories/claims.ts:154-175 | a stored plan and its deployment never change |
| `ClaimHistory.OwedPublished` | packages/db/src/repositories/claims.ts:480-520 | that a payout is owed is published exactly when a completion found a balance owed |
| `ClaimHistory.CreationPublished` | packages/db/src/repositories/claims.ts:176-200 | the creation of a plan is published exactly when its claim is stored |
| `ClaimHistory.LeasedWhenDue` | packages/db/src/repositories/claims.ts:284-337 | in every run a lease is given only on a pending row that is due and free or expired, and what it writes |
| `ClaimHistory.TransactionLeaseIsExclusive` | packages/db/src/repositories/claims.ts:296-310 | between two leases of a transaction its holder ended the first or the first expired |
| `ClaimHistory.DeferralWaits` | packages/db/src/repositories/claims.ts:339-369 | a deferred transaction is not leased before its delay has passed |
| `Payout.ValidatePayoutVector` | packages/core/src/settlement/payout.ts:21-48 | accepts a vector exactly when no check fails and reports the first that does |
| `Payout.PayoutWithinAmount` | packages/core/src/settlement/payout.ts:55-77 | a payout is between zero and the amount burned |
| `Payout.FloorOfSum` | packages/core/src/settlement/payout.ts:67 | paying two amounts together yields the two floors, or one unit more |
| `Payout.MergeGain` | packages/core/src/settlement/payout.ts:67 | merging k rows pays between 0 and k - 1 units more than paying them separately |
| `Planner.PrepareClaimPlan` | packages/core/src/claims/planner.ts:249-409 | the loops compute the plan function the lemmas below are about, error by error |
| `Planner.Deduplicate` | packages/core/src/claims/planner.ts:263-268 | keeps the first candidate of each id in sorted order |
| `Planner.GateAndGroup` | packages/core/src/claims/planner.ts:270-362 | gate exclusions and position groups in order |
| `Planner.BuildEntries` | packages/core/src/claims/planner.ts:364-374 | entries and group exclusions in order of position, or the fee error |
| `Planner.ReconcileSettlementBacking` | packages/core/src/claims/planner.ts:177-232 | a market's entries are all kept or all dropped |
| `Planner.CreateBatches` | packages/core/src/claims/planner.ts:234-247 | slices of the maximum size in order |
| `PlanAccounting.StagesConserve` | packages/core/src/claims/planner.ts:270-381 | gating, grouping, backing and sorting neither lose nor repeat a candidate id |
| `PlanAccounting.ExactAccounting` | packages/core/src/claims/planner.ts:263-381 | every candidate id is listed exactly once over entries and exclusions, and no other id is |
| `PlanReasons.FateIsExact` | packages/core/src/claims/planner.ts:249-409 | for every candidate list: a deduplicated candidate is in an entry if and only if its own evidence, its position and its market are faultless, and then in the entry its position makes; otherwise it is in exactly the exclusion its fate calls for |
| `PlanReasons.ExclusionsAreJustified` | packages/core/src/claims/planner.ts:108-232 | every exclusion is the one that some deduplicated candidate's fate calls for, reason, position and ids included |
| `PlanReasons.MarketVerdict` | packages/core/src/claims/planner.ts:177-232 | the verdict on all built entries of a market is the verdict on its two positions, judged from the input alone |
| `PlanReasons.PlanFailsExactly` | packages/core/src/claims/planner.ts:249-262 | there is no plan exactly for a bad input, a position within its balance whose fee exceeds the maximum, or an unsafe expiry |
| `PlanFields.RedeemedExactly` | packages/core/src/claims/planner.ts:82-410 | in fields: a deduplicated candidate is redeemed if and only if it is of the plan's chain, module, token, venue, operator and owner with faultless finalized evidence and a paying vector, all such candidates of its market and outcome agree, burn no more than the balance and are paid something, and the backing agrees with the other outcome's and covers both |
| `PlanFields.ForeignIsExcluded` | packages/core/src/claims/planner.ts:82-91 | a candidate that differs in any of the six identity fields is excluded for `identity_mismatch` and in no entry |
| `PlanFields.OwnEvidenceDecides` | packages/core/src/claims/planner.ts:270-350 | in fields, the exclusion each fault of a candidate's own evidence leads to, in the order in which they count |
| `PlanFields.PositionDecides` | packages/core/src/claims/planner.ts:108-232 | in fields, the reason a faultless candidate is excluded for with its position or market |
| `PlanFields.EntriesInFields` | packages/core/src/claims/planner.ts:108-160 | each entry stands for exactly the faultless candidates of its market and outcome, with their evidence, summed amount, floored payout and sorted ids |
| `PlanFields.PlanIsOrdered` | packages/core/src/claims/planner.ts:41-55 | entries are listed by position, exclusions by market, outcome and reason |
| `PlanFields.PlanCarriesInput` | packages/core/src/claims/planner.ts:383-409 | a plan is its input's, expires one time to live after it was made, and requires approval exactly when it is missing |
| `PlanFields.BadInputErrors` | packages/core/src/claims/planner.ts:249-262 | the error of a bad input is that of the first bad part: operator, time to live, batch size, recipient |
| `PlanFields.GoodInputPlans` | packages/core/src/claims/planner.ts:119-127 | in fields: a good input fails exactly for a position it would pay but for its fee, then for an expiry that is no safe integer |
| `PlanSafety.PlanIsSafe` | packages/core/src/claims/planner.ts:108-247 | every entry burns a positive amount within its balance, pays 1 to its amount, stands for gated input candidates of one position; positions are distinct; each market's payouts stay within its verified backing |
| `PlanSafety.EntryKey` | packages/core/src/claims/planner.ts:82-91 | within a plan, market and outcome identify the entry |
| `PlanSafety.MergingPays` | packages/core/src/claims/planner.ts:119-136 | an entry of k candidates pays 0 to k - 1 units more than redeeming them one by one |
| `PlanOrder.OrderIsIrrelevantExactly` | packages/core/src/claims/planner.ts:263-268 | every order of the candidates leaves the same survivors if and only if no two different candidates share the first place among those of their id |
| `PlanOrder.PlanIgnoresOrder` | packages/core/src/claims/planner.ts:33-48 | under that condition order and repetition of the candidates do not change the plan or the error |
| `PlanOrder.SurvivorIsLeast` | packages/core/src/claims/planner.ts:263-268 | deduplication keeps only least candidates of an id, and under that condition all of them |
| `PlanOrder.TiesDecide` | packages/core/src/claims/planner.ts:33-39 | of two tied candidates the one listed first survives |
| `PlanOrder.FirstOfTieIsRedeemed` | packages/core/src/claims/planner.ts:263-381 | whatever a plan of two tied candidates redeems has the amount of the one listed first |
| `PlanOrder.SwapChangesPlan` | packages/core/src/claims/planner.ts:263-381 | a concrete input whose plan changes when its two tied candidates are swapped |
| `Finalize.BatchesCover` | packages/core/src/claims/planner.ts:234-247 | batches concatenate to the entries, hold 1 to the maximum, only the last may be short, and their totals add up |
| `Finalize.BatchesOfPlan` | packages/core/src/claims/planner.ts:234-247 | the batches of a prepared plan split its entries and its expected payout exactly |
| `Finalize.ValidateSimulations` | packages/core/src/claims/planner.ts:411-430 | throws for emptiness, then for the count, then for the first batch without a passed, recent simulation |
| `Finalize.FinalizeClaimPlan` | packages/core/src/claims/planner.ts:432-442 | finalizes exactly when nothing is thrown, with simulations sorted and the hash of draft and simulations |
| `Finalize.FinalizesExactly` | packages/core/src/claims/planner.ts:411-430 | a prepared plan finalizes if and only if it has entries and the simulations are a bijection with its batches, all passed and none older than the plan |
| `Finalize.SimulationsLineUp` | packages/core/src/claims/planner.ts:434-436 | in the finalized plan simulation k belongs to batch k |
| `Receipts.MatchEntries` | packages/dreamdex/src/receipts/service.ts:146-199 | the greedy loop over entries and logs, with the first problem it meets |
| `Receipts.CheckPostState` | packages/dreamdex/src/receipts/service.ts:201-247 | names the first wrong balance, then the first market whose backing is too high; passes exactly when every balance fell by its amount and every market's backing by what it paid |
| `Receipts.ReconcileClaimReceipt` | packages/dreamdex/src/receipts/service.ts:111-280 | which of pending, superseded, failed and confirmed results, the problem a failure names, and the figures a confirmation reports |
| `ReceiptSafety.MatchInjects` | packages/dreamdex/src/receipts/service.ts:150-199 | a match is an injective map from entries to distinct logs of equal market key, outcome, recipient, amount and payout |
| `ReceiptSafety.ConfirmedMeansRedeemed` | packages/dreamdex/src/receipts/service.ts:146-260 | a confirmation proves the redemptions one by one and its collateral is the sum of the entries' expected payouts |
| `ReceiptSafety.LogOrderIsIrrelevant` | packages/dreamdex/src/receipts/service.ts:150-168 | with one log per entry the verdict does not depend on log order or repetition |
| `ReceiptSafety.GreedyIsExact` | packages/dreamdex/src/receipts/service.ts:146-199 | with one entry per market and outcome the matcher accepts if and only if the first log naming each entry agrees with it |
| `ReceiptSafety.GreedyIsNotComplete` | packages/dreamdex/src/receipts/service.ts:150-190 | with two logs of one key the order decides: a concrete shape |
| `ReceiptFields.MatchInFields` | packages/dreamdex/src/receipts/service.ts:150-199 | in log fields: the match succeeds if and only if for every entry the first log of its market key and outcome, paid to the recipient and held by the owner or the module, burned its amount and paid its payout |
| `ReceiptFields.OneLogEachMatches` | packages/dreamdex/src/receipts/service.ts:150-199 | a receipt with one log of each entry's market and outcome, and that log a redemption of it, is accepted |
| `ReceiptFields.MatchedFields` | packages/dreamdex/src/receipts/service.ts:150-199 | the fields of every matched log, and that no log is matched twice |
| `ReceiptFields.ProblemInFields` | packages/dreamdex/src/receipts/service.ts:170-190 | a match that fails names the first entry without a redemption and says whether its log is missing, its amount or its payout differs |
| `ReceiptFields.ConfirmedExactly` | packages/dreamdex/src/receipts/service.ts:111-260 | a batch is confirmed if and only if the receipt did not revert, has every redemption, every balance fell by what was burned and every market's backing by at least what it paid |
| `ReceiptFields.ConfirmedFigures` | packages/dreamdex/src/receipts/service.ts:249-280 | the figures of a confirmation are the entries' own, the receipt's block and gas, and the owed balance of each collateral token once |
| `ReceiptFields.FailedExactly` | packages/dreamdex/src/receipts/service.ts:136-247 | in fields: a failed batch names the revert, else the first entry whose log is missing or differs, else the first wrong balance, else the first market whose backing is too high |
| `ReceiptSafety.NoNegativePostState` | packages/dreamdex/src/receipts/service.ts:212-247 | for planner-built plans neither subtraction of the post-state check goes below zero |
| `ReceiptSafety.PlannedKeysDistinct` | packages/core/src/claims/planner.ts:271-361 | planner-built batches have one entry per market and outcome |
| `Conservation.Settle` | apps/worker/src/jobs/claim-receipt.ts:31-131 | the job records exactly the outcome it was given, or retries later, and reports a lost lease |
| `Conservation.ConfirmationPays` | apps/worker/src/jobs/claim-receipt.ts:99-123 | a confirmed completion carries the expected payout of its batch |
| `Conservation.ConfirmedClaimPays` | packages/db/src/repositories/claims.ts:403-443 | in every run a confirmed claim reports the summed expected payouts of its recorded batches |
| `Conservation.ConfirmedClaimIsWhole` | packages/db/src/repositories/claims.ts:421-443 | it never reports more than the plan expected, and the whole of it if and only if every batch was recorded |
| `Conservation.ClosedRowSaysChain` | apps/worker/src/jobs/claim-receipt.ts:40-123 | in every run a closed row says what the chain said: confirmed exactly for a verified receipt, superseded exactly without one, and otherwise block and gas of the receipt |
| `Conservation.ConfirmationOwes` | packages/dreamdex/src/receipts/service.ts:249-256 | a confirmation reports what the chain owes over the batch's collateral tokens, each once; every other outcome reports nothing |
| `Conservation.RecordedForPlan` | packages/db/src/repositories/claims.ts:535-583 | every recorded transaction was submitted by its plan's owner, on its chain, before it expired and for one of its batches |
| `OrderBook.SweepAsks` | research/reference-packages/markets-sdk-0.28.1/src/derivedReads.ts:645-671 | the sweep loop |
| `OrderBook.SweepIsGreatest` | research/reference-packages/markets-sdk-0.28.1/src/derivedReads.ts:645-671 | with asks cheapest-first the swept quantity is the greatest over levels of the smaller of cumulative depth and stake * one / price, and the limit is the first level reaching it |
| `OrderBook.SweepIsOptimal` | research/reference-packages/markets-sdk-0.28.1/src/derivedReads.ts:600-618 | no single limit price buys more within the stake, and the swept limit buys that much |
| `StakeQuote.QuoteStake` | research/reference-packages/markets-sdk-0.28.1/src/derivedReads.ts:631-699 | a quote exists exactly when an acceptable quantity of its side's asks fits; it is the greatest such, lot-aligned, with escrow rounded up and within the stake, and crossing these asks fills it within the stake |
| `StakeQuote.LimitIsProtective` | research/reference-packages/markets-sdk-0.28.1/src/derivedReads.ts:673-681 | the limit covers the dearest swept level exactly when that lies a tick below one share, and is tick-aligned exactly when the cap does not apply or one share is |
| `StakeQuote.CushionIsLeast` | research/reference-packages/markets-sdk-0.28.1/src/derivedReads.ts:552-570 | before the cap the limit is the least tick multiple that leaves both the percentage and the minimum ticks above the swept level |
| `StakeQuote.LimitOnGrid` | research/reference-packages/markets-sdk-0.28.1/src/derivedReads.ts:673-681 | on a tick grid dividing one share the limit is aligned and at or above every swept level |
| `StakeQuote.QuoteIsHonest` | research/reference-packages/markets-sdk-0.28.1/src/derivedReads.ts:594-618 | in any book sorted cheapest first, crossing it with the quoted quantity fills it for no more than the stake, nor, when the dearest swept level lies a tick below one share, than the quoted escrow |
| `StakeQuote.EscrowFallsShort` | research/reference-packages/markets-sdk-0.28.1/src/derivedReads.ts:673-699 | off the tick grid the escrow can fall short: a concrete book in which the capped limit lies below the swept level and crossing costs more than it |
| `OrderQuote.QuoteOrder` | research/reference-packages/markets-sdk-0.28.1/src/derivedReads.ts:100-134 | fills the smaller of the order and everything on offer, with cost, average, rest and slippage |
| `OrderQuote.CrossByLevel` | research/reference-packages/markets-sdk-0.28.1/src/derivedReads.ts:111-120 | each level is taken for its share of the book up to the order's quantity, pays that share at its own price rounded by itself, and counts as consumed if the share is not empty |
| `OrderQuote.CrossCost` | research/reference-packages/markets-sdk-0.28.1/src/derivedReads.ts:111-120 | an order that fits into n levels costs at most its quantity at the dearest of their prices |
| `SellQuote.QuoteSell` | research/reference-packages/markets-sdk-0.28.1/src/derivedReads.ts:761-808 | a quote exists exactly when there is a bid, the floor lies below one share and a lot fits; the size is the greatest lot multiple |
| `SellQuote.FloorIsProtective` | research/reference-packages/markets-sdk-0.28.1/src/derivedReads.ts:774-779 | the floor is tick-aligned, at least a tick, and at or below the best bid exactly when that is at least a tick |
| `SellQuote.UnwindFills` | research/reference-packages/markets-sdk-0.28.1/src/derivedReads.ts:790-805 | with bids best-first the fillable quantity is the smaller of the position and all that is bid at the floor or better |
| `SellQuote.ProceedsBounds` | research/reference-packages/markets-sdk-0.28.1/src/derivedReads.ts:796-805 | proceeds lie between the fill at the floor, less a unit a level, and the fill at the best bid |
| `SellQuote.SellAgreesWithOrder` | research/reference-packages/markets-sdk-0.28.1/src/derivedReads.ts:796-805 | in any bids the order quote fills the same quantity and the estimate is never above it; without a bid at or above one share they are equal |
| `SellQuote.SellUnderstates` | research/reference-packages/markets-sdk-0.28.1/src/derivedReads.ts:796-805 | they differ whenever the best bid is at or above one share and takes the whole fill |
| `PositionPnL.ComputePositionPnL` | research/reference-packages/markets-sdk-0.28.1/src/derivedReads.ts:325-410 | realized profit, cost basis, mark value and averages of the two books the events fold to |
| `PositionPnL.WinnerTakesAll` | research/reference-packages/markets-sdk-0.28.1/src/derivedReads.ts:379-397 | after a result the mark value is exactly the balance of the winning outcome |
| `PositionPnL.VoidPaysHalf` | research/reference-packages/markets-sdk-0.28.1/src/derivedReads.ts:379-397 | in a voided market both outcomes are marked at half a share |
| `PositionPnL.TradingMarks` | research/reference-packages/markets-sdk-0.28.1/src/derivedReads.ts:379-397 | while trading YES counts at the mark and NO at the rest of a share |
| `PositionPnL.SetsAreWorthOne` | research/reference-packages/markets-sdk-0.28.1/src/derivedReads.ts:379-397 | while trading q complete sets are worth q, less at most a unit of rounding |
| `PositionPnL.BookConserves` | research/reference-packages/markets-sdk-0.28.1/src/derivedReads.ts:338-375 | with fill prices in 0..one, cost less realized is exactly spent less received, quantity is bought less sold, and neither quantity nor cost is negative |
| `PositionPnL.CostOutBounds` | research/reference-packages/markets-sdk-0.28.1/src/derivedReads.ts:347-356 | a sale takes out no more cost than the book holds, nor than its share of it |
| `PositionPnL.SellingAllLeavesDust` | research/reference-packages/markets-sdk-0.28.1/src/derivedReads.ts:347-356 | selling a whole holding of q leaves at most (q - 1) / one of cost, rounded up |
| `PositionPnL.EmptiedBookDust` | research/reference-packages/markets-sdk-0.28.1/src/derivedReads.ts:338-375 | over any stream of trades an emptied book keeps at most (m - 1) / one of cost, rounded up, for the largest holding m |
| `PositionPnL.ProfitIsAccounted` | research/reference-packages/markets-sdk-0.28.1/src/derivedReads.ts:386-410 | realized and unrealized profit together are the worth of the holding plus received less spent, plus a dust of each outcome between zero and (q - 1) / one, rounded up, for the q held or, when none is, the largest q ever held; the worth is the winning balance, half of both when voided, and the marks while trading |
| `Canonical.NormalizeCanonical` | packages/core/src/claims/canonical.ts:11-38 | the recursive loops compute the normal form |
| `Canonical.NormalizeObject` | packages/core/src/claims/canonical.ts:27-36 | filling the output in sorted key order is normalizing the fields and sorting them |
| `Canonical.StoreValue` | packages/db/src/json.ts:3-20 | the recursive loops compute the stored form, key order kept |
| `Canonical.Idempotent` | packages/core/src/claims/canonical.ts:11-38 | normalizing a normal form changes nothing |
| `Canonical.KeyOrderIsIrrelevant` | packages/core/src/claims/canonical.ts:29-35 | the normal form does not depend on the order of keys at any depth |
| `Canonical.Storable` | packages/db/src/json.ts:3-20 | storing fails exactly when hashing does |
| `Canonical.StorageKeepsForm` | packages/db/src/json.ts:3-20 | the stored value has the original's normal form if and only if the original has no date |
| `PlanStorage.DecimalOfParsed` | packages/core/src/identity/types.ts:22-36 | an unsigned decimal string is the text of the number it parses to |
| `PlanStorage.DecodeIsExact` | packages/contracts/src/http/schemas.ts:278-340 | for every value that parses, decoding keeps the normal form if and only if no key is unknown and hex identifiers are lower case |
| `PlanStorage.LeavesInFields` | packages/contracts/src/http/schemas.ts:1-60 | exactly which texts, numbers and flags the plain leaves of a schema read, and as what |
| `PlanStorage.DecimalLeavesInFields` | packages/contracts/src/http/schemas.ts:1-60 | exactly which texts the leaves for unsigned decimals read |
| `PlanStorage.AmountIsItsText` | packages/contracts/src/http/schemas.ts:278-340 | an amount is read as the number whose text it was |
| `PlanStorage.HexLeafInFields` | packages/contracts/src/http/schemas.ts:1-60 | exactly which texts a leaf for hexadecimals reads, and that it writes them in small letters |
| `PlanIntegrity.StoredParses` | packages/contracts/src/http/schemas.ts:80-173 | the stored form of a domain value parses in any order of keys, and is clean |
| `PlanIntegrity.DecodedConforms` | packages/contracts/src/http/schemas.ts:278-340 | whatever parses is decoded to a value of the domain types |
| `PlanIntegrity.PlanReads` | packages/contracts/src/http/schemas.ts:80-173 | a stored value that parses has the parts of a plan and of each entry, in the ranges the schema asks for |
| `PlanIntegrity.ValidateClaimPlan` | packages/core/src/claims/planner.ts:444-467 | each of the four reasons is given exactly when it applies |
| `PlanIntegrity.HashSurvivesStorage` | packages/core/src/claims/planner.ts:432-467 | a finalized plan of domain values that is stored, reordered and decoded keeps its normal form and passes its hash check |
| `PlanValues.FinalPlanConforms` | packages/core/src/claims/planner.ts:383-442 | a plan prepared from typed input and finalized is a value of the claim-plan schema, with the hash of its payload |
| `PlanContent.PayloadSays` | packages/core/src/claims/planner.ts:383-442 | what is hashed and stored of a plan is each of its fields under its own key, list by list and item by item |
| `PlanValues.PlannedHashSurvives` | packages/core/src/claims/planner.ts:249-467 | every such plan can be stored, and read back in any order of keys it parses, has the same normal form and passes its hash check |
| `Concurrency.StartPool` | packages/dreamdex/src/services/concurrency.ts:6-10 | a non-positive limit is rejected; otherwise min(limit, n) workers stand ready |
| `Concurrency.WorkerPool.constructor` | packages/dreamdex/src/services/concurrency.ts:9-20 | the fresh pool: cursor 0 and no results |
| `Concurrency.WorkerPool.Resume` | packages/dreamdex/src/services/concurrency.ts:12-17 | a worker's segment up to its next await |
| `Concurrency.WorkerPool.SettleCall` | packages/dreamdex/src/services/concurrency.ts:16 | stores the mapper's value and goes on |
| `Concurrency.CalledOnce` | packages/dreamdex/src/services/concurrency.ts:9-20 | in every interleaving each defined index in front of the cursor is called once, in order, is with exactly one worker until stored, and at most min(limit, n) calls are in flight |
| `Concurrency.MapsEveryValue` | packages/dreamdex/src/services/concurrency.ts:18-19 | when all workers have finished every place holds the mapper's value of that place |
| `Concurrency.StepsRunOut` | packages/dreamdex/src/services/concurrency.ts:12-17 | every step brings the pool closer to its end |
| `Concurrency.NoWorkerStuck` | packages/dreamdex/src/services/concurrency.ts:12-17 | a worker that has not ended can always move |
| `Concurrency.CallerSees` | packages/dreamdex/src/services/concurrency.ts:9-19 | every run ends with an answer: the results if and only if no mapper call rejected, otherwise the index that rejected first; the other workers go on, so every value is called unless all workers were rejected, and of the called ones only the rejected lack their result |
| `OutcomeBalances.DiscoverOutcomeBalances` | packages/dreamdex/src/indexer/outcome-balances.ts:113-190 | positions, completeness, next offset and failures of the pages read |
| `OutcomeBalances.PositionsAreExact` | packages/dreamdex/src/indexer/outcome-balances.ts:143-160 | the positions are exactly the first row of every id read, each id once, in ascending order |
| `OutcomeBalances.ScanIsExact` | packages/dreamdex/src/indexer/outcome-balances.ts:130-163 | over a fixed row sequence with any failing pages exactly the first pages * pageSize rows are read; complete if and only if it asked past the last row; otherwise the rows from the next offset are exactly the unread ones |
| `Markets.ReconcileMarketLifecycle` | packages/core/src/markets/lifecycle.ts:59-93 | which conflicts are reported and no others, and that there are none exactly when flags, status and finalization are consistent |
| `Markets.ReconcileDreamDexMarket` | packages/dreamdex/src/reconcile/market.ts:84-298 | throws exactly for unknown statuses that are looked up, reports each conflict exactly under its condition, and none exactly when wiring, status, lifecycle and settlement agree |
| `Markets.ReconciledIsClean` | packages/dreamdex/src/reconcile/market.ts:120-146 | without conflicts status and flags agree, which the planner's gates rely on |
| `ReadFields.RecordInFields` | packages/dreamdex/src/reconcile/market.ts:84-298 | a record always has the chain's status, flags, wiring and tokens, and the settlement's money once it is final; it has no conflict if and only if the indexer says the same, flags follow the status and a finalized settlement is witnessed by its event |
| `ReadFields.ThrowsInFields` | packages/dreamdex/src/reconcile/market.ts:120-132 | reconciling throws exactly for a chain status beyond five and for an unknown word that is looked at |
| `ReadSide.BuildPosition` | packages/dreamdex/src/services/claimrail.ts:312-441 | the position, assessment and candidate of a row |
| `ReadFields.PositionOfRow` | packages/dreamdex/src/services/claimrail.ts:312-400 | which rows become positions, with the chain's balance of the outcome's token and the payout it is due |
| `ReadFields.AssessmentOfRow` | packages/dreamdex/src/services/claimrail.ts:391-441 | a position is assessed if and only if row, record and chain agree and everything a claim needs is known, and is a candidate if and only if moreover the result is final and pays something; every field of the assessment |
| `ReadFields.StateInFields` | packages/core/src/positions/derive.ts:1-60 | the condition of every position state |
| `ReadSide.ReadWallet` | packages/dreamdex/src/services/claimrail.ts:147-232 | the three lists the rows flat-map to, the rows that failed, and the completeness, which is complete exactly when the scan is, without a failure, and every row was built; the oldest block and all conflicts of the markets; and the operator approval asked of the first market's tokens |
| `ReadSide.BuildInbox` | packages/ui/src/inbox/view-model.ts:108-127 | the claimable total and counts, which add up to the rows shown |
| `ReadFields.InboxTotal` | packages/ui/src/inbox/view-model.ts:108-127 | the claimable total is the expected payout of the shown positions that are claimable, refundable or owed |
| `ReadFields.InboxCounts` | packages/ui/src/inbox/view-model.ts:108-127 | each count is the number of rows of known markets in one of the counted states |
| `InboxAgreement.ClaimableIsAccepted` | packages/dreamdex/src/services/claimrail.ts:391-434 | an assessment passes every gate and pays something if and only if the read exposes it as a candidate; the only gate it can fail is an empty balance |
| `InboxAgreement.PlanWithinInbox` | packages/dreamdex/src/claims/service.ts:74-91 | the plan never expects more than the inbox shows as claimable for the same scan |
| `InboxAgreement.ReconciledAgreement` | packages/dreamdex/src/claims/service.ts:74-91 | both hold over the records reconciled from any chain and indexer bundles |

## Left out

- Network, RPC, GraphQL and transport code: its answers are arbitrary inputs or nondeterministic steps.
- SQL: only row guards, updates, unique keys and order are kept; `for update skip locked` is any eligible unlocked row, and generated uuids are unused keys the environment picks.
- Foreign-key cascades: no modelled operation deletes a row.
- Interleavings inside one database transaction, as noted above.
- Columns and texts without influence on the protocols: last errors, provider message ids, HTTP statuses, audit records, page counts and times passed on, explanations and details of exclusions.
- The parse of the event a lease returns, whose failure rolls the lease back.
- Eventual delivery: false with crashes, as `DeliverySafety.LastAttemptStrands` shows.
- Cryptography: the integrity hash is any function of the normal form, and nothing is claimed of its strength.
- Log and ABI decoding: redemptions are decoded events, and the market key is a function of the token id; where it matters, equal keys are assumed to mean the same market.
- Array-index keys in canonical values; schema checks on the length of lists other than non-emptiness.
- `pnlEventsFor`, candles, claimable reads, marks and display helpers of the SDK source: they would add easy members.
- Formatting, React components, fixtures, OpenAPI generation and command-line probes.
- Subscription bindings, access tokens, the bot adapter, caches and heartbeats: smaller state machines beside the delivery protocol.
- PlanValues.PlannedHashSurvives: the input has checked lower-case identifiers and non-empty texts, the exclusion details are not empty and the digest prints 32 bytes in lower-case hex, as the branded types and SHA-256 promise.
- PositionPnL.BookConserves: covers fill prices in 0..one, the range in which a NO price is not negative.
- Concurrency.MapsEveryValue: the mapper is a function of value and index; what a rejected call leaves is stated by `Concurrency.CallerSees`.
- Dispatch.OutboxFence: holds with one live call per worker id.
