/**
 * The deployments, claims and claim_transactions tables of packages/db/src/repositories/claims.ts and what each
 * method does to them. A transaction row's id is its position in insertion order; addresses and hashes are lower
 * case. `published` holds the canonical events the methods insert, each together with its outbox job.
 */
module Claims {
  import opened Wrappers

  datatype ClaimStatus = Draft | Ready | Submitted | Confirmed | Failed | Superseded

  datatype TxStatus = TxPending | TxConfirmed | TxFailed | TxSuperseded

  /** What the repository reads back out of the stored plan. */
  datatype StoredPlan = StoredPlan(owner: string, chainId: nat, expiresAt: int, batchPayouts: seq<nat>,
                                   expectedPayout: nat)

  datatype Claim = Claim(
    deploymentKey: string,
    plan: StoredPlan,
    status: ClaimStatus,
    transactionHash: Option<string>,
    submittedAt: Option<int>,
    confirmedAt: Option<int>,
    blockNumber: Option<nat>,
    actualCollateral: Option<nat>,
    gasUsed: Option<nat>)

  datatype Transaction = Transaction(
    claimId: string,
    deploymentKey: string,
    batchIndex: nat,
    nonce: nat,
    hash: string,
    status: TxStatus,
    attempts: nat,
    nextAttemptAt: int,
    leaseOwner: Option<string>,
    leaseExpiresAt: Option<int>,
    submittedAt: int,
    confirmedAt: Option<int>,
    blockNumber: Option<nat>,
    gasUsed: Option<nat>,
    actualCollateral: Option<nat>)

  datatype EventKey =
    | PlanCreated(claimId: string)
    | ClaimSubmitted(hash: string)
    | Outcome(hash: string, status: TxStatus)
    | PayoutOwed(hash: string)

  /** A row of the deployments table; `configuration` is the text of its JSON. */
  datatype Deployment = Deployment(chainId: int, adapterVersion: string, name: string, binaryModule: string,
                                   binarySettlement: string, configuration: string, updatedAt: int)

  datatype DeploymentWrite = DeploymentWrite(key: string, row: Deployment)

  /** Claims are keyed by claim id, which the plan hash determines. */
  datatype Store = Store(claims: map<string, Claim>, transactions: seq<Transaction>, published: set<EventKey>)

  // ---- aggregates over the rows of one claim ----

  function Count(rows: seq<Transaction>, claimId: string, status: TxStatus): nat {
    if rows == [] then 0
    else
      var last := rows[|rows| - 1];
      Count(rows[..|rows| - 1], claimId, status) + if last.claimId == claimId && last.status == status then 1 else 0
  }

  /** `coalesce(sum(actual_collateral), 0)`: a null adds nothing. */
  function Collateral(rows: seq<Transaction>, claimId: string): nat {
    if rows == [] then 0
    else
      var last := rows[|rows| - 1];
      Collateral(rows[..|rows| - 1], claimId) + if last.claimId == claimId then last.actualCollateral.GetOr(0) else 0
  }

  function Gas(rows: seq<Transaction>, claimId: string): nat {
    if rows == [] then 0
    else
      var last := rows[|rows| - 1];
      Gas(rows[..|rows| - 1], claimId) + if last.claimId == claimId then last.gasUsed.GetOr(0) else 0
  }

  function Verdict(rows: seq<Transaction>, claimId: string): ClaimStatus {
    if Count(rows, claimId, TxFailed) > 0 then Failed
    else if Count(rows, claimId, TxSuperseded) > 0 then Superseded
    else if Count(rows, claimId, TxPending) == 0 then Confirmed
    else Submitted
  }

  // ---- persistReadyPlan ----

  function ReadyClaim(deploymentKey: string, plan: StoredPlan): Claim {
    Claim(deploymentKey, plan, Ready, None, None, None, None, None, None)
  }

  function ClaimIdOf(integrityHash: string): string { "claim:" + integrityHash }

  datatype PersistError = ChainNotPositive | ChainAdapterTaken

  /** The row a deployment has after the upsert: an existing one keeps the chain it was created for. */
  function Upserted(deployments: map<string, Deployment>, write: DeploymentWrite, createdAt: int): Deployment {
    var row := write.row.(binaryModule := Lower(write.row.binaryModule),
                          binarySettlement := Lower(write.row.binarySettlement), updatedAt := createdAt);
    if write.key in deployments then row.(chainId := deployments[write.key].chainId) else row
  }

  /** Another deployment has the chain and the adapter version of this row. */
  predicate Clashes(deployments: map<string, Deployment>, key: string, row: Deployment) {
    exists other ::
      && other in deployments && other != key
      && deployments[other].chainId == row.chainId && deployments[other].adapterVersion == row.adapterVersion
  }

  /** What the constraints of the deployments table make of the upsert. */
  function UpsertFault(deployments: map<string, Deployment>, write: DeploymentWrite, createdAt: int)
    : Option<PersistError>
  {
    if write.row.chainId <= 0 then Some(ChainNotPositive)
    else if Clashes(deployments, write.key, Upserted(deployments, write, createdAt)) then Some(ChainAdapterTaken)
    else None
  }

  /** No two deployments share a chain and an adapter version. */
  predicate DeploymentsOk(deployments: map<string, Deployment>) {
    forall key :: key in deployments ==>
      deployments[key].chainId > 0 && !Clashes(deployments, key, deployments[key])
  }

  /** Inserting a plan that is already stored changes nothing. */
  function Persist(s: Store, claimId: string, deploymentKey: string, plan: StoredPlan): Store {
    s.(claims := if claimId in s.claims then s.claims else s.claims[claimId := ReadyClaim(deploymentKey, plan)],
       published := s.published + {PlanCreated(claimId)})
  }

  // ---- recordSubmission ----

  datatype Submission = Submission(
    deploymentKey: string, claimId: string, owner: string, chainId: int, batchIndex: int, nonce: int,
    hash: string, submittedAt: int)

  datatype SubmitError =
    | BadBatchIndex
    | NegativeNonce
    | PlanNotFound
    | WrongOwner
    | WrongChain
    | PlanExpired
    | NoSuchBatch
    | DifferentHash
    | UniqueViolation

  function FindBatch(rows: seq<Transaction>, claimId: string, batchIndex: nat): (found: Option<nat>)
    ensures found.Some? ==>
            found.value < |rows| && rows[found.value].claimId == claimId && rows[found.value].batchIndex == batchIndex
    ensures found.None? ==> forall i :: 0 <= i < |rows| ==>
            !(rows[i].claimId == claimId && rows[i].batchIndex == batchIndex)
  {
    if rows == [] then None
    else
      var earlier := FindBatch(rows[..|rows| - 1], claimId, batchIndex);
      if earlier.Some? then earlier
      else if rows[|rows| - 1].claimId == claimId && rows[|rows| - 1].batchIndex == batchIndex then Some(|rows| - 1)
      else None
  }

  /** One of the unique keys or primary keys of the inserts already holds this hash. */
  predicate HashTaken(s: Store, sub: Submission) {
    || ClaimSubmitted(sub.hash) in s.published
    || (exists i :: 0 <= i < |s.transactions| && s.transactions[i].deploymentKey == sub.deploymentKey
                    && s.transactions[i].hash == sub.hash)
    || (sub.batchIndex == 0
        && exists c :: c in s.claims && s.claims[c].deploymentKey == sub.deploymentKey
                       && s.claims[c].transactionHash == Some(sub.hash))
  }

  /** `Ok(true)` for a repeat of a recorded submission, `Ok(false)` for a new one. */
  function SubmitResult(s: Store, sub: Submission): Result<bool, SubmitError> {
    if sub.batchIndex < 0 then Err(BadBatchIndex)
    else if sub.nonce < 0 then Err(NegativeNonce)
    else if sub.claimId !in s.claims || s.claims[sub.claimId].deploymentKey != sub.deploymentKey then Err(PlanNotFound)
    else
      var plan := s.claims[sub.claimId].plan;
      if plan.owner != sub.owner then Err(WrongOwner)
      else if plan.chainId != sub.chainId then Err(WrongChain)
      else if plan.expiresAt <= sub.submittedAt then Err(PlanExpired)
      else if sub.batchIndex >= |plan.batchPayouts| then Err(NoSuchBatch)
      else
        match FindBatch(s.transactions, sub.claimId, sub.batchIndex)
        case Some(i) => if s.transactions[i].hash != sub.hash then Err(DifferentHash) else Ok(true)
        case None => if HashTaken(s, sub) then Err(UniqueViolation) else Ok(false)
  }

  function NewTransaction(sub: Submission): Transaction
    requires sub.batchIndex >= 0 && sub.nonce >= 0
  {
    Transaction(sub.claimId, sub.deploymentKey, sub.batchIndex, sub.nonce, sub.hash, TxPending, 0, sub.submittedAt,
                None, None, sub.submittedAt, None, None, None, None)
  }

  function SubmittedClaim(c: Claim, sub: Submission): Claim {
    c.(status := Submitted,
       transactionHash := if sub.batchIndex == 0 then Some(sub.hash) else c.transactionHash,
       submittedAt := if c.submittedAt.Some? then c.submittedAt else Some(sub.submittedAt))
  }

  function Submit(s: Store, sub: Submission): Store {
    if SubmitResult(s, sub) == Ok(false) then
      Store(s.claims[sub.claimId := SubmittedClaim(s.claims[sub.claimId], sub)],
            s.transactions + [NewTransaction(sub)],
            s.published + {ClaimSubmitted(sub.hash)})
    else s
  }

  // ---- leasePendingTransaction and deferReconciliation ----

  predicate Leasable(s: Store, i: nat, now: int) {
    && i < |s.transactions|
    && var t := s.transactions[i];
    && t.status == TxPending
    && t.nextAttemptAt <= now
    && (t.leaseOwner.None? || (t.leaseExpiresAt.Some? && t.leaseExpiresAt.value <= now))
  }

  function LeaseTx(s: Store, i: nat, worker: string, leaseMs: int, now: int): Store
    requires i < |s.transactions|
  {
    var t := s.transactions[i];
    s.(transactions := s.transactions[i := t.(leaseOwner := Some(worker), leaseExpiresAt := Some(now + leaseMs),
                                              attempts := t.attempts + 1)])
  }

  /** The guard of both writes that end a lease. */
  predicate Holds(s: Store, i: nat, worker: string) {
    i < |s.transactions| && s.transactions[i].status == TxPending && s.transactions[i].leaseOwner == Some(worker)
  }

  function Defer(s: Store, i: nat, worker: string, delayMs: int, now: int): Store {
    if Holds(s, i, worker) then
      s.(transactions := s.transactions[i := s.transactions[i].(nextAttemptAt := now + delayMs,
                                                                leaseOwner := None, leaseExpiresAt := None)])
    else s
  }

  // ---- completeReconciliation ----

  type FinalStatus = s: TxStatus | s != TxPending witness TxConfirmed

  /** A finished reconciliation. */
  datatype Completion = Completion(
    status: FinalStatus, blockNumber: Option<nat>, gasUsed: Option<nat>, actualCollateral: Option<nat>,
    fallbackOwed: nat, now: int)

  function OrElse<T>(a: Option<T>, b: Option<T>): Option<T> {
    if a.Some? then a else b
  }

  function ClosedTx(t: Transaction, done: Completion): Transaction {
    t.(status := done.status,
       confirmedAt := Some(done.now),
       blockNumber := OrElse(done.blockNumber, t.blockNumber),
       gasUsed := OrElse(done.gasUsed, t.gasUsed),
       actualCollateral := OrElse(done.actualCollateral, t.actualCollateral),
       leaseOwner := None,
       leaseExpiresAt := None)
  }

  function JudgedClaim(c: Claim, rows: seq<Transaction>, claimId: string, done: Completion): Claim {
    var verdict := Verdict(rows, claimId);
    if verdict == Confirmed then
      c.(status := Confirmed,
         actualCollateral := Some(Collateral(rows, claimId)),
         gasUsed := Some(Gas(rows, claimId)),
         confirmedAt := Some(done.now),
         blockNumber := OrElse(done.blockNumber, c.blockNumber))
    else c.(status := verdict)
  }

  function CompletionEvents(hash: string, done: Completion): set<EventKey> {
    {Outcome(hash, done.status)} + if done.fallbackOwed > 0 then {PayoutOwed(hash)} else {}
  }

  function Complete(s: Store, i: nat, worker: string, done: Completion): Store {
    if Holds(s, i, worker) then
      var t := s.transactions[i];
      var rows := s.transactions[i := ClosedTx(t, done)];
      Store(if t.claimId in s.claims
            then s.claims[t.claimId := JudgedClaim(s.claims[t.claimId], rows, t.claimId, done)]
            else s.claims,
            rows,
            s.published + CompletionEvents(t.hash, done))
    else s
  }
}
