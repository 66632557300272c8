/** The repository class of packages/db/src/repositories/claims.ts. */
module ClaimRepository {
  import opened Wrappers
  import opened Claims

  datatype LeaseError = BlankWorker | NotPositive(name: string)

  /** `order by next_attempt_at asc, submitted_at asc`. */
  predicate NotLater(a: Transaction, b: Transaction) {
    a.nextAttemptAt < b.nextAttemptAt || (a.nextAttemptAt == b.nextAttemptAt && a.submittedAt <= b.submittedAt)
  }

  /** The totals `completeReconciliation` selects. */
  datatype Totals = Totals(pending: nat, failed: nat, superseded: nat, collateral: nat, gas: nat)

  method SumRows(rows: seq<Transaction>, claimId: string) returns (totals: Totals)
    ensures totals == Totals(Count(rows, claimId, TxPending), Count(rows, claimId, TxFailed),
                             Count(rows, claimId, TxSuperseded), Collateral(rows, claimId), Gas(rows, claimId))
  {
    var pending, failed, superseded, collateral, gas := 0, 0, 0, 0, 0;
    for k := 0 to |rows|
      invariant pending == Count(rows[..k], claimId, TxPending)
      invariant failed == Count(rows[..k], claimId, TxFailed)
      invariant superseded == Count(rows[..k], claimId, TxSuperseded)
      invariant collateral == Collateral(rows[..k], claimId) && gas == Gas(rows[..k], claimId)
    {
      assert rows[..k + 1][..k] == rows[..k];
      var row := rows[k];
      if row.claimId == claimId {
        if row.status == TxPending { pending := pending + 1; }
        if row.status == TxFailed { failed := failed + 1; }
        if row.status == TxSuperseded { superseded := superseded + 1; }
        collateral := collateral + row.actualCollateral.GetOr(0);
        gas := gas + row.gasUsed.GetOr(0);
      }
    }
    assert rows[..|rows|] == rows;
    totals := Totals(pending, failed, superseded, collateral, gas);
  }

  class ClaimRepository {
    var deployments: map<string, Deployment>
    var claims: map<string, Claim>
    var transactions: seq<Transaction>
    var published: set<EventKey>

    function Rows(): Store
      reads this`claims, this`transactions, this`published
    {
      Store(claims, transactions, published)
    }

    constructor ()
      ensures Rows() == Store(map[], [], {}) && deployments == map[]
    {
      deployments := map[];
      claims, transactions, published := map[], [], {};
    }

    /** One transaction: a row the deployments table refuses leaves everything as it was. */
    method PersistReadyPlan(deployment: DeploymentWrite, integrityHash: string, createdAt: int, plan: StoredPlan)
      returns (result: Result<string, PersistError>)
      modifies this
      ensures result.Err? <==> old(UpsertFault(deployments, deployment, createdAt)).Some?
      ensures result.Err? ==>
                && old(UpsertFault(deployments, deployment, createdAt)) == Some(result.error)
                && Rows() == old(Rows()) && deployments == old(deployments)
      ensures result.Ok? ==>
                && result.value == ClaimIdOf(integrityHash)
                && deployments == old(deployments)[deployment.key := old(Upserted(deployments, deployment, createdAt))]
                && Rows() == Persist(old(Rows()), result.value, deployment.key, plan)
      ensures old(DeploymentsOk(deployments)) ==> DeploymentsOk(deployments)
    {
      if deployment.row.chainId <= 0 {
        return Err(ChainNotPositive);
      }
      var row := Upserted(deployments, deployment, createdAt);
      if Clashes(deployments, deployment.key, row) {
        return Err(ChainAdapterTaken);
      }
      deployments := deployments[deployment.key := row];
      var claimId := "claim:" + integrityHash;
      if claimId !in claims {
        claims := claims[claimId := Claim(deployment.key, plan, Ready, None, None, None, None, None, None)];
      }
      published := published + {PlanCreated(claimId)};
      return Ok(claimId);
    }

    /** Records a submitted batch once; a repeat of the same hash is reported as a duplicate. */
    method RecordSubmission(sub: Submission) returns (result: Result<bool, SubmitError>)
      modifies this`claims, this`transactions, this`published
      ensures result == SubmitResult(old(Rows()), sub)
      ensures Rows() == Submit(old(Rows()), sub)
    {
      if sub.batchIndex < 0 {
        return Err(BadBatchIndex);
      }
      if sub.nonce < 0 {
        return Err(NegativeNonce);
      }
      if sub.claimId !in claims || claims[sub.claimId].deploymentKey != sub.deploymentKey {
        return Err(PlanNotFound);
      }
      var claim := claims[sub.claimId];
      if claim.plan.owner != sub.owner {
        return Err(WrongOwner);
      }
      if claim.plan.chainId != sub.chainId {
        return Err(WrongChain);
      }
      if claim.plan.expiresAt <= sub.submittedAt {
        return Err(PlanExpired);
      }
      if sub.batchIndex >= |claim.plan.batchPayouts| {
        return Err(NoSuchBatch);
      }
      var existing := FindBatch(transactions, sub.claimId, sub.batchIndex);
      if existing.Some? {
        if transactions[existing.value].hash != sub.hash {
          return Err(DifferentHash);
        }
        return Ok(true);
      }
      if HashTaken(Rows(), sub) {
        return Err(UniqueViolation);
      }
      transactions := transactions + [NewTransaction(sub)];
      var updated := claim.(status := Submitted);
      if sub.batchIndex == 0 {
        updated := updated.(transactionHash := Some(sub.hash));
      }
      if claim.submittedAt.None? {
        updated := updated.(submittedAt := Some(sub.submittedAt));
      }
      claims := claims[sub.claimId := updated];
      published := published + {ClaimSubmitted(sub.hash)};
      return Ok(false);
    }

    /** Leases the first leasable row that no other transaction has locked. */
    method LeasePendingTransaction(workerId: string, leaseMs: int, now: int, locked: set<nat>)
      returns (result: Result<Option<nat>, LeaseError>)
      modifies this`transactions
      ensures IsBlank(workerId) ==> result == Err(BlankWorker)
      ensures !IsBlank(workerId) && leaseMs <= 0 ==> result == Err(NotPositive("leaseMs"))
      ensures result.Err? ==> (IsBlank(workerId) || leaseMs <= 0) && Rows() == old(Rows())
      ensures result.Ok? && result.value.None? ==>
                Rows() == old(Rows()) && forall i: nat :: Leasable(Rows(), i, now) ==> i in locked
      ensures result.Ok? && result.value.Some? ==>
                var i := result.value.value;
                && Leasable(old(Rows()), i, now) && i !in locked
                && (forall k: nat :: Leasable(old(Rows()), k, now) && k !in locked ==>
                      var first, second := old(transactions)[i], old(transactions)[k];
                      || first.nextAttemptAt < second.nextAttemptAt
                      || (first.nextAttemptAt == second.nextAttemptAt && first.submittedAt <= second.submittedAt))
                && Rows() == LeaseTx(old(Rows()), i, workerId, leaseMs, now)
                && Holds(Rows(), i, workerId)
    {
      if IsBlank(workerId) {
        return Err(BlankWorker);
      }
      if leaseMs <= 0 {
        return Err(NotPositive("leaseMs"));
      }
      var best: Option<nat> := None;
      for k := 0 to |transactions|
        invariant transactions == old(transactions) && Rows() == old(Rows())
        invariant best.Some? ==> best.value < k && Leasable(Rows(), best.value, now) && best.value !in locked
        invariant forall m: nat :: m < k && Leasable(Rows(), m, now) && m !in locked ==>
                                     best.Some? && NotLater(transactions[best.value], transactions[m])
      {
        if Leasable(Rows(), k, now) && k !in locked
           && (best.None? || !NotLater(transactions[best.value], transactions[k])) {
          best := Some(k);
        }
      }
      if best.Some? {
        var row := transactions[best.value];
        transactions := transactions[best.value := row.(leaseOwner := Some(workerId),
                                                        leaseExpiresAt := Some(now + leaseMs),
                                                        attempts := row.attempts + 1)];
      }
      return Ok(best);
    }

    method DeferReconciliation(
      i: nat, workerId: string, delayMs: int, now: int)
      returns (result: Result<bool, LeaseError>)
      modifies this`transactions
      ensures delayMs <= 0 <==> result.Err?
      ensures result.Err? ==> result == Err(NotPositive("delayMs")) && Rows() == old(Rows())
      ensures result.Ok? ==> result.value == old(Holds(Rows(), i, workerId))
      ensures result.Ok? ==> Rows() == Defer(old(Rows()), i, workerId, delayMs, now)
    {
      if delayMs <= 0 {
        return Err(NotPositive("delayMs"));
      }
      if !Holds(Rows(), i, workerId) {
        return Ok(false);
      }
      transactions := transactions[i := transactions[i].(nextAttemptAt := now + delayMs, leaseOwner := None,
                                                         leaseExpiresAt := None)];
      return Ok(true);
    }

    /** The update of the claim row at the end of a reconciliation. */
    method JudgeClaim(claimId: string, status: ClaimStatus, totals: Totals, done: Completion)
      requires claimId in claims && status == Verdict(transactions, claimId)
      requires totals.collateral == Collateral(transactions, claimId) && totals.gas == Gas(transactions, claimId)
      modifies this`claims
      ensures claims == old(claims)[claimId := JudgedClaim(old(claims)[claimId], transactions, claimId, done)]
    {
      var claim := claims[claimId].(status := status);
      if status == Confirmed {
        claim := claim.(actualCollateral := Some(totals.collateral), gasUsed := Some(totals.gas),
                        confirmedAt := Some(done.now));
        if done.blockNumber.Some? {
          claim := claim.(blockNumber := done.blockNumber);
        }
      }
      claims := claims[claimId := claim];
    }

    /** Closes a transaction the worker still holds and judges its claim from the totals of all its rows. */
    method CompleteReconciliation(i: nat, workerId: string, done: Completion) returns (completed: bool)
      modifies this`claims, this`transactions, this`published
      ensures completed == old(Holds(Rows(), i, workerId))
      ensures Rows() == Complete(old(Rows()), i, workerId, done)
    {
      if !Holds(Rows(), i, workerId) {
        return false;
      }
      var row := transactions[i];
      transactions := transactions[i := ClosedTx(row, done)];
      var totals := SumRows(transactions, row.claimId);
      var status := if totals.failed > 0 then Failed
                    else if totals.superseded > 0 then Superseded
                    else if totals.pending == 0 then Confirmed
                    else Submitted;
      if row.claimId in claims {
        JudgeClaim(row.claimId, status, totals, done);
      }
      published := published + {Outcome(row.hash, done.status)};
      if done.fallbackOwed > 0 {
        published := published + {PayoutOwed(row.hash)};
      }
      completed := true;
    }
  }
}
