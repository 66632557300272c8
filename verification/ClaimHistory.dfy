/**
 * Where the rows and figures of the claim tables come from, over whole runs and in the fields of submissions and
 * completions: who may record a transaction, what a closed row carries and what a claim reports of its rows.
 */
module ClaimHistory {
  import opened Wrappers
  import opened Ordering
  import opened Claims
  import opened ClaimRuns

  // ---- submissions ----

  /** The submission is for a stored plan of this owner and chain, in time, and names one of its batches. */
  predicate Legitimate(s: Store, sub: Submission) {
    && sub.claimId in s.claims
    && var c := s.claims[sub.claimId];
    && c.deploymentKey == sub.deploymentKey && c.plan.owner == sub.owner && c.plan.chainId == sub.chainId
    && sub.submittedAt < c.plan.expiresAt
    && 0 <= sub.batchIndex < |c.plan.batchPayouts| && 0 <= sub.nonce
  }

  /** The row of this batch, if there is one. */
  predicate RowOfBatch(s: Store, sub: Submission, k: nat) {
    k < |s.transactions| && s.transactions[k].claimId == sub.claimId && s.transactions[k].batchIndex == sub.batchIndex
  }

  /**
   * Which submissions are accepted, in fields: a legitimate one whose batch has no row and whose hash is new is
   * recorded, one whose batch has the row of the same hash is a duplicate, and nothing else is accepted.
   */
  lemma AcceptedExactly(s: Store, sub: Submission)
    requires RowsOk(s)
    ensures SubmitResult(s, sub) == Ok(true)
            <==> Legitimate(s, sub) && exists k: nat :: RowOfBatch(s, sub, k) && s.transactions[k].hash == sub.hash
    ensures SubmitResult(s, sub) == Ok(false)
            <==> Legitimate(s, sub) && !HashTaken(s, sub) && forall k: nat :: !RowOfBatch(s, sub, k)
  {
    if Legitimate(s, sub) {
      var found := FindBatch(s.transactions, sub.claimId, sub.batchIndex);
      if found.Some? {
        assert RowOfBatch(s, sub, found.value);
        forall k: nat | RowOfBatch(s, sub, k) ensures k == found.value {
          assert SameBatch(s.transactions[k], s.transactions[found.value]);
        }
      }
    }
  }

  /** The first thing wrong with a submission is the error it gets. */
  lemma RejectedFor(s: Store, sub: Submission)
    ensures sub.batchIndex < 0 ==> SubmitResult(s, sub) == Err(BadBatchIndex)
    ensures 0 <= sub.batchIndex && sub.nonce < 0 ==> SubmitResult(s, sub) == Err(NegativeNonce)
    ensures 0 <= sub.batchIndex && 0 <= sub.nonce ==>
              (SubmitResult(s, sub) == Err(PlanNotFound)
               <==> sub.claimId !in s.claims || s.claims[sub.claimId].deploymentKey != sub.deploymentKey)
    ensures 0 <= sub.batchIndex && 0 <= sub.nonce && sub.claimId in s.claims
            && s.claims[sub.claimId].deploymentKey == sub.deploymentKey ==>
              var plan := s.claims[sub.claimId].plan;
              && (SubmitResult(s, sub) == Err(WrongOwner) <==> plan.owner != sub.owner)
              && (SubmitResult(s, sub) == Err(WrongChain) <==> plan.owner == sub.owner && plan.chainId != sub.chainId)
              && (SubmitResult(s, sub) == Err(PlanExpired)
                  <==> plan.owner == sub.owner && plan.chainId == sub.chainId && plan.expiresAt <= sub.submittedAt)
              && (SubmitResult(s, sub) == Err(NoSuchBatch)
                  <==> plan.owner == sub.owner && plan.chainId == sub.chainId && sub.submittedAt < plan.expiresAt
                       && |plan.batchPayouts| <= sub.batchIndex)
    ensures Legitimate(s, sub) ==>
              match FindBatch(s.transactions, sub.claimId, sub.batchIndex)
              case Some(k) =>
                RowOfBatch(s, sub, k)
                && (SubmitResult(s, sub) == Err(DifferentHash) <==> s.transactions[k].hash != sub.hash)
              case None =>
                (forall k: nat :: !RowOfBatch(s, sub, k))
                && (SubmitResult(s, sub) == Err(UniqueViolation) <==> HashTaken(s, sub))
  {}

  predicate SameIdentityAs(t: Transaction, sub: Submission) {
    && t.claimId == sub.claimId && t.deploymentKey == sub.deploymentKey && t.batchIndex == sub.batchIndex
    && t.nonce == sub.nonce && t.hash == sub.hash && t.submittedAt == sub.submittedAt
  }

  /** A step keeps what a row was recorded with; a new row is that of a legitimate submission. */
  lemma RowKeepsOrigin(s: Store, step: Step, k: nat)
    requires Enabled(s, step) && k < |Next(s, step).transactions|
    ensures k < |s.transactions| ==>
              var t, u := s.transactions[k], Next(s, step).transactions[k];
              && u.claimId == t.claimId && u.deploymentKey == t.deploymentKey && u.batchIndex == t.batchIndex
              && u.nonce == t.nonce && u.hash == t.hash && u.submittedAt == t.submittedAt
    ensures k >= |s.transactions| ==>
              var u := Next(s, step).transactions[k];
              && step.SubmitStep? && Legitimate(s, step.sub) && SameIdentityAs(u, step.sub)
              && u.status == TxPending && u.attempts == 0 && u.nextAttemptAt == step.sub.submittedAt
              && u.leaseOwner.None?
              && u.gasUsed.None? && u.actualCollateral.None? && u.blockNumber.None? && u.confirmedAt.None?
  {}

  /** Every recorded transaction was submitted for a plan of its owner and chain, before the plan expired. */
  lemma {:induction false} RecordedLegitimately(states: seq<Store>, steps: seq<Step>, i: nat, k: nat) returns (j: nat)
    requires Run(states, steps) && i < |states| && k < |states[i].transactions|
    ensures j < i && steps[j].SubmitStep? && Legitimate(states[j], steps[j].sub)
    ensures SameIdentityAs(states[i].transactions[k], steps[j].sub)
  {
    RunStep(states, steps, i - 1);
    RowKeepsOrigin(states[i - 1], steps[i - 1], k);
    if k < |states[i - 1].transactions| {
      j := RecordedLegitimately(states, steps, i - 1, k);
    } else {
      j := i - 1;
    }
  }

  // ---- completions ----

  predicate Blank(t: Transaction) {
    t.gasUsed.None? && t.actualCollateral.None? && t.blockNumber.None? && t.confirmedAt.None?
  }

  /** The row carries the figures of the completion. */
  predicate Carries(t: Transaction, done: Completion) {
    && t.status == done.status && t.confirmedAt == Some(done.now) && t.blockNumber == done.blockNumber
    && t.gasUsed == done.gasUsed && t.actualCollateral == done.actualCollateral && t.leaseOwner.None?
  }

  /** Step j is the completion that closed row k, by the worker that held it. */
  predicate Closes(states: seq<Store>, steps: seq<Step>, j: nat, k: nat) {
    && j < |steps| && j < |states| && steps[j].CompleteStep? && steps[j].i == k && k < |states[j].transactions|
    && states[j].transactions[k].status == TxPending
    && states[j].transactions[k].leaseOwner == Some(steps[j].worker)
  }

  lemma RowStep(s: Store, step: Step, k: nat)
    requires Enabled(s, step) && k < |s.transactions|
    ensures k < |Next(s, step).transactions|
    ensures var t, u := s.transactions[k], Next(s, step).transactions[k];
            if step.CompleteStep? && step.i == k && t.status == TxPending && t.leaseOwner == Some(step.worker)
            then Blank(t) ==> Carries(u, step.done)
            else u.status == t.status && u.confirmedAt == t.confirmedAt && u.blockNumber == t.blockNumber
                 && u.gasUsed == t.gasUsed && u.actualCollateral == t.actualCollateral
                 && (t.status != TxPending ==> u == t)
  {}

  /** A pending row has no figures; a closed one has those of the completion that its lease holder closed it with. */
  lemma {:induction false} ClosedBy(states: seq<Store>, steps: seq<Step>, i: nat, k: nat) returns (j: nat)
    requires Run(states, steps) && i < |states| && k < |states[i].transactions|
    ensures states[i].transactions[k].status == TxPending ==> Blank(states[i].transactions[k])
    ensures states[i].transactions[k].status != TxPending ==>
              j < i && Closes(states, steps, j, k) && Carries(states[i].transactions[k], steps[j].done)
  {
    RunStep(states, steps, i - 1);
    var s, step := states[i - 1], steps[i - 1];
    RowKeepsOrigin(s, step, k);
    j := i - 1;
    if k < |s.transactions| {
      RowStep(s, step, k);
      var earlier := ClosedBy(states, steps, i - 1, k);
      if s.transactions[k].status != TxPending {
        j := earlier;
      }
    }
  }

  // ---- totals ----

  function GasOf(c: string): Transaction -> nat {
    (t: Transaction) => if t.claimId == c then t.gasUsed.GetOr(0) else 0
  }

  function CollateralOf(c: string): Transaction -> nat {
    (t: Transaction) => if t.claimId == c then t.actualCollateral.GetOr(0) else 0
  }

  lemma {:induction false} TotalsAreSums(rows: seq<Transaction>, c: string)
    ensures Gas(rows, c) == Sum(rows, GasOf(c)) && Collateral(rows, c) == Sum(rows, CollateralOf(c))
  {
    if rows != [] {
      TotalsAreSums(rows[..|rows| - 1], c);
    }
  }

  /**
   * What a confirmed claim reports: gas and collateral summed over all its rows, each of which was confirmed by a
   * completion whose gas, collateral and block the row still has.
   */
  lemma ConfirmedTotals(states: seq<Store>, steps: seq<Step>, i: nat, c: string)
    requires Run(states, steps) && i < |states| && c in states[i].claims && states[i].claims[c].status == Confirmed
    ensures states[i].claims[c].gasUsed == Some(Sum(states[i].transactions, GasOf(c)))
    ensures states[i].claims[c].actualCollateral == Some(Sum(states[i].transactions, CollateralOf(c)))
    ensures forall k: nat :: k < |states[i].transactions| && states[i].transactions[k].claimId == c ==>
              exists j: nat :: j < i && Closes(states, steps, j, k) && steps[j].done.status == TxConfirmed
                               && Carries(states[i].transactions[k], steps[j].done)
  {
    ClaimStatusIsVerdict(states, steps, i, c);
    TotalsAreSums(states[i].transactions, c);
    forall k: nat | k < |states[i].transactions| && states[i].transactions[k].claimId == c
      ensures exists j: nat :: j < i && Closes(states, steps, j, k) && steps[j].done.status == TxConfirmed
                               && Carries(states[i].transactions[k], steps[j].done)
    {
      var j := ClosedBy(states, steps, i, k);
    }
  }

  // ---- what a claim says of its submissions ----

  /** When the claim's first transaction was submitted. */
  function FirstSubmission(rows: seq<Transaction>, c: string): Option<int> {
    if rows == [] then None
    else
      var earlier, last := FirstSubmission(rows[..|rows| - 1], c), rows[|rows| - 1];
      if earlier.None? && last.claimId == c then Some(last.submittedAt) else earlier
  }

  /** The hash of the claim's batch 0. */
  function FirstBatchHash(rows: seq<Transaction>, c: string): Option<string> {
    if rows == [] then None
    else
      var earlier, last := FirstBatchHash(rows[..|rows| - 1], c), rows[|rows| - 1];
      if last.claimId == c && last.batchIndex == 0 then Some(last.hash) else earlier
  }

  predicate SameOrigin(t: Transaction, u: Transaction) {
    t.claimId == u.claimId && t.batchIndex == u.batchIndex && t.hash == u.hash && t.submittedAt == u.submittedAt
  }

  lemma {:induction false} SameHeader(rows: seq<Transaction>, other: seq<Transaction>, c: string)
    requires |rows| == |other| && forall k :: 0 <= k < |rows| ==> SameOrigin(rows[k], other[k])
    ensures FirstSubmission(rows, c) == FirstSubmission(other, c)
    ensures FirstBatchHash(rows, c) == FirstBatchHash(other, c)
  {
    if rows != [] {
      var n := |rows| - 1;
      assert SameOrigin(rows[n], other[n]);
      SameHeader(rows[..n], other[..n], c);
    }
  }

  lemma {:induction false} NothingSubmitted(rows: seq<Transaction>, c: string)
    requires !Recorded(rows, c)
    ensures FirstSubmission(rows, c).None? && FirstBatchHash(rows, c).None?
  {
    if rows != [] {
      var n := |rows| - 1;
      assert rows[n].claimId != c;
      assert forall k :: 0 <= k < n ==> rows[..n][k] == rows[k];
      NothingSubmitted(rows[..n], c);
    }
  }

  predicate HeaderOk(s: Store, c: string)
    requires c in s.claims
  {
    && s.claims[c].submittedAt == FirstSubmission(s.transactions, c)
    && s.claims[c].transactionHash == FirstBatchHash(s.transactions, c)
  }

  lemma SubmitKeepsHeader(s: Store, sub: Submission, c: string)
    requires c in s.claims && HeaderOk(s, c)
    ensures HeaderOk(Submit(s, sub), c)
  {
    var rows := Submit(s, sub).transactions;
    if SubmitResult(s, sub) == Ok(false) {
      assert rows[..|rows| - 1] == s.transactions;
    }
  }

  lemma QuietHeader(s: Store, step: Step, c: string)
    requires Enabled(s, step) && !step.SubmitStep? && c in s.claims
    ensures |Next(s, step).transactions| == |s.transactions| && c in Next(s, step).claims
    ensures forall k :: 0 <= k < |s.transactions| ==> SameOrigin(s.transactions[k], Next(s, step).transactions[k])
    ensures Next(s, step).claims[c].submittedAt == s.claims[c].submittedAt
    ensures Next(s, step).claims[c].transactionHash == s.claims[c].transactionHash
  {}

  lemma StepKeepsHeader(s: Store, step: Step, c: string)
    requires Inv(s) && Enabled(s, step) && c in Next(s, step).claims && (c in s.claims ==> HeaderOk(s, c))
    ensures HeaderOk(Next(s, step), c)
  {
    if c !in s.claims {
      assert forall k :: 0 <= k < |s.transactions| ==> RowOk(s, s.transactions[k]);
      NothingSubmitted(s.transactions, c);
    } else if step.SubmitStep? {
      SubmitKeepsHeader(s, step.sub, c);
    } else {
      QuietHeader(s, step, c);
      SameHeader(s.transactions, Next(s, step).transactions, c);
    }
  }

  /** In every reachable state a claim has the hash of its batch 0 and the time of its first submission. */
  lemma {:induction false} ClaimHeader(states: seq<Store>, steps: seq<Step>, i: nat, c: string)
    requires Run(states, steps) && i < |states| && c in states[i].claims
    ensures states[i].claims[c].submittedAt == FirstSubmission(states[i].transactions, c)
    ensures states[i].claims[c].transactionHash == FirstBatchHash(states[i].transactions, c)
  {
    if i > 0 {
      RunStep(states, steps, i - 1);
      RunInv(states, steps, i - 1);
      if c in states[i - 1].claims {
        ClaimHeader(states, steps, i - 1, c);
      }
      StepKeepsHeader(states[i - 1], steps[i - 1], c);
    }
  }

  lemma {:induction false} HashIsOfRow(rows: seq<Transaction>, c: string)
    ensures FirstBatchHash(rows, c).Some? ==> HasHash(rows, FirstBatchHash(rows, c).value)
  {
    if rows != [] {
      var n := |rows| - 1;
      HashIsOfRow(rows[..n], c);
      assert forall k :: 0 <= k < n ==> rows[..n][k] == rows[k];
    }
  }

  /** In every reachable state the unique keys refuse a hash exactly when some transaction has it. */
  lemma HashTakenExactly(states: seq<Store>, steps: seq<Step>, i: nat, sub: Submission)
    requires Run(states, steps) && i < |states|
    ensures HashTaken(states[i], sub)
            <==> exists k :: 0 <= k < |states[i].transactions| && states[i].transactions[k].hash == sub.hash
  {
    var s := states[i];
    RunInv(states, steps, i);
    if k :| 0 <= k < |s.transactions| && s.transactions[k].hash == sub.hash {
      assert RowOk(s, s.transactions[k]);
    }
    if HashTaken(s, sub) && ClaimSubmitted(sub.hash) !in s.published {
      if c :| c in s.claims && s.claims[c].transactionHash == Some(sub.hash) {
        ClaimHeader(states, steps, i, c);
        HashIsOfRow(s.transactions, c);
      }
    }
  }

  /** The completion that makes a claim confirmed stamps it with its time and, if it has one, its block. */
  lemma ConfirmingStep(s: Store, step: Step, c: string)
    requires Enabled(s, step) && c in s.claims && s.claims[c].status != Confirmed
    requires Next(s, step).claims[c].status == Confirmed
    ensures step.CompleteStep? && step.done.status == TxConfirmed
    ensures Next(s, step).claims[c].confirmedAt == Some(step.done.now)
    ensures step.done.blockNumber.Some? ==> Next(s, step).claims[c].blockNumber == step.done.blockNumber
  {
    if step.CompleteStep? {
      VerdictSeen(Next(s, step).transactions, c);
      assert Next(s, step).transactions[step.i].claimId == c;
    }
  }

  /** A stored plan and its deployment never change. */
  lemma {:induction false} PlanStays(states: seq<Store>, steps: seq<Step>, i: nat, j: nat, c: string)
    requires Run(states, steps) && i <= j < |states| && c in states[i].claims
    ensures c in states[j].claims && states[j].claims[c].plan == states[i].claims[c].plan
    ensures states[j].claims[c].deploymentKey == states[i].claims[c].deploymentKey
    decreases j
  {
    if i < j {
      PlanStays(states, steps, i, j - 1, c);
      RunStep(states, steps, j - 1);
    }
  }

  // ---- the remaining events ----

  /** Some completion before step i closed a row of this hash and found something owed. */
  ghost predicate FoundOwed(states: seq<Store>, steps: seq<Step>, i: nat, h: string) {
    exists j, k :: 0 <= j < i && OwedAt(states, steps, j, k, h)
  }

  predicate OwedAt(states: seq<Store>, steps: seq<Step>, j: nat, k: nat, h: string) {
    Closes(states, steps, j, k) && states[j].transactions[k].hash == h && steps[j].done.fallbackOwed > 0
  }

  lemma StepPublishes(s: Store, step: Step, h: string)
    requires Enabled(s, step)
    ensures PayoutOwed(h) in Next(s, step).published <==>
              || PayoutOwed(h) in s.published
              || (step.CompleteStep? && step.i < |s.transactions| && s.transactions[step.i].status == TxPending
                  && s.transactions[step.i].leaseOwner == Some(step.worker) && s.transactions[step.i].hash == h
                  && step.done.fallbackOwed > 0)
  {}

  /** That a payout is owed is published exactly when a completion found a balance owed. */
  lemma {:induction false} OwedPublished(states: seq<Store>, steps: seq<Step>, i: nat, h: string)
    requires Run(states, steps) && i < |states|
    ensures PayoutOwed(h) in states[i].published <==> FoundOwed(states, steps, i, h)
  {
    if i > 0 {
      OwedPublished(states, steps, i - 1, h);
      RunStep(states, steps, i - 1);
      StepPublishes(states[i - 1], steps[i - 1], h);
      if PayoutOwed(h) in states[i].published && PayoutOwed(h) !in states[i - 1].published {
        assert OwedAt(states, steps, i - 1, steps[i - 1].i, h);
      }
    }
  }

  /** The creation of a plan is published exactly when its claim is stored. */
  lemma {:induction false} CreationPublished(states: seq<Store>, steps: seq<Step>, i: nat, c: string)
    requires Run(states, steps) && i < |states|
    ensures PlanCreated(c) in states[i].published <==> c in states[i].claims
  {
    if i > 0 {
      CreationPublished(states, steps, i - 1, c);
      RunStep(states, steps, i - 1);
      CreationStep(states[i - 1], steps[i - 1], c);
    }
  }

  lemma CreationStep(s: Store, step: Step, c: string)
    requires Enabled(s, step)
    ensures PlanCreated(c) in Next(s, step).published <==>
              PlanCreated(c) in s.published || (step.PersistStep? && step.claimId == c)
    ensures c in Next(s, step).claims <==> c in s.claims || (step.PersistStep? && step.claimId == c)
  {}

  // ---- leases ----

  /** A lease is only ever given on a pending row that is due and not held. */
  lemma LeasedWhenDue(states: seq<Store>, steps: seq<Step>, i: nat)
    requires Run(states, steps) && i < |steps| && steps[i].LeaseStep?
    ensures var k, rows, after := steps[i].i, states[i].transactions, states[i + 1].transactions;
            && k < |rows| == |after|
            && rows[k].status == TxPending && rows[k].nextAttemptAt <= steps[i].now
            && (rows[k].leaseOwner.Some? ==>
                  rows[k].leaseExpiresAt.Some? && rows[k].leaseExpiresAt.value <= steps[i].now)
            && after[k].leaseOwner == Some(steps[i].worker)
            && after[k].leaseExpiresAt == Some(steps[i].now + steps[i].leaseMs)
            && after[k].attempts == rows[k].attempts + 1
  {
    RunStep(states, steps, i);
  }

  /** Step j ends the lease of row k by its holder. */
  predicate Ends(states: seq<Store>, steps: seq<Step>, j: nat, k: nat, worker: string) {
    && j < |steps|
    && ((steps[j].DeferStep? && steps[j].i == k && steps[j].worker == worker)
        || (steps[j].CompleteStep? && steps[j].i == k && steps[j].worker == worker))
  }

  ghost predicate Quiet(states: seq<Store>, steps: seq<Step>, from: nat, to: nat, k: nat, worker: string) {
    forall j: nat :: from <= j < to ==> !Ends(states, steps, j, k, worker)
  }

  predicate LeasesRow(step: Step, k: nat) { step.LeaseStep? && step.i == k }

  lemma {:induction false} LeaseStands(states: seq<Store>, steps: seq<Step>, i: nat, j: nat)
    requires Run(states, steps) && i < j < |states| && steps[i].LeaseStep?
    requires forall m :: i < m < j ==> !LeasesRow(steps[m], steps[i].i)
    requires Quiet(states, steps, i + 1, j, steps[i].i, steps[i].worker)
    ensures steps[i].i < |states[j].transactions| && steps[i].i < |states[i + 1].transactions|
    ensures states[j].transactions[steps[i].i] == states[i + 1].transactions[steps[i].i]
    decreases j
  {
    LeasedWhenDue(states, steps, i);
    if j > i + 1 {
      LeaseStands(states, steps, i, j - 1);
      RunStep(states, steps, j - 1);
      assert !Ends(states, steps, j - 1, steps[i].i, steps[i].worker);
      assert !LeasesRow(steps[j - 1], steps[i].i);
    }
  }

  /** Between two leases of a transaction its holder ended the first, or the first had expired. */
  lemma TransactionLeaseIsExclusive(states: seq<Store>, steps: seq<Step>, i: nat, j: nat)
    requires Run(states, steps) && i < j < |steps| && steps[i].LeaseStep? && LeasesRow(steps[j], steps[i].i)
    requires forall m :: i < m < j ==> !LeasesRow(steps[m], steps[i].i)
    requires Quiet(states, steps, i + 1, j, steps[i].i, steps[i].worker)
    ensures steps[i].now + steps[i].leaseMs <= steps[j].now
  {
    LeaseStands(states, steps, i, j);
    LeasedWhenDue(states, steps, i);
    LeasedWhenDue(states, steps, j);
  }

  /** After a deferral by its holder a transaction is not leased again before the delay has passed. */
  lemma DeferralWaits(states: seq<Store>, steps: seq<Step>, i: nat, j: nat)
    requires Run(states, steps) && i < j < |steps| && steps[i].DeferStep? && LeasesRow(steps[j], steps[i].i)
    requires steps[i].i < |states[i].transactions| && states[i].transactions[steps[i].i].status == TxPending
    requires states[i].transactions[steps[i].i].leaseOwner == Some(steps[i].worker)
    requires forall m :: i < m < j ==> !LeasesRow(steps[m], steps[i].i)
    ensures steps[i].now + steps[i].delayMs <= steps[j].now
  {
    RunStep(states, steps, i);
    DeferredStands(states, steps, i, j);
    LeasedWhenDue(states, steps, j);
  }

  lemma {:induction false} DeferredStands(states: seq<Store>, steps: seq<Step>, i: nat, j: nat)
    requires Run(states, steps) && i < j < |states| && steps[i].DeferStep?
    requires steps[i].i < |states[i].transactions| && states[i].transactions[steps[i].i].status == TxPending
    requires states[i].transactions[steps[i].i].leaseOwner == Some(steps[i].worker)
    requires forall m :: i < m < j ==> !LeasesRow(steps[m], steps[i].i)
    ensures steps[i].i < |states[j].transactions|
    ensures var t := states[j].transactions[steps[i].i];
            t.leaseOwner.None? && t.nextAttemptAt == steps[i].now + steps[i].delayMs
    decreases j
  {
    RunStep(states, steps, j - 1);
    if j > i + 1 {
      DeferredStands(states, steps, i, j - 1);
      assert !LeasesRow(steps[j - 1], steps[i].i);
    }
  }
}
