/**
 * From plan to payout: apps/worker/src/jobs/claim-receipt.ts joins the receipt reconciliation to the claim
 * repository, and the collateral of a confirmed claim is what the planner expected of its recorded batches.
 */
module Conservation {
  import opened Wrappers
  import opened Claims
  import opened ClaimRuns
  import opened Payout
  import H = ClaimHistory
  import Ordering
  import RF = ReceiptFields
  import P = Planner
  import F = Finalize
  import R = Receipts
  import S = ReceiptSafety
  import Safety = PlanSafety
  import Repository = ClaimRepository

  // ---- the job ----

  /** What the repository keeps of a finalized plan. */
  function Stored(plan: F.Plan): StoredPlan {
    StoredPlan(plan.draft.owner, plan.draft.chainId, plan.draft.expiresAt, Payouts(plan.draft.batches),
               plan.draft.expectedPayout)
  }

  function Payouts(batches: seq<P.Batch>): (payouts: seq<nat>)
    ensures |payouts| == |batches|
    ensures forall k :: 0 <= k < |batches| ==> payouts[k] == batches[k].expectedPayout
  {
    seq(|batches|, k requires 0 <= k < |batches| => batches[k].expectedPayout)
  }

  /** The completion a decided outcome is recorded with. */
  function CompletionOf(outcome: R.Outcome, now: int): Completion
    requires !outcome.Pending?
  {
    match outcome
    case Superseded => Completion(TxSuperseded, None, None, None, 0, now)
    case Failed(_, blockNumber, gasUsed) => Completion(TxFailed, blockNumber, gasUsed, None, 0, now)
    case Confirmed(_, _, actual, owed, block, gas) =>
      Completion(TxConfirmed, Some(block), Some(gas), Some(actual), owed, now)
  }

  /** The row write of the job; no outcome means that decoding or the gateway threw. */
  function Settled(s: Store, i: nat, worker: string, outcome: Option<R.Outcome>, delayMs: int, now: int): Store {
    if outcome.None? || outcome.value.Pending? then Defer(s, i, worker, delayMs, now)
    else Complete(s, i, worker, CompletionOf(outcome.value, now))
  }

  /** The job after the lease: record what the reconciliation found, or retry later. */
  method Settle(
    repository: Repository.ClaimRepository, i: nat, worker: string, outcome: Option<R.Outcome>, delayMs: int,
    now: int)
    returns (worked: bool)
    requires delayMs > 0
    modifies repository
    ensures repository.Rows() == Settled(old(repository.Rows()), i, worker, outcome, delayMs, now)
    ensures worked <==> outcome.Some? && old(Holds(repository.Rows(), i, worker))
  {
    if outcome.None? {
      var _ := repository.DeferReconciliation(i, worker, delayMs, now);
      return false;
    }
    if outcome.value.Pending? {
      var deferred := repository.DeferReconciliation(i, worker, delayMs, now);
      worked := deferred.value;
    } else {
      worked := repository.CompleteReconciliation(i, worker, CompletionOf(outcome.value, now));
    }
    if !worked {
      // The lost lease is thrown and the handler tries to defer.
      var _ := repository.DeferReconciliation(i, worker, delayMs, now);
    }
  }

  // ---- runs whose completions come from reconciliations ----

  /** A completion of row t that some answer of the chain justifies. */
  ghost predicate Justified(t: Transaction, done: Completion, plan: F.Plan, marketKey: nat -> nat) {
    exists gateway: R.Gateway, outcome: R.Outcome ::
      && R.Reconciles(plan, t.batchIndex, Some(t.nonce), gateway, marketKey, outcome)
      && !outcome.Pending? && done == CompletionOf(outcome, done.now)
  }

  /** Every stored plan is the plan of its claim id, and every completion comes from a reconciliation with it. */
  ghost predicate HonestStep(s: Store, step: Step, plans: string -> F.Plan, marketKey: nat -> nat) {
    match step
    case PersistStep(claimId, _, plan) => plan == Stored(plans(claimId))
    case CompleteStep(i, worker, done) =>
      Holds(s, i, worker) ==> Justified(s.transactions[i], done, plans(s.transactions[i].claimId), marketKey)
    case _ => true
  }

  ghost predicate HonestStepAt(
    states: seq<Store>, steps: seq<Step>, plans: string -> F.Plan, marketKey: nat -> nat, i: nat)
    requires i < |steps| < |states|
  {
    HonestStep(states[i], steps[i], plans, marketKey)
  }

  ghost predicate HonestRun(states: seq<Store>, steps: seq<Step>, plans: string -> F.Plan, marketKey: nat -> nat) {
    && Run(states, steps)
    && (forall i :: 0 <= i < |steps| ==> HonestStepAt(states, steps, plans, marketKey, i))
  }

  /** The planner built and finalized the plan. */
  ghost predicate Planned(plan: F.Plan) {
    exists input: P.Input :: P.PlanOf(input) == Ok(plan.draft)
  }

  /** What the proofs below use of a planner-built plan. */
  ghost predicate Sound(draft: P.Draft) {
    && (forall k :: 0 <= k < |draft.batches| ==> SoundBatch(draft.batches[k], k))
    && SumAmounts(Payouts(draft.batches)) == draft.expectedPayout
  }

  ghost predicate AllSound(plans: string -> F.Plan) {
    forall c {:trigger Sound(plans(c).draft)} :: Sound(plans(c).draft)
  }

  predicate SoundBatch(batch: P.Batch, k: nat) {
    batch.index == k && batch.expectedPayout == P.Payouts(batch.entries) && batch.expectedPayout > 0
  }

  lemma {:induction false} FirstPayout(payouts: seq<nat>)
    requires payouts != []
    ensures SumAmounts(payouts) == payouts[0] + SumAmounts(payouts[1..])
  {
    var n := |payouts| - 1;
    if n > 0 {
      FirstPayout(payouts[..n]);
      assert payouts[..n][1..] == payouts[1..][..n - 1];
    } else {
      assert payouts[..0] == [] && payouts[1..] == [];
    }
  }

  lemma {:induction false} TotalOfBatches(batches: seq<P.Batch>)
    ensures SumAmounts(Payouts(batches)) == F.BatchTotal(batches)
  {
    if batches != [] {
      TotalOfBatches(batches[1..]);
      FirstPayout(Payouts(batches));
      assert Payouts(batches)[1..] == Payouts(batches[1..]);
    }
  }

  lemma PaysSomething(entries: seq<P.Entry>)
    requires entries != [] && forall e :: e in entries ==> e.expectedPayout >= 1
    ensures P.Payouts(entries) > 0
  {
    assert entries[|entries| - 1] in entries;
  }

  lemma PlannedIsSound(plan: F.Plan)
    requires Planned(plan)
    ensures Sound(plan.draft)
  {
    var input :| P.PlanOf(input) == Ok(plan.draft);
    var batches := plan.draft.batches;
    F.BatchesOfPlan(input, plan.draft);
    Safety.PlanIsSafe(input, plan.draft);
    TotalOfBatches(batches);
    forall k | 0 <= k < |batches| ensures SoundBatch(batches[k], k) {
      S.BatchEntriesIn(batches, k);
      PaysSomething(batches[k].entries);
    }
  }

  // ---- the collateral of one transaction ----

  lemma {:induction false} FindsOwnIndex(batches: seq<P.Batch>, k: nat, first: nat)
    requires k < |batches| && forall m :: 0 <= m < |batches| ==> SoundBatch(batches[m], first + m)
    ensures R.FindBatch(batches, first + k) == k
  {
    var i := R.FindBatch(batches, first + k);
    assert batches[k].index == first + k;
  }

  lemma ReportedCollateral(draft: P.Draft, b: nat, gateway: R.Gateway, marketKey: nat -> nat, outcome: R.Outcome)
    requires outcome.Confirmed? && R.Verified(draft, b, gateway, marketKey)
    requires R.Reports(draft, b, gateway, marketKey, outcome)
    ensures outcome.actualCollateral == P.Payouts(draft.batches[b].entries)
  {
    S.ConfirmedMeansRedeemed(draft, b, gateway, marketKey);
  }

  /** A justified confirmation carries exactly the batch's expected payout. */
  lemma ConfirmationPays(t: Transaction, done: Completion, plan: F.Plan, marketKey: nat -> nat)
    requires Sound(plan.draft) && t.batchIndex < |plan.draft.batches|
    requires Justified(t, done, plan, marketKey) && done.status == TxConfirmed
    ensures done.actualCollateral == Some(plan.draft.batches[t.batchIndex].expectedPayout)
  {
    var gateway: R.Gateway, outcome: R.Outcome :|
      && R.Reconciles(plan, t.batchIndex, Some(t.nonce), gateway, marketKey, outcome)
      && !outcome.Pending? && done == CompletionOf(outcome, done.now);
    assert outcome.Confirmed?;
    assert SoundBatch(plan.draft.batches[t.batchIndex], t.batchIndex);
    FindsOwnIndex(plan.draft.batches, t.batchIndex, 0);
    ReportedCollateral(plan.draft, t.batchIndex, gateway, marketKey, outcome);
  }

  // ---- the invariant ----

  predicate RowPaid(s: Store, t: Transaction) {
    t.status == TxConfirmed && t.claimId in s.claims && t.batchIndex < |s.claims[t.claimId].plan.batchPayouts| ==>
      t.actualCollateral == Some(s.claims[t.claimId].plan.batchPayouts[t.batchIndex])
  }

  ghost predicate PlansStored(s: Store, plans: string -> F.Plan) {
    forall c :: c in s.claims ==> s.claims[c].plan == Stored(plans(c))
  }

  ghost predicate RowsPaid(s: Store) {
    forall k :: 0 <= k < |s.transactions| ==> RowPaid(s, s.transactions[k])
  }

  lemma StepKeepsPlans(s: Store, step: Step, plans: string -> F.Plan, marketKey: nat -> nat)
    requires Enabled(s, step) && HonestStep(s, step, plans, marketKey) && PlansStored(s, plans)
    ensures PlansStored(Next(s, step), plans)
    ensures forall c :: c in s.claims ==> c in Next(s, step).claims && Next(s, step).claims[c].plan == s.claims[c].plan
  {}

  lemma CompleteKeepsPaid(
    s: Store, i: nat, worker: string, done: Completion, plans: string -> F.Plan, marketKey: nat -> nat)
    requires RowsOk(s) && PlansStored(s, plans) && RowsPaid(s) && Holds(s, i, worker)
    requires Sound(plans(s.transactions[i].claimId).draft)
    requires Justified(s.transactions[i], done, plans(s.transactions[i].claimId), marketKey)
    ensures RowsPaid(Complete(s, i, worker, done))
  {
    var u, t := Complete(s, i, worker, done), s.transactions[i];
    assert RowOk(s, t);
    if done.status == TxConfirmed {
      ConfirmationPays(t, done, plans(t.claimId), marketKey);
    }
    forall k | 0 <= k < |u.transactions| ensures RowPaid(u, u.transactions[k]) {
      assert RowPaid(s, s.transactions[k]);
      if k == i {
        assert u.transactions[k] == ClosedTx(t, done);
      }
    }
  }

  /** Only a completion touches a row's status or money; a new row is pending. */
  predicate SameOutcome(t: Transaction, u: Transaction) {
    t.status == u.status && t.claimId == u.claimId && t.batchIndex == u.batchIndex
      && t.actualCollateral == u.actualCollateral
  }

  lemma QuietStep(s: Store, step: Step, k: nat)
    requires Enabled(s, step) && !step.CompleteStep? && k < |Next(s, step).transactions|
    ensures k < |s.transactions| ==> SameOutcome(s.transactions[k], Next(s, step).transactions[k])
    ensures k >= |s.transactions| ==> Next(s, step).transactions[k].status == TxPending
  {}

  lemma StepKeepsPaid(s: Store, step: Step, plans: string -> F.Plan, marketKey: nat -> nat)
    requires RowsOk(s) && PlansStored(s, plans) && RowsPaid(s)
    requires Enabled(s, step) && HonestStep(s, step, plans, marketKey)
    requires AllSound(plans)
    ensures RowsPaid(Next(s, step))
  {
    var u := Next(s, step);
    if step.CompleteStep? {
      if Holds(s, step.i, step.worker) {
        CompleteKeepsPaid(s, step.i, step.worker, step.done, plans, marketKey);
      }
    } else {
      StepKeepsPlans(s, step, plans, marketKey);
      forall k | 0 <= k < |u.transactions| ensures RowPaid(u, u.transactions[k]) {
        QuietStep(s, step, k);
        if k < |s.transactions| {
          assert RowOk(s, s.transactions[k]) && RowPaid(s, s.transactions[k]);
        }
      }
    }
  }

  /** What one honest step keeps. */
  lemma StepKeepsMoney(s: Store, step: Step, plans: string -> F.Plan, marketKey: nat -> nat)
    requires Inv(s) && MoneyOk(s, plans) && AllSound(plans)
    requires Enabled(s, step) && HonestStep(s, step, plans, marketKey)
    ensures MoneyOk(Next(s, step), plans)
  {
    StepKeepsPlans(s, step, plans, marketKey);
    StepKeepsPaid(s, step, plans, marketKey);
  }

  lemma HonestAt(states: seq<Store>, steps: seq<Step>, plans: string -> F.Plan, marketKey: nat -> nat, i: nat)
    requires HonestRun(states, steps, plans, marketKey) && i < |steps|
    ensures HonestStep(states[i], steps[i], plans, marketKey)
    ensures Enabled(states[i], steps[i]) && states[i + 1] == Next(states[i], steps[i])
    ensures Inv(states[i])
  {
    RunStep(states, steps, i);
    RunInv(states, steps, i);
    assert HonestStepAt(states, steps, plans, marketKey, i);
  }

  ghost predicate MoneyOk(s: Store, plans: string -> F.Plan) {
    PlansStored(s, plans) && RowsPaid(s)
  }

  lemma MoneyAt(states: seq<Store>, steps: seq<Step>, plans: string -> F.Plan, marketKey: nat -> nat, i: nat)
    requires HonestRun(states, steps, plans, marketKey) && i < |steps| && AllSound(plans) && MoneyOk(states[i], plans)
    ensures MoneyOk(states[i + 1], plans)
  {
    HonestAt(states, steps, plans, marketKey, i);
    StepKeepsMoney(states[i], steps[i], plans, marketKey);
  }

  lemma NoMoneyYet(states: seq<Store>, steps: seq<Step>, plans: string -> F.Plan)
    requires Run(states, steps)
    ensures MoneyOk(states[0], plans)
  {}

  lemma {:induction false} RunPaid(
    states: seq<Store>, steps: seq<Step>, plans: string -> F.Plan, marketKey: nat -> nat, i: nat)
    requires HonestRun(states, steps, plans, marketKey) && i < |states| && AllSound(plans)
    ensures MoneyOk(states[i], plans)
  {
    if i == 0 {
      NoMoneyYet(states, steps, plans);
    } else {
      var j: nat := i - 1;
      RunPaid(states, steps, plans, marketKey, j);
      MoneyAt(states, steps, plans, marketKey, j);
      assert MoneyOk(states[j + 1], plans);
    }
  }

  // ---- sums over recorded batches ----

  /** The summed payouts of the recorded batches of a claim. */
  function RecordedPayout(rows: seq<Transaction>, c: string, payouts: seq<nat>): nat {
    if rows == [] then 0
    else
      var last := rows[|rows| - 1];
      RecordedPayout(rows[..|rows| - 1], c, payouts)
      + if last.claimId == c && last.batchIndex < |payouts| then payouts[last.batchIndex] else 0
  }

  predicate BatchRecorded(rows: seq<Transaction>, c: string, b: nat) {
    exists k :: 0 <= k < |rows| && rows[k].claimId == c && rows[k].batchIndex == b
  }

  lemma {:induction false} ConfirmedCollateral(s: Store, n: nat, c: string)
    requires n <= |s.transactions| && c in s.claims
    requires forall k :: 0 <= k < n ==> RowPaid(s, s.transactions[k])
    requires forall k :: 0 <= k < n && s.transactions[k].claimId == c ==>
                           s.transactions[k].status == TxConfirmed
                             && s.transactions[k].batchIndex < |s.claims[c].plan.batchPayouts|
    ensures Collateral(s.transactions[..n], c) == RecordedPayout(s.transactions[..n], c, s.claims[c].plan.batchPayouts)
  {
    if n > 0 {
      ConfirmedCollateral(s, n - 1, c);
      assert s.transactions[..n][..n - 1] == s.transactions[..n - 1];
      assert RowPaid(s, s.transactions[n - 1]);
    }
  }

  lemma JudgedCollateral(s: Store, c: string)
    requires c in s.claims && RowsOk(s) && RowsPaid(s)
    requires forall k :: 0 <= k < |s.transactions| && s.transactions[k].claimId == c ==>
             s.transactions[k].status == TxConfirmed
    ensures Collateral(s.transactions, c) == RecordedPayout(s.transactions, c, s.claims[c].plan.batchPayouts)
  {
    assert forall k :: 0 <= k < |s.transactions| ==> RowOk(s, s.transactions[k]);
    ConfirmedCollateral(s, |s.transactions|, c);
    assert s.transactions[..|s.transactions|] == s.transactions;
  }

  /** One more payout in the table adds what is recorded of that batch: at most once, as its row is unique. */
  lemma {:induction false} OneMoreBatch(rows: seq<Transaction>, c: string, payouts: seq<nat>)
    requires payouts != [] && DistinctRows(rows)
    ensures var b := |payouts| - 1;
            RecordedPayout(rows, c, payouts)
            == RecordedPayout(rows, c, payouts[..b]) + if BatchRecorded(rows, c, b) then payouts[b] else 0
  {
    var b := |payouts| - 1;
    if rows != [] {
      var n := |rows| - 1;
      var front, last := rows[..n], rows[n];
      assert forall k :: 0 <= k < n ==> front[k] == rows[k];
      OneMoreBatch(front, c, payouts);
      if last.claimId == c && last.batchIndex == b {
        assert !BatchRecorded(front, c, b) by {
          assert forall k :: 0 <= k < n ==> !SameBatch(rows[k], rows[n]);
        }
      } else {
        assert BatchRecorded(rows, c, b) <==> BatchRecorded(front, c, b);
      }
    }
  }

  lemma {:induction false} NothingRecorded(rows: seq<Transaction>, c: string)
    ensures RecordedPayout(rows, c, []) == 0
  {
    if rows != [] {
      NothingRecorded(rows[..|rows| - 1], c);
    }
  }

  /** The recorded batches pay at most the total, and the whole total exactly when no paying batch is missing. */
  lemma {:induction false} RecordedAgainstTotal(rows: seq<Transaction>, c: string, payouts: seq<nat>)
    requires DistinctRows(rows) && forall b :: 0 <= b < |payouts| ==> payouts[b] > 0
    ensures RecordedPayout(rows, c, payouts) <= SumAmounts(payouts)
    ensures RecordedPayout(rows, c, payouts) == SumAmounts(payouts)
            <==> forall b: nat :: b < |payouts| ==> BatchRecorded(rows, c, b)
  {
    if payouts == [] {
      NothingRecorded(rows, c);
    } else {
      OneMoreBatch(rows, c, payouts);
      RecordedAgainstTotal(rows, c, payouts[..|payouts| - 1]);
    }
  }

  // ---- end to end ----

  /**
   * Conservation from plan to chain: in every run of submissions, leases and reconciliations, a confirmed claim
   * reports exactly the summed expected payouts of its recorded batches.
   */
  lemma ConfirmedClaimPays(
    states: seq<Store>, steps: seq<Step>, plans: string -> F.Plan, marketKey: nat -> nat, i: nat, c: string)
    requires HonestRun(states, steps, plans, marketKey) && i < |states| && forall c :: Planned(plans(c))
    requires c in states[i].claims && states[i].claims[c].status == Confirmed
    ensures states[i].claims[c].actualCollateral
            == Some(RecordedPayout(states[i].transactions, c, Payouts(plans(c).draft.batches)))
  {
    forall d ensures Sound(plans(d).draft) {
      PlannedIsSound(plans(d));
    }
    RunPaid(states, steps, plans, marketKey, i);
    RunInv(states, steps, i);
    ClaimStatusIsVerdict(states, steps, i, c);
    JudgedCollateral(states[i], c);
  }

  /**
   * It never reports more than the plan expected, and it reports the plan's whole expected payout if and only if
   * every batch of the plan was recorded: `confirmed` alone does not promise that.
   */
  lemma ConfirmedClaimIsWhole(
    states: seq<Store>, steps: seq<Step>, plans: string -> F.Plan, marketKey: nat -> nat, i: nat, c: string)
    requires HonestRun(states, steps, plans, marketKey) && i < |states| && forall c :: Planned(plans(c))
    requires c in states[i].claims && states[i].claims[c].status == Confirmed
    ensures var paid, draft := states[i].claims[c].actualCollateral, plans(c).draft;
            && paid.Some? && paid.value <= draft.expectedPayout
            && (paid.value == draft.expectedPayout <==>
                forall b: nat :: b < |draft.batches| ==> BatchRecorded(states[i].transactions, c, b))
  {
    ConfirmedClaimPays(states, steps, plans, marketKey, i, c);
    RunInv(states, steps, i);
    PlannedIsSound(plans(c));
    WholeWhenAllRecorded(states[i].transactions, c, plans(c).draft);
  }

  lemma WholeWhenAllRecorded(rows: seq<Transaction>, c: string, draft: P.Draft)
    requires DistinctRows(rows) && Sound(draft)
    ensures var paid := RecordedPayout(rows, c, Payouts(draft.batches));
            && paid <= draft.expectedPayout
            && (paid == draft.expectedPayout <==> forall b: nat :: b < |draft.batches| ==> BatchRecorded(rows, c, b))
  {
    assert forall b :: 0 <= b < |draft.batches| ==> SoundBatch(draft.batches[b], b);
    RecordedAgainstTotal(rows, c, Payouts(draft.batches));
  }

  // ---- what a row has of the chain and of its plan ----

  /** The row says what this answer of the chain says: its status, and of a mined receipt block and gas. */
  ghost predicate SaysChain(t: Transaction, plan: F.Plan, gateway: R.Gateway, marketKey: nat -> nat) {
    && t.batchIndex < |plan.draft.batches|
    && (t.status == TxSuperseded <==> gateway.receipt.None?)
    && (t.status == TxSuperseded ==> gateway.nonceReplaced && t.blockNumber.None? && t.gasUsed.None?)
    && (t.status == TxConfirmed <==> R.Verified(plan.draft, t.batchIndex, gateway, marketKey))
    && (t.status == TxFailed || t.status == TxConfirmed ==>
          && gateway.receipt.Some? && t.blockNumber == Some(gateway.receipt.value.blockNumber)
          && t.gasUsed == Some(gateway.receipt.value.gasUsed))
    && (t.status != TxConfirmed ==> t.actualCollateral.None?)
  }

  lemma JustifiedSays(t: Transaction, done: Completion, plan: F.Plan, marketKey: nat -> nat, u: Transaction)
    requires Sound(plan.draft) && t.batchIndex < |plan.draft.batches| && Justified(t, done, plan, marketKey)
    requires u.batchIndex == t.batchIndex && H.Carries(u, done)
    ensures exists gateway :: SaysChain(u, plan, gateway, marketKey)
  {
    var gateway: R.Gateway, outcome: R.Outcome :|
      && R.Reconciles(plan, t.batchIndex, Some(t.nonce), gateway, marketKey, outcome)
      && !outcome.Pending? && done == CompletionOf(outcome, done.now);
    assert SoundBatch(plan.draft.batches[t.batchIndex], t.batchIndex);
    FindsOwnIndex(plan.draft.batches, t.batchIndex, 0);
    assert SaysChain(u, plan, gateway, marketKey);
  }

  /**
   * Every closed row says what the chain said: confirmed exactly for a verified receipt, superseded exactly without one
   * and with another transaction on the nonce, and block and gas of the receipt otherwise.
   */
  lemma ClosedRowSaysChain(
    states: seq<Store>, steps: seq<Step>, plans: string -> F.Plan, marketKey: nat -> nat, i: nat, k: nat)
    requires HonestRun(states, steps, plans, marketKey) && i < |states| && forall c :: Planned(plans(c))
    requires k < |states[i].transactions| && states[i].transactions[k].status != TxPending
    ensures exists gateway ::
              SaysChain(states[i].transactions[k], plans(states[i].transactions[k].claimId), gateway, marketKey)
  {
    forall d ensures Sound(plans(d).draft) {
      PlannedIsSound(plans(d));
    }
    var j := H.ClosedBy(states, steps, i, k);
    HonestAt(states, steps, plans, marketKey, j);
    var t, u := states[j].transactions[k], states[i].transactions[k];
    assert Holds(states[j], k, steps[j].worker);
    RowIdentity(states, steps, j, i, k);
    RunPaid(states, steps, plans, marketKey, j);
    assert RowOk(states[j], t);
    JustifiedSays(t, steps[j].done, plans(t.claimId), marketKey, u);
  }

  /** The tokens of the batch's entries, each once, and what the chain owes the wallet in them. */
  ghost predicate OwedBy(done: Completion, plan: F.Plan, b: nat, gateway: R.Gateway, tokens: seq<string>)
    requires b < |plan.draft.batches|
  {
    RF.EachTokenOnce(tokens, plan.draft.batches[b].entries) && done.fallbackOwed == Ordering.Sum(tokens, gateway.owed)
  }

  /** A justified confirmation reports what the chain owes over the batch's collateral tokens, each counted once. */
  lemma ConfirmationOwes(t: Transaction, done: Completion, plan: F.Plan, marketKey: nat -> nat)
    requires Sound(plan.draft) && t.batchIndex < |plan.draft.batches| && Justified(t, done, plan, marketKey)
    ensures done.status == TxConfirmed ==>
              exists gateway, tokens ::
                R.Verified(plan.draft, t.batchIndex, gateway, marketKey)
                && OwedBy(done, plan, t.batchIndex, gateway, tokens)
    ensures done.status != TxConfirmed ==> done.fallbackOwed == 0
  {
    var gateway: R.Gateway, outcome: R.Outcome :|
      && R.Reconciles(plan, t.batchIndex, Some(t.nonce), gateway, marketKey, outcome)
      && !outcome.Pending? && done == CompletionOf(outcome, done.now);
    if outcome.Confirmed? {
      assert forall k :: 0 <= k < |plan.draft.batches| ==> SoundBatch(plan.draft.batches[k], k);
      RF.ConfirmedFigures(plan, t.batchIndex, t.batchIndex, Some(t.nonce), gateway, marketKey, outcome);
      FindsOwnIndex(plan.draft.batches, t.batchIndex, 0);
      var tokens :| RF.EachTokenOnce(tokens, plan.draft.batches[t.batchIndex].entries)
                    && outcome.fallbackOwed == Ordering.Sum(tokens, gateway.owed);
      assert OwedBy(done, plan, t.batchIndex, gateway, tokens);
    }
  }

  lemma {:induction false} RowIdentity(states: seq<Store>, steps: seq<Step>, j: nat, i: nat, k: nat)
    requires Run(states, steps) && j <= i < |states| && k < |states[j].transactions|
    ensures k < |states[i].transactions|
    ensures var t, u := states[j].transactions[k], states[i].transactions[k];
            u.claimId == t.claimId && u.batchIndex == t.batchIndex && u.nonce == t.nonce && u.hash == t.hash
    decreases i
  {
    if j < i {
      RowIdentity(states, steps, j, i - 1, k);
      RunStep(states, steps, i - 1);
      H.RowStep(states[i - 1], steps[i - 1], k);
      H.RowKeepsOrigin(states[i - 1], steps[i - 1], k);
    }
  }

  /** Every recorded transaction was submitted by its plan's owner, on its chain, in time and for one of its batches. */
  lemma RecordedForPlan(
    states: seq<Store>, steps: seq<Step>, plans: string -> F.Plan, marketKey: nat -> nat, i: nat, k: nat)
    returns (j: nat)
    requires HonestRun(states, steps, plans, marketKey) && i < |states| && forall c :: Planned(plans(c))
    requires k < |states[i].transactions|
    ensures j < i && steps[j].SubmitStep? && H.SameIdentityAs(states[i].transactions[k], steps[j].sub)
    ensures var sub, draft := steps[j].sub, plans(states[i].transactions[k].claimId).draft;
            && sub.owner == draft.owner && sub.chainId == draft.chainId && sub.submittedAt < draft.expiresAt
            && 0 <= sub.batchIndex < |draft.batches|
  {
    forall d ensures Sound(plans(d).draft) {
      PlannedIsSound(plans(d));
    }
    j := H.RecordedLegitimately(states, steps, i, k);
    RunPaid(states, steps, plans, marketKey, j);
  }
}
