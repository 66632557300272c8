/**
 * Runs of the claim repository: any number of clients submitting and workers leasing, deferring and completing.
 * Each method is one atomic step, as its database transaction is.
 */
module ClaimRuns {
  import opened Wrappers
  import opened Claims

  datatype Step =
    | PersistStep(claimId: string, deploymentKey: string, plan: StoredPlan)
    | SubmitStep(sub: Submission)
    | LeaseStep(i: nat, worker: string, leaseMs: nat, now: int)
    | DeferStep(i: nat, worker: string, delayMs: nat, now: int)
    | CompleteStep(i: nat, worker: string, done: Completion)

  predicate Enabled(s: Store, step: Step) {
    match step
    case LeaseStep(i, _, _, now) => Leasable(s, i, now)
    case _ => true
  }

  function Next(s: Store, step: Step): Store
    requires Enabled(s, step)
  {
    match step
    case PersistStep(claimId, deploymentKey, plan) => Persist(s, claimId, deploymentKey, plan)
    case SubmitStep(sub) => Submit(s, sub)
    case LeaseStep(i, worker, leaseMs, now) => LeaseTx(s, i, worker, leaseMs, now)
    case DeferStep(i, worker, delayMs, now) => Defer(s, i, worker, delayMs, now)
    case CompleteStep(i, worker, done) => Complete(s, i, worker, done)
  }

  predicate Initial(s: Store) {
    s == Store(map[], [], {})
  }

  /** Step i leads from state i to state i + 1. */
  predicate StepAt(states: seq<Store>, steps: seq<Step>, i: nat)
    requires i < |steps| < |states|
  {
    Enabled(states[i], steps[i]) && states[i + 1] == Next(states[i], steps[i])
  }

  predicate Run(states: seq<Store>, steps: seq<Step>) {
    |states| == |steps| + 1 && Initial(states[0]) && forall i :: 0 <= i < |steps| ==> StepAt(states, steps, i)
  }

  lemma RunStep(states: seq<Store>, steps: seq<Step>, i: nat)
    requires Run(states, steps) && i < |steps|
    ensures Enabled(states[i], steps[i]) && states[i + 1] == Next(states[i], steps[i])
  {
    assert StepAt(states, steps, i);
  }

  // ---- how the aggregates move ----

  function One(b: bool): nat { if b then 1 else 0 }

  lemma {:induction false} UpdateCount(
    rows: seq<Transaction>, i: nat, x: Transaction, claimId: string, status: TxStatus)
    requires i < |rows|
    ensures Count(rows[i := x], claimId, status)
            == Count(rows, claimId, status) - One(rows[i].claimId == claimId && rows[i].status == status)
               + One(x.claimId == claimId && x.status == status)
  {
    var n := |rows| - 1;
    if i < n {
      assert rows[i := x][..n] == rows[..n][i := x];
      UpdateCount(rows[..n], i, x, claimId, status);
    } else {
      assert rows[i := x][..n] == rows[..n];
    }
  }

  lemma {:induction false} CountZero(rows: seq<Transaction>, claimId: string, status: TxStatus)
    ensures Count(rows, claimId, status) == 0 <==>
            forall i :: 0 <= i < |rows| ==> !(rows[i].claimId == claimId && rows[i].status == status)
  {
    if rows != [] {
      var n := |rows| - 1;
      CountZero(rows[..n], claimId, status);
      assert forall i :: 0 <= i < n ==> rows[..n][i] == rows[i];
    }
  }

  predicate SameMoney(a: Transaction, b: Transaction) {
    a.claimId == b.claimId && a.actualCollateral == b.actualCollateral && a.gasUsed == b.gasUsed
  }

  lemma {:induction false} UpdateSums(rows: seq<Transaction>, i: nat, x: Transaction, claimId: string)
    requires i < |rows| && rows[i].claimId == x.claimId
    requires x.claimId == claimId ==> SameMoney(rows[i], x)
    ensures Collateral(rows[i := x], claimId) == Collateral(rows, claimId)
    ensures Gas(rows[i := x], claimId) == Gas(rows, claimId)
  {
    var n := |rows| - 1;
    if i < n {
      assert rows[i := x][..n] == rows[..n][i := x];
      UpdateSums(rows[..n], i, x, claimId);
    } else {
      assert rows[i := x][..n] == rows[..n];
    }
  }

  lemma AppendRow(rows: seq<Transaction>, x: Transaction, claimId: string, status: TxStatus)
    ensures Count(rows + [x], claimId, status)
            == Count(rows, claimId, status) + One(x.claimId == claimId && x.status == status)
    ensures x.claimId != claimId ==> Collateral(rows + [x], claimId) == Collateral(rows, claimId)
    ensures x.claimId != claimId ==> Gas(rows + [x], claimId) == Gas(rows, claimId)
  {
    assert (rows + [x])[..|rows|] == rows;
  }

  // ---- the invariant ----

  predicate Recorded(rows: seq<Transaction>, claimId: string) {
    exists i :: 0 <= i < |rows| && rows[i].claimId == claimId
  }

  /** The claim's status and totals against its rows. */
  predicate ClaimOk(s: Store, c: string)
    requires c in s.claims
  {
    var claim, rows := s.claims[c], s.transactions;
    if !Recorded(rows, c) then claim.status == Ready
    else
      && (claim.status == Verdict(rows, c) || (claim.status == Submitted && Count(rows, c, TxPending) > 0))
      && (claim.status == Confirmed ==>
            claim.actualCollateral == Some(Collateral(rows, c)) && claim.gasUsed == Some(Gas(rows, c)))
  }

  predicate RowOk(s: Store, t: Transaction) {
    && t.claimId in s.claims && s.claims[t.claimId].deploymentKey == t.deploymentKey
    && t.batchIndex < |s.claims[t.claimId].plan.batchPayouts|
    && (t.leaseOwner.Some? <==> t.leaseExpiresAt.Some?)
    && (t.leaseOwner.Some? ==> t.status == TxPending)
    && ClaimSubmitted(t.hash) in s.published
    && (t.status != TxPending ==> Outcome(t.hash, t.status) in s.published)
  }

  predicate SameBatch(a: Transaction, b: Transaction) {
    a.claimId == b.claimId && a.batchIndex == b.batchIndex
  }

  ghost predicate DistinctRows(rows: seq<Transaction>) {
    forall i, j | 0 <= i < |rows| && 0 <= j < |rows|
      :: SameBatch(rows[i], rows[j]) || rows[i].hash == rows[j].hash ==> i == j
  }

  predicate HasHash(rows: seq<Transaction>, h: string) {
    exists i :: 0 <= i < |rows| && rows[i].hash == h
  }

  predicate HasOutcome(rows: seq<Transaction>, h: string, st: TxStatus) {
    exists i :: 0 <= i < |rows| && rows[i].hash == h && rows[i].status == st
  }

  /** Only transactions put events about themselves in the outbox. */
  ghost predicate EventsOk(s: Store) {
    && (forall h :: ClaimSubmitted(h) in s.published ==> HasHash(s.transactions, h))
    && (forall h, st :: Outcome(h, st) in s.published ==> st != TxPending && HasOutcome(s.transactions, h, st))
  }

  ghost predicate ClaimsOk(s: Store) {
    forall c :: c in s.claims ==> ClaimOk(s, c)
  }

  ghost predicate RowsOk(s: Store) {
    (forall i :: 0 <= i < |s.transactions| ==> RowOk(s, s.transactions[i])) && DistinctRows(s.transactions)
  }

  ghost predicate Inv(s: Store) {
    ClaimsOk(s) && RowsOk(s) && EventsOk(s)
  }

  // ---- preservation ----

  /** A row may be rewritten in place without changing its claim, batch or hash. */
  predicate SameIdentity(a: Transaction, b: Transaction) {
    SameBatch(a, b) && a.hash == b.hash && a.deploymentKey == b.deploymentKey
  }

  /** A change of lease fields only: status and money stay too. */
  predicate OnlyLease(a: Transaction, b: Transaction) {
    && SameIdentity(a, b) && SameMoney(a, b) && a.status == b.status
    && (b.leaseOwner.Some? <==> b.leaseExpiresAt.Some?) && (b.leaseOwner.Some? ==> b.status == TxPending)
  }

  lemma SameRecorded(rows: seq<Transaction>, i: nat, x: Transaction, c: string)
    requires i < |rows| && rows[i].claimId == x.claimId
    ensures Recorded(rows[i := x], c) <==> Recorded(rows, c)
  {
    assert forall k :: 0 <= k < |rows| ==> rows[i := x][k].claimId == rows[k].claimId;
  }

  /** A rewritten row does not move the verdict of a claim that does not see the difference. */
  lemma SameVerdict(rows: seq<Transaction>, i: nat, x: Transaction, c: string)
    requires i < |rows| && SameIdentity(rows[i], x)
    requires c == x.claimId ==> rows[i].status == x.status && SameMoney(rows[i], x)
    ensures Verdict(rows[i := x], c) == Verdict(rows, c)
    ensures Count(rows[i := x], c, TxPending) == Count(rows, c, TxPending)
    ensures Collateral(rows[i := x], c) == Collateral(rows, c) && Gas(rows[i := x], c) == Gas(rows, c)
    ensures Recorded(rows[i := x], c) <==> Recorded(rows, c)
  {
    UpdateCount(rows, i, x, c, TxPending);
    UpdateCount(rows, i, x, c, TxFailed);
    UpdateCount(rows, i, x, c, TxSuperseded);
    UpdateSums(rows, i, x, c);
    SameRecorded(rows, i, x, c);
  }

  lemma RewriteKeepsRows(s: Store, u: Store, i: nat, x: Transaction)
    requires RowsOk(s) && i < |s.transactions| && SameIdentity(s.transactions[i], x)
    requires u.transactions == s.transactions[i := x] && s.published <= u.published && u.claims.Keys == s.claims.Keys
    requires forall c :: c in s.claims ==>
                           u.claims[c].deploymentKey == s.claims[c].deploymentKey
                             && u.claims[c].plan == s.claims[c].plan
    requires RowOk(u, x)
    ensures RowsOk(u)
  {
    forall k | 0 <= k < |u.transactions| ensures RowOk(u, u.transactions[k]) {
      assert RowOk(s, s.transactions[k]);
    }
    assert forall k :: 0 <= k < |u.transactions| ==>
                         SameIdentity(s.transactions[k], u.transactions[k]);
  }

  lemma LeaseKeepsInv(s: Store, i: nat, x: Transaction)
    requires Inv(s) && i < |s.transactions| && OnlyLease(s.transactions[i], x)
    ensures Inv(s.(transactions := s.transactions[i := x]))
  {
    var u := s.(transactions := s.transactions[i := x]);
    forall c | c in u.claims ensures ClaimOk(u, c) {
      assert ClaimOk(s, c);
      SameVerdict(s.transactions, i, x, c);
    }
    assert RowOk(s, s.transactions[i]);
    RewriteKeepsRows(s, u, i, x);
    LeaseKeepsEvents(s, i, x);
  }

  lemma LeaseKeepsEvents(s: Store, i: nat, x: Transaction)
    requires EventsOk(s) && i < |s.transactions| && OnlyLease(s.transactions[i], x)
    ensures EventsOk(s.(transactions := s.transactions[i := x]))
  {
    var rows := s.transactions[i := x];
    assert forall k :: 0 <= k < |rows| ==>
           rows[k].hash == s.transactions[k].hash && rows[k].status == s.transactions[k].status;
  }

  lemma SubmitKeepsClaim(s: Store, sub: Submission, c: string)
    requires SubmitResult(s, sub) == Ok(false) && c in s.claims && ClaimOk(s, c)
    ensures ClaimOk(Submit(s, sub), c)
  {
    var u, x := Submit(s, sub), NewTransaction(sub);
    AppendRow(s.transactions, x, c, TxPending);
    AppendRow(s.transactions, x, c, TxFailed);
    AppendRow(s.transactions, x, c, TxSuperseded);
    assert u.transactions[|s.transactions|] == x;
    assert forall k :: 0 <= k < |s.transactions| ==> u.transactions[k] == s.transactions[k];
    assert c != sub.claimId ==> (Recorded(u.transactions, c) <==> Recorded(s.transactions, c));
  }

  /** An accepted submission records a batch and a hash that no row has. */
  lemma SubmitIsNew(s: Store, sub: Submission, k: nat)
    requires RowsOk(s) && SubmitResult(s, sub) == Ok(false) && k < |s.transactions|
    ensures s.transactions[k].hash != sub.hash && !SameBatch(s.transactions[k], NewTransaction(sub))
  {
    assert RowOk(s, s.transactions[k]);
  }

  lemma SubmitKeepsRow(s: Store, sub: Submission, k: nat)
    requires RowsOk(s) && SubmitResult(s, sub) == Ok(false) && k <= |s.transactions|
    ensures RowOk(Submit(s, sub), Submit(s, sub).transactions[k])
  {
    if k < |s.transactions| {
      assert RowOk(s, s.transactions[k]);
    }
  }

  lemma SubmitKeepsRows(s: Store, sub: Submission)
    requires RowsOk(s) && EventsOk(s) && SubmitResult(s, sub) == Ok(false)
    ensures RowsOk(Submit(s, sub)) && EventsOk(Submit(s, sub))
  {
    var u, n := Submit(s, sub), |s.transactions|;
    assert u.transactions[n] == NewTransaction(sub) && u.transactions[..n] == s.transactions;
    forall k | 0 <= k <= n ensures RowOk(u, u.transactions[k]) {
      SubmitKeepsRow(s, sub, k);
    }
    forall k | 0 <= k < n
      ensures u.transactions[k].hash != sub.hash && !SameBatch(u.transactions[k], u.transactions[n])
    {
      assert u.transactions[k] == s.transactions[k];
      SubmitIsNew(s, sub, k);
    }
    DistinctAppend(s.transactions, u.transactions);
    AppendKeepsEvents(s, u);
  }

  lemma DistinctAppend(rows: seq<Transaction>, longer: seq<Transaction>)
    requires DistinctRows(rows) && |longer| == |rows| + 1 && longer[..|rows|] == rows
    requires forall k :: 0 <= k < |rows| ==>
             longer[k].hash != longer[|rows|].hash && !SameBatch(longer[k], longer[|rows|])
    ensures DistinctRows(longer)
  {
    assert forall k :: 0 <= k < |rows| ==> longer[k] == rows[k];
  }

  lemma AppendKeepsEvents(s: Store, u: Store)
    requires EventsOk(s) && |u.transactions| > 0 && u.transactions[..|u.transactions| - 1] == s.transactions
    requires u.published == s.published + {ClaimSubmitted(u.transactions[|u.transactions| - 1].hash)}
    ensures EventsOk(u)
  {
    assert forall k :: 0 <= k < |s.transactions| ==> u.transactions[k] == s.transactions[k];
    forall h | ClaimSubmitted(h) in u.published ensures HasHash(u.transactions, h) {
      if ClaimSubmitted(h) in s.published {
        assert HasHash(s.transactions, h);
      }
    }
    forall h, st | Outcome(h, st) in u.published ensures st != TxPending && HasOutcome(u.transactions, h, st) {
      assert HasOutcome(s.transactions, h, st);
    }
  }

  lemma SubmitKeepsInv(s: Store, sub: Submission)
    requires Inv(s)
    ensures Inv(Submit(s, sub))
  {
    if SubmitResult(s, sub) == Ok(false) {
      forall c | c in Submit(s, sub).claims ensures ClaimOk(Submit(s, sub), c) {
        assert ClaimOk(s, c);
        SubmitKeepsClaim(s, sub, c);
      }
      SubmitKeepsRows(s, sub);
    }
  }

  lemma CompleteKeepsClaim(s: Store, i: nat, worker: string, done: Completion, c: string)
    requires Holds(s, i, worker) && c in s.claims && ClaimOk(s, c)
    ensures ClaimOk(Complete(s, i, worker, done), c)
  {
    var rows := s.transactions;
    var x := ClosedTx(rows[i], done);
    if c == x.claimId {
      assert rows[i := x][i].claimId == c;
    } else {
      SameVerdict(rows, i, x, c);
    }
  }

  lemma CompleteKeepsEvents(s: Store, u: Store, i: nat, x: Transaction, owed: set<EventKey>)
    requires EventsOk(s) && i < |s.transactions| && u.transactions == s.transactions[i := x]
    requires s.transactions[i].status == TxPending && x.status != TxPending && x.hash == s.transactions[i].hash
    requires u.published == s.published + {Outcome(x.hash, x.status)} + owed && forall e :: e in owed ==> e.PayoutOwed?
    ensures EventsOk(u)
  {
    assert u.transactions[i] == x;
    forall h | ClaimSubmitted(h) in u.published ensures HasHash(u.transactions, h) {
      assert HasHash(s.transactions, h);
      var k :| 0 <= k < |s.transactions| && s.transactions[k].hash == h;
      assert u.transactions[k].hash == h;
    }
    forall h, st | Outcome(h, st) in u.published ensures st != TxPending && HasOutcome(u.transactions, h, st) {
      if Outcome(h, st) in s.published {
        assert HasOutcome(s.transactions, h, st);
        var k :| 0 <= k < |s.transactions| && s.transactions[k].hash == h && s.transactions[k].status == st;
        assert u.transactions[k] == s.transactions[k];
      }
    }
  }

  lemma CompleteKeepsInv(s: Store, i: nat, worker: string, done: Completion)
    requires Inv(s)
    ensures Inv(Complete(s, i, worker, done))
  {
    if Holds(s, i, worker) {
      var u, x := Complete(s, i, worker, done), ClosedTx(s.transactions[i], done);
      assert RowOk(s, s.transactions[i]);
      forall c | c in u.claims ensures ClaimOk(u, c) {
        assert ClaimOk(s, c);
        CompleteKeepsClaim(s, i, worker, done, c);
      }
      CompleteKeepsEvents(s, u, i, x, if done.fallbackOwed > 0 then {PayoutOwed(x.hash)} else {});
      RewriteKeepsRows(s, u, i, x);
    }
  }

  lemma PersistKeepsRows(s: Store, u: Store)
    requires RowsOk(s) && EventsOk(s) && u.transactions == s.transactions
    requires exists c :: u.published == s.published + {PlanCreated(c)}
    requires s.claims.Keys <= u.claims.Keys && forall c :: c in s.claims ==> u.claims[c] == s.claims[c]
    ensures RowsOk(u) && EventsOk(u)
  {
    forall k | 0 <= k < |u.transactions| ensures RowOk(u, u.transactions[k]) {
      assert RowOk(s, s.transactions[k]);
    }
  }

  lemma PersistKeepsInv(s: Store, claimId: string, deploymentKey: string, plan: StoredPlan)
    requires Inv(s)
    ensures Inv(Persist(s, claimId, deploymentKey, plan))
  {
    var u := Persist(s, claimId, deploymentKey, plan);
    PersistKeepsRows(s, u);
    forall c | c in u.claims ensures ClaimOk(u, c) {
      if c in s.claims {
        assert ClaimOk(s, c);
      } else {
        assert forall k :: 0 <= k < |s.transactions| ==> RowOk(s, s.transactions[k]);
      }
    }
  }

  lemma StepKeepsInv(s: Store, step: Step)
    requires Inv(s) && Enabled(s, step)
    ensures Inv(Next(s, step))
  {
    match step
    case PersistStep(claimId, deploymentKey, plan) => PersistKeepsInv(s, claimId, deploymentKey, plan);
    case SubmitStep(sub) => SubmitKeepsInv(s, sub);
    case LeaseStep(i, worker, leaseMs, now) =>
      LeaseKeepsInv(s, i, LeaseTx(s, i, worker, leaseMs, now).transactions[i]);
    case DeferStep(i, worker, delayMs, now) =>
      if Holds(s, i, worker) {
        LeaseKeepsInv(s, i, Defer(s, i, worker, delayMs, now).transactions[i]);
      }
    case CompleteStep(i, worker, done) => CompleteKeepsInv(s, i, worker, done);
  }

  lemma {:induction false} RunInv(states: seq<Store>, steps: seq<Step>, i: nat)
    requires Run(states, steps) && i < |states|
    ensures Inv(states[i])
  {
    if i > 0 {
      RunInv(states, steps, i - 1);
      RunStep(states, steps, i - 1);
      StepKeepsInv(states[i - 1], steps[i - 1]);
    }
  }

  // ---- what holds of every run ----

  predicate Has(rows: seq<Transaction>, c: string, status: TxStatus) {
    exists i :: 0 <= i < |rows| && rows[i].claimId == c && rows[i].status == status
  }

  /**
   * The claim status in every reachable state. `ready` means nothing was recorded. `submitted` means some
   * recorded transaction is still pending. Once none is, the status is failed over superseded over confirmed;
   * and `confirmed` means every recorded transaction is, with the collateral and gas being their sums.
   */
  lemma ClaimStatusIsVerdict(states: seq<Store>, steps: seq<Step>, i: nat, c: string)
    requires Run(states, steps) && i < |states| && c in states[i].claims
    ensures var claim, rows := states[i].claims[c], states[i].transactions;
            && (claim.status == Ready <==> !Recorded(rows, c)) && claim.status != Draft
            && (claim.status == Submitted ==> Has(rows, c, TxPending))
            && (claim.status == Failed ==> Has(rows, c, TxFailed))
            && (claim.status == Superseded ==> Has(rows, c, TxSuperseded) && !Has(rows, c, TxFailed))
            && (Recorded(rows, c) && !Has(rows, c, TxPending) ==>
                  claim.status == if Has(rows, c, TxFailed) then Failed
                                  else if Has(rows, c, TxSuperseded) then Superseded else Confirmed)
            && (claim.status == Confirmed ==>
                  && (forall k :: 0 <= k < |rows| && rows[k].claimId == c ==> rows[k].status == TxConfirmed)
                  && claim.actualCollateral == Some(Collateral(rows, c)) && claim.gasUsed == Some(Gas(rows, c)))
  {
    RunInv(states, steps, i);
    assert ClaimOk(states[i], c);
    VerdictSeen(states[i].transactions, c);
  }

  predicate AllConfirmed(rows: seq<Transaction>, c: string) {
    forall k :: 0 <= k < |rows| && rows[k].claimId == c ==> rows[k].status == TxConfirmed
  }

  /** The counts behind the verdict, in terms of the rows. */
  lemma VerdictSeen(rows: seq<Transaction>, c: string)
    ensures Count(rows, c, TxPending) > 0 <==> Has(rows, c, TxPending)
    ensures Count(rows, c, TxFailed) > 0 <==> Has(rows, c, TxFailed)
    ensures Count(rows, c, TxSuperseded) > 0 <==> Has(rows, c, TxSuperseded)
    ensures Verdict(rows, c) == Confirmed ==> AllConfirmed(rows, c)
  {
    CountZero(rows, c, TxPending);
    CountZero(rows, c, TxFailed);
    CountZero(rows, c, TxSuperseded);
  }

  /** A transaction that reached a terminal status is never written again. */
  lemma {:induction false} TerminalIsFinal(states: seq<Store>, steps: seq<Step>, i: nat, j: nat, k: nat)
    requires Run(states, steps) && i <= j < |states|
    requires k < |states[i].transactions| && states[i].transactions[k].status != TxPending
    ensures k < |states[j].transactions| && states[j].transactions[k] == states[i].transactions[k]
    decreases j
  {
    if i < j {
      TerminalIsFinal(states, steps, i, j - 1, k);
      RunStep(states, steps, j - 1);
    }
  }

  /**
   * The transactional outbox: in every reachable state a transaction's outcome event is published exactly when
   * the transaction has that terminal status, and its submission event exactly when it is recorded.
   */
  lemma OutcomePublished(states: seq<Store>, steps: seq<Step>, i: nat, k: nat, st: TxStatus)
    requires Run(states, steps) && i < |states| && k < |states[i].transactions|
    ensures var t := states[i].transactions[k];
            && ClaimSubmitted(t.hash) in states[i].published
            && (Outcome(t.hash, st) in states[i].published <==> t.status == st && st != TxPending)
  {
    RunInv(states, steps, i);
    assert RowOk(states[i], states[i].transactions[k]);
  }

  /** Recording is idempotent: right after any accepted submission the same one is a duplicate that changes nothing. */
  lemma SubmissionIsIdempotent(s: Store, sub: Submission)
    requires Inv(s) && SubmitResult(s, sub).Ok?
    ensures SubmitResult(Submit(s, sub), sub) == Ok(true)
    ensures Submit(Submit(s, sub), sub) == Submit(s, sub)
  {
    if SubmitResult(s, sub) == Ok(false) {
      var u := Submit(s, sub);
      var n := |s.transactions|;
      assert u.transactions[n] == NewTransaction(sub) && u.transactions[..n] == s.transactions;
      assert FindBatch(u.transactions, sub.claimId, sub.batchIndex).Some?;
    }
  }

  /** Two transactions never record the same batch of a claim, nor the same chain transaction. */
  lemma BatchesRecordedOnce(states: seq<Store>, steps: seq<Step>, i: nat, a: nat, b: nat)
    requires Run(states, steps) && i < |states| && a < |states[i].transactions| && b < |states[i].transactions|
    requires var rows := states[i].transactions; SameBatch(rows[a], rows[b]) || rows[a].hash == rows[b].hash
    ensures a == b
  {
    RunInv(states, steps, i);
  }
}
