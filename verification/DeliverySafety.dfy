/** What holds of every run of the delivery protocol, whatever the environment does. */
module DeliverySafety {
  import opened Wrappers
  import opened Backoff
  import opened Deliveries
  import opened DeliveryRuns

  lemma {:induction false} RunInv(states: seq<System>, steps: seq<Step>, i: nat)
    requires Run(states, steps) && i < |states|
    ensures Inv(states[i])
  {
    if i > 0 {
      RunInv(states, steps, i - 1);
      RunStep(states, steps, i - 1);
      StepKeepsInv(states[i - 1], steps[i - 1]);
    }
  }

  // ---- the ledger ----

  /** A `fail` call names no attempt beyond the one that its select finds. */
  predicate Prudent(s: System, step: Step) {
    step.StartFail? ==>
      match FailRead(s.tables, step.call.id, step.call.worker)
      case None => true
      case Some(snapshot) => step.call.attempt <= snapshot.attemptCount
  }

  ghost predicate PrudentOpens(s: System) {
    forall token :: token in s.failing ==> s.failing[token].call.attempt <= s.failing[token].snapshot.attemptCount
  }

  predicate CanRetry(d: Delivery) {
    d.status == Failed ==> d.attemptCount < d.maxAttempts
  }

  lemma StepKeepsCanRetry(s: System, step: Step, id: string)
    requires Enabled(s, step) && PrudentOpens(s) && id in Next(s, step).tables.deliveries
    requires id in s.tables.deliveries ==> CanRetry(s.tables.deliveries[id])
    requires step.FinishFail? ==> OpenFailOk(s, s.failing[step.token])
    ensures CanRetry(Next(s, step).tables.deliveries[id])
  {
    if id in s.tables.deliveries {
      RowChanges(s, step, id);
    }
  }

  lemma StepKeepsPrudent(s: System, step: Step)
    requires Enabled(s, step) && PrudentOpens(s) && Prudent(s, step)
    ensures PrudentOpens(Next(s, step))
  {}

  ghost predicate AllCanRetry(s: System) {
    forall id :: id in s.tables.deliveries ==> CanRetry(s.tables.deliveries[id])
  }

  lemma StepKeepsAllCanRetry(s: System, step: Step)
    requires Inv(s) && Enabled(s, step) && PrudentOpens(s) && AllCanRetry(s)
    ensures AllCanRetry(Next(s, step))
  {
    forall id | id in Next(s, step).tables.deliveries ensures CanRetry(Next(s, step).tables.deliveries[id]) {
      StepKeepsCanRetry(s, step, id);
    }
  }

  /** The calls of the first i steps are prudent. */
  ghost predicate PrudentUpTo(states: seq<System>, steps: seq<Step>, i: nat) {
    && i <= |steps| < |states|
    && forall m {:trigger Prudent(states[m], steps[m])} :: 0 <= m < i ==> Prudent(states[m], steps[m])
  }

  lemma {:induction false} RunPrudent(states: seq<System>, steps: seq<Step>, i: nat)
    requires Run(states, steps) && PrudentUpTo(states, steps, i)
    ensures PrudentOpens(states[i]) && AllCanRetry(states[i])
  {
    if i > 0 {
      RunPrudent(states, steps, i - 1);
      RunInv(states, steps, i - 1);
      RunStep(states, steps, i - 1);
      assert Prudent(states[i - 1], steps[i - 1]);
      StepKeepsPrudent(states[i - 1], steps[i - 1]);
      StepKeepsAllCanRetry(states[i - 1], steps[i - 1]);
    }
  }

  /**
   * In every reachable state a delivery's attempt rows are numbered exactly 1..attemptCount within its
   * budget, it is leased exactly while delivering, it is delivered exactly when its last attempt row
   * succeeded, and no earlier attempt row ever did. As long as every `fail` names no attempt beyond the one its
   * select finds, a failed row also has an attempt left.
   */
  lemma Ledger(states: seq<System>, steps: seq<Step>, i: nat, id: string)
    requires Run(states, steps) && i < |states| && id in states[i].tables.deliveries
    ensures var t := states[i].tables;
            var d := t.deliveries[id];
            && (forall n: nat :: AttemptKey(id, n) in t.attempts <==> 1 <= n <= d.attemptCount)
            && d.attemptCount <= d.maxAttempts
            && (d.status == Delivering <==> d.leaseOwner.Some? && d.leaseExpiresAt.Some?)
            && (d.status == Delivered <==>
                  d.attemptCount > 0 && t.attempts[AttemptKey(id, d.attemptCount)].status == Succeeded)
            && (forall n: nat :: 1 <= n < d.attemptCount ==> t.attempts[AttemptKey(id, n)].status != Succeeded)
            && (PrudentUpTo(states, steps, i) ==> (d.status == Failed ==> d.attemptCount < d.maxAttempts))
  {
    RunInv(states, steps, i);
    LedgerRow(states[i].tables, id);
    if PrudentUpTo(states, steps, i) {
      RunPrudent(states, steps, i);
      assert CanRetry(states[i].tables.deliveries[id]);
    }
  }

  lemma LedgerRow(t: Tables, id: string)
    requires id in t.deliveries && RowOk(t, id)
    ensures var d := t.deliveries[id];
            && (forall n: nat :: AttemptKey(id, n) in t.attempts <==> 1 <= n <= d.attemptCount)
            && d.attemptCount <= d.maxAttempts
            && (d.status == Delivering <==> d.leaseOwner.Some? && d.leaseExpiresAt.Some?)
            && (d.status == Delivered <==>
                  d.attemptCount > 0 && t.attempts[AttemptKey(id, d.attemptCount)].status == Succeeded)
            && (forall n: nat :: 1 <= n < d.attemptCount ==> t.attempts[AttemptKey(id, n)].status != Succeeded)
  {
    var d := t.deliveries[id];
    if d.attemptCount > 0 {
      assert LastAttemptAgrees(d.status, t.attempts[AttemptKey(id, d.attemptCount)].status);
    }
  }

  // ---- fencing ----

  /** A delivered row is never written again. */
  lemma {:induction false} DeliveredIsFinal(states: seq<System>, steps: seq<Step>, i: nat, j: nat, id: string)
    requires Run(states, steps) && i <= j < |states|
    requires id in states[i].tables.deliveries && states[i].tables.deliveries[id].status == Delivered
    ensures id in states[j].tables.deliveries && states[j].tables.deliveries[id] == states[i].tables.deliveries[id]
    decreases j
  {
    if i < j {
      DeliveredIsFinal(states, steps, i, j - 1, id);
      RunStep(states, steps, j - 1);
      RowChanges(states[j - 1], steps[j - 1], id);
    }
  }

  /** The step is a `complete` call that returns true. */
  ghost predicate Completes(s: System, step: Step, id: string) {
    step.CompleteStep? && step.id == id && Holds(s.tables, id, step.worker, step.attempt)
  }

  /** At most one `complete` of a delivery ever succeeds. */
  lemma OneCompletion(states: seq<System>, steps: seq<Step>, i: nat, j: nat, id: string)
    requires Run(states, steps) && i < |steps| && j < |steps|
    requires Completes(states[i], steps[i], id) && Completes(states[j], steps[j], id)
    ensures i == j
  {
    var first, last := if i < j then i else j, if i < j then j else i;
    if first < last {
      RunStep(states, steps, first);
      DeliveredIsFinal(states, steps, first + 1, last, id);
    }
  }

  lemma {:induction false} AttemptsNeverDrop(states: seq<System>, steps: seq<Step>, i: nat, j: nat, id: string)
    requires Run(states, steps) && i <= j < |states| && id in states[i].tables.deliveries
    ensures id in states[j].tables.deliveries
    ensures states[i].tables.deliveries[id].attemptCount <= states[j].tables.deliveries[id].attemptCount
    decreases j
  {
    if i < j {
      AttemptsNeverDrop(states, steps, i, j - 1, id);
      RunStep(states, steps, j - 1);
      RowChanges(states[j - 1], steps[j - 1], id);
    }
  }

  /** The arguments under which the lease granted at step `i` can be completed or failed. */
  function AttemptGranted(s: System, step: Step): nat
    requires step.LeaseStep? && step.id in s.tables.deliveries
  {
    s.tables.deliveries[step.id].attemptCount + 1
  }

  /** The call that finishes at this step ends attempt `attempt` of `id` by `worker`, or tries to. */
  predicate EndsAttempt(s: System, step: Step, id: string, worker: string, attempt: nat) {
    match step
    case CompleteStep(i, w, a, _) => i == id && w == worker && a == attempt
    case FinishFail(token) =>
      token in s.failing && s.failing[token].call.id == id && s.failing[token].call.worker == worker
      && s.failing[token].call.attempt == attempt
    case _ => false
  }

  /**
   * Once a second lease of the row is granted, to anyone, even to the same worker id, the first holder can
   * neither complete nor fail it: the write finds no row and the tables stay as they are.
   */
  lemma RetakenHolderLoses(states: seq<System>, steps: seq<Step>, i: nat, j: nat, k: nat)
    requires Run(states, steps) && i < j < k < |steps|
    requires steps[i].LeaseStep? && steps[j].LeaseStep? && steps[i].id == steps[j].id
    requires Enabled(states[i], steps[i])
    requires EndsAttempt(states[k], steps[k], steps[i].id, steps[i].worker, AttemptGranted(states[i], steps[i]))
    ensures !Holds(states[k].tables, steps[i].id, steps[i].worker, AttemptGranted(states[i], steps[i]))
    ensures states[k + 1].tables == states[k].tables
  {
    var id := steps[i].id;
    RunStep(states, steps, i);
    RunStep(states, steps, j);
    RunStep(states, steps, k);
    AttemptsNeverDrop(states, steps, i + 1, j, id);
    AttemptsNeverDrop(states, steps, j + 1, k, id);
  }

  /** At this moment the guarded update does, and answers, what an indivisible `fail` would. */
  predicate ActsAtOnce(t: Tables, call: FailCall, snapshot: FailSnapshot) {
    FailAtOnce(t, call) == (FailWrite(t, call, snapshot), FailWriteOutcome(t, call, snapshot))
  }

  /** The update goes through, and the row's own counter would have decided differently than the select did. */
  predicate DecidesDifferently(t: Tables, call: FailCall, snapshot: FailSnapshot) {
    && Holds(t, call.id, call.worker, call.attempt) && !call.terminal
    && var d := t.deliveries[call.id];
       var current := FailSnapshot(d.attemptCount, d.maxAttempts, d.subscriptionId);
       || Kills(call, snapshot) != Kills(call, current)
       || (!Kills(call, current)
           && Delay(snapshot.attemptCount, call.base, call.cap) != Delay(current.attemptCount, call.base, call.cap))
  }

  /**
   * Splitting `fail` into a select and a later guarded update is harmless in every interleaving, for every call
   * whose attempt number is not above the counter at its select: the update leaves the tables and returns the outcome
   * that an indivisible `fail` would at that moment. A select that finds nothing is the indivisible `fail` that does
   * nothing.
   */
  lemma FailIsAtomic(states: seq<System>, steps: seq<Step>, i: nat)
    requires Run(states, steps) && i < |steps|
    ensures steps[i].FinishFail? ==>
              steps[i].token in states[i].failing
              && var open := states[i].failing[steps[i].token];
              && states[i + 1].tables == FailWrite(states[i].tables, open.call, open.snapshot)
              && (open.call.attempt <= open.snapshot.attemptCount ==>
                    ActsAtOnce(states[i].tables, open.call, open.snapshot))
    ensures steps[i].StartFail? && FailRead(states[i].tables, steps[i].call.id, steps[i].call.worker).None? ==>
              states[i + 1] == states[i]
              && FailAtOnce(states[i].tables, steps[i].call) == (states[i + 1].tables, NotOwned)
  {
    RunStep(states, steps, i);
    if steps[i].FinishFail? {
      RunInv(states, steps, i);
      CoveredActsAtOnce(states[i], states[i].failing[steps[i].token]);
    }
  }

  lemma CoveredActsAtOnce(s: System, open: OpenFail)
    requires OpenFailOk(s, open)
    ensures open.call.attempt <= open.snapshot.attemptCount ==> ActsAtOnce(s.tables, open.call, open.snapshot)
  {}

  /**
   * And exactly then, up to luck: the split acts as one step if and only if the number was not above the counter at
   * the select, or the update does not decide differently. It does once that attempt is leased to this worker, except
   * for a terminal failure, when select and row both kill, or when neither does and both delays are capped alike.
   */
  lemma FailIsAtomicExactly(states: seq<System>, steps: seq<Step>, i: nat)
    requires Run(states, steps) && i < |steps| && steps[i].FinishFail? && steps[i].token in states[i].failing
    ensures var open := states[i].failing[steps[i].token];
            ActsAtOnce(states[i].tables, open.call, open.snapshot) <==>
            open.call.attempt <= open.snapshot.attemptCount
            || !DecidesDifferently(states[i].tables, open.call, open.snapshot)
  {
    RunInv(states, steps, i);
    var open := states[i].failing[steps[i].token];
    if open.call.attempt <= open.snapshot.attemptCount {
      CoveredActsAtOnce(states[i], open);
    } else {
      OverstatedActs(states[i].tables, open.call, open.snapshot);
    }
  }

  lemma OverstatedActs(t: Tables, call: FailCall, snapshot: FailSnapshot)
    requires call.id in t.deliveries && snapshot.subscriptionId == t.deliveries[call.id].subscriptionId
    ensures ActsAtOnce(t, call, snapshot) <==> !DecidesDifferently(t, call, snapshot)
  {
    if Holds(t, call.id, call.worker, call.attempt) {
      var d := t.deliveries[call.id];
      var current := FailSnapshot(d.attemptCount, d.maxAttempts, d.subscriptionId);
      var p, q := FailWrite(t, call, snapshot), FailWrite(t, call, current);
      assert p.deliveries[call.id] == FailedRow(d, call, snapshot)
             && q.deliveries[call.id] == FailedRow(d, call, current);
      if FailedRow(d, call, snapshot) == FailedRow(d, call, current) {
        assert p == q;
      }
    }
  }

  /** A worker that names an attempt it was granted is covered. */
  lemma GrantedIsPrudent(states: seq<System>, steps: seq<Step>, i: nat)
    requires Run(states, steps) && i < |steps| && steps[i].StartFail?
    requires Grant(steps[i].call.id, steps[i].call.worker, steps[i].call.attempt) in states[i].granted
    ensures Prudent(states[i], steps[i])
  {
    RunInv(states, steps, i);
    assert GrantOk(states[i].tables, Grant(steps[i].call.id, steps[i].call.worker, steps[i].call.attempt));
  }

  // ---- a call that names the next attempt ----

  function ExampleCall(): FailCall { FailCall("d", "w", 2, false, 9, 1, 4) }

  const EXAMPLE_SUBSCRIPTIONS := map["s" := Subscription("o", Webhook, {"t"}, true, true, true)]
  const EXAMPLE_EVENTS := map["e" := Event("t", "a", 0)]

  function ExampleTables(deliveries: map<string, Delivery>, attempts: map<AttemptKey, Attempt>): Tables {
    Tables(deliveries, attempts, EXAMPLE_SUBSCRIPTIONS, EXAMPLE_EVENTS)
  }

  function ExampleRow(attempts: nat, expires: int): Delivery {
    Delivery("s", "e", Delivering, attempts, 8, Some("w"), Some(expires), Some(0), None, 0)
  }

  function ExampleStep(i: nat): Step
    requires i < 5
  {
    match i
    case 0 => MaterializeStep("e", "o", map["d" := "s"], 0)
    case 1 => LeaseStep("d", "w", {Webhook}, 5, 0)
    case 2 => StartFail("k", ExampleCall())
    case 3 => LeaseStep("d", "w", {Webhook}, 5, 9)
    case _ => FinishFail("k")
  }

  function ExampleState(i: nat): System
    requires i < 5
  {
    var one := map[AttemptKey("d", 1) := Attempt(InFlight, 0, None)];
    var two := one[AttemptKey("d", 2) := Attempt(InFlight, 9, None)];
    var granted := {Grant("d", "w", 1)};
    var failing := map["k" := OpenFail(ExampleCall(), FailSnapshot(1, 8, "s"))];
    match i
    case 0 => System(ExampleTables(map[], map[]), {}, map[])
    case 1 => System(ExampleTables(map["d" := NewDelivery("s", "e", 0)], map[]), {}, map[])
    case 2 => System(ExampleTables(map["d" := ExampleRow(1, 5)], one), granted, map[])
    case 3 => System(ExampleTables(map["d" := ExampleRow(1, 5)], one), granted, failing)
    case _ => System(ExampleTables(map["d" := ExampleRow(2, 14)], two), granted + {Grant("d", "w", 2)}, failing)
  }

  lemma ExampleRouted()
    ensures Enabled(ExampleState(0), ExampleStep(0)) && ExampleState(1) == Next(ExampleState(0), ExampleStep(0))
  {
    var t := ExampleState(0).tables;
    assert MatchingRoutes(t, "o", "t") == {"s"};
    assert Unrouted(t, {"s"}, "e") == {"s"};
    var keys := map["d" := "s"];
    assert "d" in keys;
    assert keys.Values == {"s"};
    assert InsertDeliveries(t, keys, "e", 0).deliveries == map["d" := NewDelivery("s", "e", 0)];
  }

  lemma ExampleMoves(i: nat)
    requires 1 <= i < 4
    ensures Enabled(ExampleState(i), ExampleStep(i)) && ExampleState(i + 1) == Next(ExampleState(i), ExampleStep(i))
  {
    var t := ExampleState(i).tables;
    assert i != 2 ==> Eligible(t, "d", {Webhook}, ExampleStep(i).now);
  }

  lemma ExampleDiffers()
    ensures !ActsAtOnce(ExampleState(4).tables, ExampleCall(), FailSnapshot(1, 8, "s"))
  {
    assert Pow2(0) == 1 && Pow2(1) == 2;
    assert Delay(1, 1, 4) == 1 && Delay(2, 1, 4) == 2;
    OverstatedActs(ExampleState(4).tables, ExampleCall(), FailSnapshot(1, 8, "s"));
  }

  /**
   * The condition is needed: in this run a worker whose lease expires calls `fail` with the next attempt number,
   * leases that attempt before its update, and the update sets the delay of the attempt before.
   */
  lemma OverstatedFailIsNotAtomic()
    ensures exists states: seq<System>, steps: seq<Step> ::
              && Run(states, steps) && |steps| == 5 && steps[4].FinishFail? && steps[4].token in states[4].failing
              && var open := states[4].failing[steps[4].token];
                 !ActsAtOnce(states[4].tables, open.call, open.snapshot)
  {
    var steps := seq(5, i requires 0 <= i < 5 => ExampleStep(i));
    var states := seq(5, i requires 0 <= i < 5 => ExampleState(i)) + [Next(ExampleState(4), ExampleStep(4))];
    ExampleDiffers();
    forall i | 0 <= i < 5 ensures StepAt(states, steps, i) {
      if i == 0 {
        ExampleRouted();
      } else if i < 4 {
        ExampleMoves(i);
      }
    }
    assert Run(states, steps);
  }

  // ---- waiting ----

  predicate LeasesRow(step: Step, id: string) {
    step.LeaseStep? && step.id == id
  }

  ghost predicate NotLeased(steps: seq<Step>, i: nat, k: nat, id: string) {
    k <= |steps| && forall m :: i <= m < k ==> !LeasesRow(steps[m], id)
  }

  lemma FailedRowStep(s: System, step: Step, id: string)
    requires Enabled(s, step) && !LeasesRow(step, id)
    requires id in s.tables.deliveries && s.tables.deliveries[id].status == Failed
    ensures id in Next(s, step).tables.deliveries && Next(s, step).tables.deliveries[id] == s.tables.deliveries[id]
  {
    RowChanges(s, step, id);
  }

  lemma {:induction false} FailedRowStands(states: seq<System>, steps: seq<Step>, i: nat, k: nat, id: string)
    requires Run(states, steps) && i <= k && NotLeased(steps, i, k, id)
    requires id in states[i].tables.deliveries && states[i].tables.deliveries[id].status == Failed
    ensures id in states[k].tables.deliveries && states[k].tables.deliveries[id] == states[i].tables.deliveries[id]
    decreases k
  {
    if i < k {
      FailedRowStands(states, steps, i, k - 1, id);
      RunStep(states, steps, k - 1);
      assert !LeasesRow(steps[k - 1], id);
      FailedRowStep(states[k - 1], steps[k - 1], id);
    }
  }

  /** The step is the update of a `fail` of the row that schedules a retry. */
  predicate Retries(s: System, step: Step, id: string) {
    && step.FinishFail? && step.token in s.failing && s.failing[step.token].call.id == id
    && FailWriteOutcome(s.tables, s.failing[step.token].call, s.failing[step.token].snapshot) == MarkedFailed
  }

  /** After a retryable failure nobody leases the row again before its backoff has passed. */
  lemma RetryWaits(states: seq<System>, steps: seq<Step>, i: nat, k: nat, id: string)
    requires Run(states, steps) && i < k < |steps| && Retries(states[i], steps[i], id)
    requires LeasesRow(steps[k], id) && NotLeased(steps, i + 1, k, id)
    ensures var open := states[i].failing[steps[i].token];
            && steps[k].now >= open.call.now + Delay(open.snapshot.attemptCount, open.call.base, open.call.cap)
            && (open.call.attempt <= open.snapshot.attemptCount ==> open.snapshot.attemptCount == open.call.attempt)
  {
    RunInv(states, steps, i);
    var open := states[i].failing[steps[i].token];
    assert OpenFailOk(states[i], open);
    RunStep(states, steps, i);
    RetryRow(states[i].tables, open.call, open.snapshot);
    FailedRowStands(states, steps, i + 1, k, id);
    RunStep(states, steps, k);
  }

  lemma RetryRow(t: Tables, call: FailCall, snapshot: FailSnapshot)
    requires FailWriteOutcome(t, call, snapshot) == MarkedFailed
    ensures var u := FailWrite(t, call, snapshot);
            && call.id in u.deliveries && u.deliveries[call.id].status == Failed
            && Due(u.deliveries[call.id]) == call.now + Delay(snapshot.attemptCount, call.base, call.cap)
  {}

  /** The step ends the current attempt of the row. */
  ghost predicate EndsRow(s: System, step: Step, id: string) {
    match step
    case CompleteStep(i, w, a, _) => i == id && Holds(s.tables, id, w, a)
    case FinishFail(token) =>
      token in s.failing && s.failing[token].call.id == id
      && Holds(s.tables, id, s.failing[token].call.worker, s.failing[token].call.attempt)
    case _ => false
  }

  ghost predicate Touches(s: System, step: Step, id: string) {
    LeasesRow(step, id) || EndsRow(s, step, id)
  }

  /** Between i and k nobody leases the row and its holder does not end the attempt. */
  ghost predicate LeftAlone(states: seq<System>, steps: seq<Step>, i: nat, k: nat, id: string) {
    && |states| == |steps| + 1 && k <= |steps|
    && forall m :: i <= m < k ==> !Touches(states[m], steps[m], id)
  }

  lemma LeasedRowStep(s: System, step: Step, id: string)
    requires Enabled(s, step) && !Touches(s, step, id)
    requires id in s.tables.deliveries && s.tables.deliveries[id].status == Delivering
    ensures id in Next(s, step).tables.deliveries && Next(s, step).tables.deliveries[id] == s.tables.deliveries[id]
  {
    RowChanges(s, step, id);
  }

  lemma {:induction false} LeasedRowStands(states: seq<System>, steps: seq<Step>, i: nat, k: nat, id: string)
    requires Run(states, steps) && i <= k && LeftAlone(states, steps, i, k, id)
    requires id in states[i].tables.deliveries && states[i].tables.deliveries[id].status == Delivering
    ensures id in states[k].tables.deliveries && states[k].tables.deliveries[id] == states[i].tables.deliveries[id]
    decreases k
  {
    if i < k {
      LeasedRowStands(states, steps, i, k - 1, id);
      assert !Touches(states[k - 1], steps[k - 1], id);
      RunStep(states, steps, k - 1);
      LeasedRowStep(states[k - 1], steps[k - 1], id);
    }
  }

  /** A lease excludes every other worker until it expires or its holder ends the attempt. */
  lemma LeaseIsExclusive(states: seq<System>, steps: seq<Step>, i: nat, k: nat, id: string)
    requires Run(states, steps) && i < k < |steps|
    requires LeasesRow(steps[i], id) && LeasesRow(steps[k], id) && LeftAlone(states, steps, i + 1, k, id)
    ensures steps[k].now >= steps[i].now + steps[i].leaseMs
  {
    RunStep(states, steps, i);
    LeasedRowStands(states, steps, i + 1, k, id);
    RunStep(states, steps, k);
  }

  lemma SpentRowStands(s: System, step: Step, id: string)
    requires Enabled(s, step) && !EndsRow(s, step, id) && id in s.tables.deliveries
    requires var d := s.tables.deliveries[id]; d.status == Delivering && d.attemptCount == d.maxAttempts
    ensures id in Next(s, step).tables.deliveries && Next(s, step).tables.deliveries[id] == s.tables.deliveries[id]
  {
    RowChanges(s, step, id);
  }

  /**
   * A row whose last attempt is out is never leased again: unless its holder comes back it stays `delivering` for
   * ever, however long its lease has expired.
   */
  lemma {:induction false} LastAttemptStrands(states: seq<System>, steps: seq<Step>, i: nat, k: nat, id: string)
    requires Run(states, steps) && i <= k && NotEnded(states, steps, i, k, id)
    requires id in states[i].tables.deliveries && states[i].tables.deliveries[id].status == Delivering
    requires states[i].tables.deliveries[id].attemptCount == states[i].tables.deliveries[id].maxAttempts
    ensures id in states[k].tables.deliveries && states[k].tables.deliveries[id] == states[i].tables.deliveries[id]
    decreases k
  {
    if i < k {
      LastAttemptStrands(states, steps, i, k - 1, id);
      assert !EndsRow(states[k - 1], steps[k - 1], id);
      RunStep(states, steps, k - 1);
      SpentRowStands(states[k - 1], steps[k - 1], id);
    }
  }

  /** Between i and k the holder does not come back. */
  ghost predicate NotEnded(states: seq<System>, steps: seq<Step>, i: nat, k: nat, id: string) {
    && |states| == |steps| + 1 && k <= |steps|
    && forall m :: i <= m < k ==> !EndsRow(states[m], steps[m], id)
  }

  // ---- the lease budget ----

  function LeaseCount(step: Step, id: string): nat {
    if step.LeaseStep? && step.id == id then 1 else 0
  }

  /** What an accepted replay of the row adds. */
  function Replayed(s: System, step: Step, id: string): nat {
    if step.ReplayStep? && step.id == id && Replayable(s.tables, id, step.owner) then step.additional else 0
  }

  /** The leases of the row among the first n steps. */
  function LeasesOf(steps: seq<Step>, n: nat, id: string): nat
    requires n <= |steps|
  {
    if n == 0 then 0 else LeasesOf(steps, n - 1, id) + LeaseCount(steps[n - 1], id)
  }

  /** The attempts that accepted replays of the row have added in the first n steps. */
  function ReplayedAttempts(states: seq<System>, steps: seq<Step>, n: nat, id: string): nat
    requires n <= |steps| < |states|
  {
    if n == 0 then 0
    else ReplayedAttempts(states, steps, n - 1, id) + Replayed(states[n - 1], steps[n - 1], id)
  }

  ghost predicate Budgeted(t: Tables, id: string, leases: nat, added: nat) {
    if id in t.deliveries
    then t.deliveries[id].attemptCount == leases && t.deliveries[id].maxAttempts == DEFAULT_MAX_ATTEMPTS + added
    else leases == 0 && added == 0
  }

  lemma BudgetStep(s: System, step: Step, id: string, leases: nat, added: nat)
    requires Enabled(s, step) && Budgeted(s.tables, id, leases, added)
    requires id in s.tables.deliveries ==> s.tables.deliveries[id].attemptCount <= s.tables.deliveries[id].maxAttempts
    ensures Budgeted(Next(s, step).tables, id, leases + LeaseCount(step, id), added + Replayed(s, step, id))
  {
    if id in s.tables.deliveries {
      RowChanges(s, step, id);
    }
  }

  /**
   * Counting over a whole run: a row's attempt counter is the number of leases granted on it, its budget is
   * the initial eight plus what accepted replays added, and so the leases never exceed that budget.
   */
  lemma LeaseBudget(states: seq<System>, steps: seq<Step>, n: nat, id: string)
    requires Run(states, steps) && n <= |steps| && id in states[n].tables.deliveries
    ensures var d := states[n].tables.deliveries[id];
            && LeasesOf(steps, n, id) == d.attemptCount
            && d.maxAttempts == DEFAULT_MAX_ATTEMPTS + ReplayedAttempts(states, steps, n, id)
            && LeasesOf(steps, n, id) <= DEFAULT_MAX_ATTEMPTS + ReplayedAttempts(states, steps, n, id)
  {
    RunBudget(states, steps, n, id);
    RunInv(states, steps, n);
    assert RowOk(states[n].tables, id);
  }

  lemma {:induction false} RunBudget(states: seq<System>, steps: seq<Step>, n: nat, id: string)
    requires Run(states, steps) && n <= |steps|
    ensures Budgeted(states[n].tables, id, LeasesOf(steps, n, id), ReplayedAttempts(states, steps, n, id))
  {
    if n > 0 {
      RunBudget(states, steps, n - 1, id);
      RunStep(states, steps, n - 1);
      RunInv(states, steps, n - 1);
      assert id in states[n - 1].tables.deliveries ==> RowOk(states[n - 1].tables, id);
      BudgetStep(states[n - 1], steps[n - 1], id, LeasesOf(steps, n - 1, id),
                 ReplayedAttempts(states, steps, n - 1, id));
    }
  }

  // ---- test notifications ----

  lemma {:induction false} EventsPersist(states: seq<System>, steps: seq<Step>, i: nat, j: nat, eventId: string)
    requires Run(states, steps) && i <= j < |states| && eventId in states[i].tables.events
    ensures eventId in states[j].tables.events && states[j].tables.events[eventId] == states[i].tables.events[eventId]
    decreases j
  {
    if i < j {
      EventsPersist(states, steps, i, j - 1, eventId);
      RunStep(states, steps, j - 1);
    }
  }

  /** A queued test notification lies a full cooldown after every earlier one of the same wallet. */
  lemma TestNotificationsAreSpaced(states: seq<System>, steps: seq<Step>, i: nat, j: nat)
    requires Run(states, steps) && i < j < |steps|
    requires steps[i].TestStep? && steps[j].TestStep? && steps[i].owner == steps[j].owner
    ensures steps[i].now + steps[j].cooldownMs <= steps[j].now
  {
    RunStep(states, steps, i);
    RunStep(states, steps, j);
    assert steps[i].eventId in states[i + 1].tables.events;
    EventsPersist(states, steps, i + 1, j, steps[i].eventId);
  }
}
