/**
 * What the calls of apps/worker/src/jobs/delivery-dispatch.ts do over whole runs: what a worker holds it has in hand,
 * what it reports it was told by the transport, and every call comes to an end.
 */
module WorkerHistory {
  import opened Wrappers
  import opened Dispatch
  import D = Deliveries
  import R = DeliveryRuns
  import J = OutboxJobs

  /** A step of the worker's call that is no crash. */
  predicate Moves(step: Step, w: string) {
    !step.Outside? && !step.EnqueueJob? && !step.Crash? && step.w == w
  }

  // ---- leases are answered ----

  /** The row is out to the worker under this attempt. */
  predicate DeliveryOut(d: State, w: string, id: string, attempt: nat) {
    && id in d.sys.tables.deliveries
    && var row := d.sys.tables.deliveries[id];
    && row.status == D.Delivering && row.leaseOwner == Some(w) && row.attemptCount == attempt
  }

  /** The worker's call is about this attempt: it sends it, or is about to report it. */
  predicate DeliveryInHand(d: State, w: string, id: string, attempt: nat) {
    match PcOf(d, w)
    case Dispatching(i, a) => i == id && a == attempt
    case Completing(i, a) => i == id && a == attempt
    case Failing(i, a, _) => i == id && a == attempt
    case FailingWrite =>
      w in d.sys.failing && d.sys.failing[w].call.id == id && d.sys.failing[w].call.attempt == attempt
    case _ => false
  }

  /** No step among these is a crash of the worker. */
  predicate Alive(steps: seq<Step>, w: string, i: nat, j: nat)
    requires i <= j <= |steps|
  {
    forall k :: i <= k < j ==> steps[k] != Crash(w)
  }

  /** Only a lease gives a worker an attempt, with a number that was never granted before. */
  lemma OutStays(d: State, step: Step, w: string, id: string, attempt: nat)
    requires Enabled(d, step) && R.GrantOk(d.sys.tables, R.Grant(id, w, attempt))
    requires DeliveryOut(Next(d, step), w, id, attempt)
    ensures DeliveryOut(d, w, id, attempt)
  {
    R.RowChanges(d.sys, Inner(d, step), id);
  }

  /** As long as the attempt is out, only a crash takes it from the worker's hand. */
  lemma HandStays(d: State, step: Step, w: string, id: string, attempt: nat)
    requires PcOk(d, w, PcOf(d, w)) && Enabled(d, step) && step != Crash(w)
    requires DeliveryInHand(d, w, id, attempt) && DeliveryOut(Next(d, step), w, id, attempt)
    ensures DeliveryInHand(Next(d, step), w, id, attempt)
  {
    if step.Outside? || step.EnqueueJob? || step.w != w {
      OthersStand(d, step, w);
    }
  }

  /** The attempt was granted, and is in the worker's hand while it is out. */
  ghost predicate Answered(d: State, w: string, id: string, attempt: nat) {
    && R.Grant(id, w, attempt) in d.sys.granted
    && (DeliveryOut(d, w, id, attempt) ==> DeliveryInHand(d, w, id, attempt))
  }

  lemma LeaseIsInHand(d: State, step: Step)
    requires Enabled(d, step) && step.LeaseDelivery?
    ensures step.id in d.sys.tables.deliveries
    ensures Answered(Next(d, step), step.w, step.id, d.sys.tables.deliveries[step.id].attemptCount + 1)
  {}

  lemma AnswerStays(d: State, step: Step, w: string, id: string, attempt: nat)
    requires Enabled(d, step) && step != Crash(w) && Answered(d, w, id, attempt)
    requires PcOk(d, w, PcOf(d, w)) && R.GrantOk(d.sys.tables, R.Grant(id, w, attempt))
    ensures Answered(Next(d, step), w, id, attempt)
  {
    assert R.Grant(id, w, attempt) in R.Next(d.sys, Inner(d, step)).granted;
    if DeliveryOut(Next(d, step), w, id, attempt) {
      OutStays(d, step, w, id, attempt);
      HandStays(d, step, w, id, attempt);
    }
  }

  lemma AnswerStaysAt(states: seq<State>, steps: seq<Step>, k: nat, w: string, id: string, attempt: nat)
    requires Run(states, steps) && k < |steps| && steps[k] != Crash(w) && Answered(states[k], w, id, attempt)
    ensures Answered(states[k + 1], w, id, attempt)
  {
    RunStep(states, steps, k);
    RunInv(states, steps, k);
    assert PcOk(states[k], w, PcOf(states[k], w));
    assert R.GrantOk(states[k].sys.tables, R.Grant(id, w, attempt));
    AnswerStays(states[k], steps[k], w, id, attempt);
  }

  lemma {:induction false} AnsweredSince(
    states: seq<State>, steps: seq<Step>, i: nat, j: nat, w: string, id: string, attempt: nat)
    requires Run(states, steps) && i < j < |states| && Alive(steps, w, i, j) && Answered(states[i + 1], w, id, attempt)
    ensures Answered(states[j], w, id, attempt)
    decreases j
  {
    if i + 1 < j {
      AnsweredSince(states, steps, i, j - 1, w, id, attempt);
      AnswerStaysAt(states, steps, j - 1, w, id, attempt);
    }
  }

  /**
   * A worker that has not crashed since it leased a delivery has the attempt in hand for as long as it is out: no call
   * ends without having reported it, unless the row is somebody else's by then.
   */
  lemma {:induction false} LeaseIsAnswered(states: seq<State>, steps: seq<Step>, i: nat, j: nat, w: string, id: string)
    requires Run(states, steps) && i < j < |states| && steps[i].LeaseDelivery? && steps[i].w == w && steps[i].id == id
    requires Alive(steps, w, i, j)
    ensures id in states[i].sys.tables.deliveries
    ensures var attempt := states[i].sys.tables.deliveries[id].attemptCount + 1;
            DeliveryOut(states[j], w, id, attempt) ==> DeliveryInHand(states[j], w, id, attempt)
  {
    RunStep(states, steps, i);
    LeaseIsInHand(states[i], steps[i]);
    AnsweredSince(states, steps, i, j, w, id, states[i].sys.tables.deliveries[id].attemptCount + 1);
  }

  predicate JobOut(d: State, w: string, job: string) {
    job in d.jobs && d.jobs[job].status == J.Leased && d.jobs[job].leaseOwner == Some(w)
  }

  predicate JobInHand(d: State, w: string, job: string) {
    match PcOf(d, w)
    case Routing(k, _) => k == job
    case Finishing(k, _) => k == job
    case JobFailing(k, _) => k == job
    case JobFailingWrite(k, _, _, _) => k == job
    case _ => false
  }

  lemma JobHandStays(d: State, step: Step, w: string, job: string)
    requires Enabled(d, step) && step != Crash(w) && JobOut(Next(d, step), w, job)
    requires JobOut(d, w, job) ==> JobInHand(d, w, job)
    ensures JobInHand(Next(d, step), w, job)
  {}

  /** The same of jobs: what a worker has leased since its last crash and not yet answered, it has in hand. */
  lemma {:induction false} JobLeaseIsAnswered(
    states: seq<State>, steps: seq<Step>, i: nat, j: nat, w: string, job: string)
    requires Run(states, steps) && i < j < |states| && steps[i].LeaseJob? && steps[i].w == w && steps[i].job == job
    requires Alive(steps, w, i, j)
    ensures JobOut(states[j], w, job) ==> JobInHand(states[j], w, job)
    decreases j
  {
    RunStep(states, steps, i);
    if i + 1 < j {
      JobLeaseIsAnswered(states, steps, i, j - 1, w, job);
      RunStep(states, steps, j - 1);
      if JobOut(states[j], w, job) {
        JobHandStays(states[j - 1], steps[j - 1], w, job);
      }
    }
  }

  // ---- reports are true ----

  /** Step l leased the attempt to the worker and at step m the transport accepted it. */
  ghost predicate LeasedThenAccepted(
    states: seq<State>, steps: seq<Step>, l: nat, m: nat, w: string, id: string, attempt: nat)
    requires l < m < |steps| < |states|
  {
    && steps[l].LeaseDelivery? && steps[l].w == w && steps[l].id == id && id in states[l].sys.tables.deliveries
    && states[l].sys.tables.deliveries[id].attemptCount + 1 == attempt
    && steps[m] == Accepted(w) && PcOf(states[m], w) == Dispatching(id, attempt)
  }

  lemma {:induction false} LeasedWhen(
    states: seq<State>, steps: seq<Step>, i: nat, w: string, id: string, attempt: nat) returns (l: nat)
    requires Run(states, steps) && i < |states| && PcOf(states[i], w) == Dispatching(id, attempt)
    ensures l < i && steps[l].LeaseDelivery? && steps[l].w == w && steps[l].id == id
    ensures id in states[l].sys.tables.deliveries && states[l].sys.tables.deliveries[id].attemptCount + 1 == attempt
  {
    RunStep(states, steps, i - 1);
    if PcOf(states[i - 1], w) == Dispatching(id, attempt) {
      l := LeasedWhen(states, steps, i - 1, w, id, attempt);
    } else {
      l := i - 1;
    }
  }

  lemma {:induction false} AcceptedWhen(
    states: seq<State>, steps: seq<Step>, i: nat, w: string, id: string, attempt: nat) returns (l: nat, m: nat)
    requires Run(states, steps) && i < |states| && PcOf(states[i], w) == Completing(id, attempt)
    ensures l < m < i && LeasedThenAccepted(states, steps, l, m, w, id, attempt)
  {
    RunStep(states, steps, i - 1);
    if PcOf(states[i - 1], w) == Completing(id, attempt) {
      l, m := AcceptedWhen(states, steps, i - 1, w, id, attempt);
    } else {
      m := i - 1;
      l := LeasedWhen(states, steps, m, w, id, attempt);
    }
  }

  predicate Delivered(t: D.Tables, id: string) {
    id in t.deliveries && t.deliveries[id].status == D.Delivered
  }

  lemma OnlyCompletionDelivers(s: R.System, step: R.Step, id: string)
    requires R.Enabled(s, step) && Delivered(R.Next(s, step).tables, id) && !Delivered(s.tables, id)
    ensures step.CompleteStep? && step.id == id && D.Holds(s.tables, id, step.worker, step.attempt)
    ensures R.Next(s, step).tables.deliveries[id].attemptCount == step.attempt
  {}

  lemma BecomesDelivered(d: State, step: Step, id: string)
    requires Enabled(d, step) && Delivered(Next(d, step).sys.tables, id) && !Delivered(d.sys.tables, id)
    ensures step.CompleteDelivery?
    ensures PcOf(d, step.w) == Completing(id, Next(d, step).sys.tables.deliveries[id].attemptCount)
  {
    OnlyCompletionDelivers(d.sys, Inner(d, step), id);
  }

  lemma DeliveredStands(states: seq<State>, steps: seq<Step>, k: nat, id: string)
    requires Run(states, steps) && k < |steps| && Delivered(states[k].sys.tables, id)
    ensures Delivered(states[k + 1].sys.tables, id)
    ensures states[k + 1].sys.tables.deliveries[id] == states[k].sys.tables.deliveries[id]
  {
    RunStep(states, steps, k);
    R.RowChanges(states[k].sys, Inner(states[k], steps[k]), id);
  }

  /** Nothing is marked delivered but what a transport accepted, under the very attempt the row carries. */
  lemma {:induction false} DeliveredWasAccepted(states: seq<State>, steps: seq<Step>, i: nat, id: string)
    returns (w: string, l: nat, m: nat, c: nat)
    requires Run(states, steps) && i < |states| && Delivered(states[i].sys.tables, id)
    ensures l < m < c < i && steps[c].CompleteDelivery? && steps[c].w == w
    ensures LeasedThenAccepted(states, steps, l, m, w, id, states[i].sys.tables.deliveries[id].attemptCount)
  {
    assert i > 0 by {
      assert Initial(states[0]);
    }
    if Delivered(states[i - 1].sys.tables, id) {
      DeliveredStands(states, steps, i - 1, id);
      w, l, m, c := DeliveredWasAccepted(states, steps, i - 1, id);
    } else {
      RunStep(states, steps, i - 1);
      BecomesDelivered(states[i - 1], steps[i - 1], id);
      c, w := i - 1, steps[i - 1].w;
      l, m := AcceptedWhen(states, steps, c, w, id, states[i].sys.tables.deliveries[id].attemptCount);
    }
  }

  /** Why a worker fails an attempt: the transport refused it, or the completion did not come through. */
  ghost predicate Blames(states: seq<State>, steps: seq<Step>, k: nat, w: string, id: string, a: nat, terminal: bool)
    requires k < |steps| < |states|
  {
    || (steps[k] == Refused(w, terminal) && PcOf(states[k], w) == Dispatching(id, a))
    || (!terminal && steps[k].CompleteDelivery? && steps[k].w == w && PcOf(states[k], w) == Completing(id, a)
        && (steps[k].lost || !DeliveryOut(states[k], w, id, a)))
  }

  lemma {:induction false} BlamedWhen(
    states: seq<State>, steps: seq<Step>, i: nat, w: string, id: string, a: nat, terminal: bool) returns (k: nat)
    requires Run(states, steps) && i < |states| && PcOf(states[i], w) == Failing(id, a, terminal)
    ensures k < i && Blames(states, steps, k, w, id, a, terminal)
  {
    RunStep(states, steps, i - 1);
    if PcOf(states[i - 1], w) == Failing(id, a, terminal) {
      k := BlamedWhen(states, steps, i - 1, w, id, a, terminal);
    } else {
      k := i - 1;
    }
  }

  /** The call for the attempt in hand, with the default back-off. */
  predicate CallOf(pc: Pc, w: string, call: D.FailCall) {
    pc.Failing? && call == D.FailCall(pc.id, w, pc.attempt, pc.terminal, call.now, 1000, 300000)
  }

  /** An open `fail` either stands or was opened by this step, for the attempt in hand. */
  lemma OpensFail(d: State, step: Step, w: string)
    requires Enabled(d, step) && PcOk(d, w, PcOf(d, w)) && PcOf(Next(d, step), w).FailingWrite?
    ensures w in Next(d, step).sys.failing
    ensures PcOf(d, w).FailingWrite? ==> w in d.sys.failing && Next(d, step).sys.failing[w] == d.sys.failing[w]
    ensures !PcOf(d, w).FailingWrite? ==> CallOf(PcOf(d, w), w, Next(d, step).sys.failing[w].call)
  {
    if step.Outside? || step.EnqueueJob? || step.w != w {
      OthersStand(d, step, w);
    }
  }

  lemma OpensFailAt(states: seq<State>, steps: seq<Step>, k: nat, w: string)
    requires Run(states, steps) && k < |steps| && PcOf(states[k + 1], w).FailingWrite?
    ensures w in states[k + 1].sys.failing
    ensures PcOf(states[k], w).FailingWrite? ==>
              w in states[k].sys.failing && states[k + 1].sys.failing[w] == states[k].sys.failing[w]
    ensures !PcOf(states[k], w).FailingWrite? ==> CallOf(PcOf(states[k], w), w, states[k + 1].sys.failing[w].call)
  {
    RunStep(states, steps, k);
    RunInv(states, steps, k);
    assert PcOk(states[k], w, PcOf(states[k], w));
    OpensFail(states[k], steps[k], w);
  }

  /**
   * What a worker's `fail` says is so: the attempt it was granted was refused, terminally if it says so, or was not
   * completed; with the default back-off.
   */
  lemma {:induction false} FailureIsBlamed(states: seq<State>, steps: seq<Step>, i: nat, w: string) returns (k: nat)
    requires Run(states, steps) && i < |states| && PcOf(states[i], w).FailingWrite?
    ensures w in states[i].sys.failing && k < i
    ensures var call := states[i].sys.failing[w].call;
            && call.worker == w && call.base == 1000 && call.cap == 300000
            && Blames(states, steps, k, w, call.id, call.attempt, call.terminal)
  {
    assert i > 0 by {
      assert Initial(states[0]);
    }
    OpensFailAt(states, steps, i - 1, w);
    var pc := PcOf(states[i - 1], w);
    if pc.FailingWrite? {
      k := FailureIsBlamed(states, steps, i - 1, w);
    } else {
      k := BlamedWhen(states, steps, i - 1, w, pc.id, pc.attempt, pc.terminal);
    }
  }

  /** Why a worker fails a job: its event was not routed, or the completion did not come through. */
  ghost predicate BlamesJob(states: seq<State>, steps: seq<Step>, k: nat, w: string, job: string, attempts: nat)
    requires k < |steps| < |states|
  {
    || (steps[k] == MaterializeFails(w) && PcOf(states[k], w) == Routing(job, attempts))
    || (steps[k].Materialize? && steps[k].w == w && steps[k].lost && PcOf(states[k], w) == Routing(job, attempts))
    || (steps[k].CompleteJob? && steps[k].w == w && PcOf(states[k], w) == Finishing(job, attempts)
        && (steps[k].lost || !JobOut(states[k], w, job)))
  }

  lemma {:induction false} JobBlamedWhen(
    states: seq<State>, steps: seq<Step>, i: nat, w: string, job: string, attempts: nat) returns (k: nat)
    requires Run(states, steps) && i < |states| && PcOf(states[i], w) == JobFailing(job, attempts)
    ensures k < i && BlamesJob(states, steps, k, w, job, attempts)
  {
    RunStep(states, steps, i - 1);
    if PcOf(states[i - 1], w) == JobFailing(job, attempts) {
      k := JobBlamedWhen(states, steps, i - 1, w, job, attempts);
    } else {
      k := i - 1;
    }
  }

  /** A worker fails a job only after its routing or its completion did not come through. */
  lemma {:induction false} JobFailureIsBlamed(
    states: seq<State>, steps: seq<Step>, i: nat, w: string, job: string, attempts: nat) returns (k: nat)
    requires Run(states, steps) && i < |states|
    requires PcOf(states[i], w).JobFailingWrite? && PcOf(states[i], w).job == job
    requires PcOf(states[i], w).attempts == attempts
    ensures k < i && BlamesJob(states, steps, k, w, job, attempts)
  {
    RunStep(states, steps, i - 1);
    if PcOf(states[i - 1], w).JobFailingWrite? {
      k := JobFailureIsBlamed(states, steps, i - 1, w, job, attempts);
    } else {
      k := JobBlamedWhen(states, steps, i - 1, w, job, attempts);
    }
  }

  /**
   * A call that ends without a crash either heard that its completion took effect, or has written its failure, or
   * found nothing out to the worker: neither a lease to take nor one to fail.
   */
  lemma CallEndsFor(d: State, step: Step, w: string)
    requires Enabled(d, step) && Moves(step, w) && PcOf(Next(d, step), w).Idle?
    ensures step.CompleteDelivery? || step.CompleteJob? || step.ReadFail? || step.ReadJobFail? || step.WriteFail?
            || step.WriteJobFail? || step.SeesNoJob?
    ensures step.CompleteDelivery? ==>
              var pc := PcOf(d, w);
              !step.lost && DeliveryOut(d, w, pc.id, pc.attempt) && Delivered(Next(d, step).sys.tables, pc.id)
    ensures step.CompleteJob? ==>
              var job := PcOf(d, w).job;
              !step.lost && JobOut(d, w, job) && Next(d, step).jobs[job].status == J.Completed
    ensures step.ReadFail? ==> forall attempt :: !DeliveryOut(d, w, PcOf(d, w).id, attempt)
    ensures step.ReadJobFail? ==> !JobOut(d, w, PcOf(d, w).job)
  {}

  /** Whatever others may do to the tables, they may do at any time. */
  lemma OutsideMoves(d: State, inner: R.Step)
    requires R.Enabled(d.sys, inner)
    requires inner.ReplayStep? || inner.TestStep? || inner.EditSubscriptions? || inner.Publish?
    ensures Enabled(d, Outside(inner)) && Next(d, Outside(inner)).sys == R.Next(d.sys, inner)
    ensures Next(d, Outside(inner)).jobs == d.jobs && Next(d, Outside(inner)).pcs == d.pcs
    ensures inner.EditSubscriptions? ==> Next(d, Outside(inner)).sys.tables.subscriptions == inner.subscriptions
    ensures inner.Publish? ==>
              var events := Next(d, Outside(inner)).sys.tables.events;
              inner.eventId in events && events[inner.eventId] == inner.event
  {}

  // ---- calls end ----

  /** How many steps a call has left at most. */
  function Left(pc: Pc): nat {
    match pc
    case Idle => 0
    case JobFailingWrite(_, _, _, _) => 1
    case FailingWrite => 1
    case JobFailing(_, _) => 2
    case Failing(_, _, _) => 2
    case Finishing(_, _) => 3
    case Completing(_, _) => 3
    case Routing(_, _) => 4
    case Dispatching(_, _) => 4
    case Polling => 5
  }

  /** Every step of a call brings its end closer, whatever the answers. */
  lemma CallsEnd(d: State, step: Step, w: string)
    requires Enabled(d, step) && !step.Outside? && !step.EnqueueJob? && step.w == w
    ensures !PcOf(d, w).Idle? ==> Left(PcOf(Next(d, step), w)) < Left(PcOf(d, w))
    ensures PcOf(d, w).Idle? ==> Left(PcOf(Next(d, step), w)) <= 5
  {}

  ghost predicate CanMove(d: State, w: string) {
    exists step :: Moves(step, w) && Enabled(d, step)
  }

  lemma DeliveryMove(d: State, w: string) returns (step: Step)
    requires PcOk(d, w, PcOf(d, w)) && (PcOf(d, w).Dispatching? || PcOf(d, w).Completing? || PcOf(d, w).Failing?)
    ensures Moves(step, w) && Enabled(d, step)
  {
    match PcOf(d, w)
    case Dispatching(_, _) => step := Accepted(w);
    case Completing(_, _) => step := CompleteDelivery(w, 0, false);
    case Failing(_, _, _) => step := ReadFail(w, 0);
  }

  lemma MoveOf(d: State, w: string) returns (step: Step)
    requires PcOk(d, w, PcOf(d, w))
    ensures Moves(step, w) && Enabled(d, step)
  {
    match PcOf(d, w)
    case Idle => step := SeesNoDelivery(w);
    case FailingWrite => step := WriteFail(w);
    case Polling => step := SeesNoJob(w);
    case Routing(_, _) => step := MaterializeFails(w);
    case Finishing(_, _) => step := CompleteJob(w, false);
    case JobFailing(_, _) => step := ReadJobFail(w, 0);
    case JobFailingWrite(_, _, _, _) => step := WriteJobFail(w);
    case _ => step := DeliveryMove(d, w);
  }

  /** In every reachable state every worker can go on without crashing. */
  lemma WorkerCanMove(states: seq<State>, steps: seq<Step>, i: nat, w: string)
    requires Run(states, steps) && i < |states|
    ensures CanMove(states[i], w)
  {
    RunInv(states, steps, i);
    assert PcOk(states[i], w, PcOf(states[i], w));
    var step := MoveOf(states[i], w);
  }
}
