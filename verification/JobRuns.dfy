/**
 * The outbox with no discipline on its callers: any caller may lease, complete or fail any job at any time, with any
 * earlier answer in hand. What the guard of packages/db/src/jobs/repository.ts, which looks at the worker id only,
 * then lets through.
 */
module JobRuns {
  import opened Backoff
  import opened OutboxJobs
  import opened Wrappers

  datatype Step =
    | LeaseStep(job: string, w: string, leaseMs: nat, now: int)
    | CompleteStep(job: string, w: string)
    | FailStep(job: string, w: string, snapshot: Snapshot, now: int, base: nat, cap: nat)
    | EnqueueStep(job: string, eventId: string, now: int)
    | Stutter

  predicate Enabled(jobs: Jobs, step: Step) {
    match step
    case LeaseStep(job, _, _, now) => Ready(jobs, job, now)
    case EnqueueStep(job, _, _) => job !in jobs
    case _ => true
  }

  function Next(jobs: Jobs, step: Step): Jobs
    requires Enabled(jobs, step)
  {
    match step
    case LeaseStep(job, w, leaseMs, now) => AfterLease(jobs, job, w, leaseMs, now)
    case CompleteStep(job, w) => AfterComplete(jobs, job, w)
    case FailStep(job, w, snapshot, now, base, cap) => AfterFail(jobs, job, w, snapshot, now, base, cap)
    case EnqueueStep(job, eventId, now) => jobs[job := NewJob(eventId, now)]
    case Stutter => jobs
  }

  /** Step i leads from state i to state i + 1. */
  predicate StepAt(states: seq<Jobs>, steps: seq<Step>, i: nat)
    requires i < |steps| < |states|
  {
    Enabled(states[i], steps[i]) && states[i + 1] == Next(states[i], steps[i])
  }

  /** A run may start from any table. */
  predicate Run(states: seq<Jobs>, steps: seq<Step>) {
    |states| == |steps| + 1 && forall i :: 0 <= i < |steps| ==> StepAt(states, steps, i)
  }

  predicate Leases(step: Step, job: string) {
    step.LeaseStep? && step.job == job
  }

  /** No step from `from` on and before `to` leases the job. */
  predicate NotLeased(steps: seq<Step>, from: nat, to: nat, job: string)
    requires to <= |steps|
  {
    forall m :: from <= m < to ==> !Leases(steps[m], job)
  }

  /** A job that is out on lease is out to its latest lessee, and its counter only grows. */
  lemma {:induction false} LatestLessee(states: seq<Jobs>, steps: seq<Step>, j: nat, k: nat, job: string)
    requires Run(states, steps) && j < k <= |steps| && Leases(steps[j], job) && NotLeased(steps, j + 1, k, job)
    ensures job in states[j] && job in states[k] && states[k][job].attempts == states[j][job].attempts + 1
    ensures states[k][job].status == Leased ==> states[k][job].leaseOwner == Some(steps[j].w)
    decreases k
  {
    assert StepAt(states, steps, k - 1);
    if j < k - 1 {
      LatestLessee(states, steps, j, k - 1, job);
      assert !Leases(steps[k - 1], job);
    }
  }

  lemma {:induction false} CounterGrows(states: seq<Jobs>, steps: seq<Step>, i: nat, k: nat, job: string)
    requires Run(states, steps) && i <= k <= |steps| && job in states[i]
    ensures job in states[k] && states[k][job].attempts >= states[i][job].attempts
    decreases k
  {
    if i < k {
      CounterGrows(states, steps, i, k - 1, job);
      assert StepAt(states, steps, k - 1);
    }
  }

  /**
   * Exactly which stale calls get through: a job was leased at step i, and j is its latest lease before k, later than
   * i. The guard of `complete` and `fail` still admits the first lessee if and only if the job is out and the same
   * worker id has leased it again; the attempt it then ends is not the one it was given.
   */
  lemma StaleCallsExactly(states: seq<Jobs>, steps: seq<Step>, i: nat, j: nat, k: nat, job: string)
    requires Run(states, steps) && i < j < k <= |steps|
    requires Leases(steps[i], job) && Leases(steps[j], job) && NotLeased(steps, j + 1, k, job)
    ensures job in states[i] && job in states[k]
    ensures Owns(states[k], job, steps[i].w) <==> states[k][job].status == Leased && steps[j].w == steps[i].w
    ensures states[k][job].attempts > states[i][job].attempts + 1
  {
    LatestLessee(states, steps, j, k, job);
    assert StepAt(states, steps, i);
    CounterGrows(states, steps, i + 1, j, job);
  }

  /** So without re-leasing under one id the guard is a fence: of several lessees only the latest gets through. */
  lemma LatestOrNobody(states: seq<Jobs>, steps: seq<Step>, j: nat, k: nat, job: string, w: string)
    requires Run(states, steps) && j < k <= |steps| && Leases(steps[j], job) && NotLeased(steps, j + 1, k, job)
    ensures Owns(states[k], job, w) <==> job in states[k] && states[k][job].status == Leased && w == steps[j].w
  {
    LatestLessee(states, steps, j, k, job);
  }

  // ---- what each step writes, in fields ----

  /** Exactly which jobs may be leased. */
  lemma LeasableExactly(jobs: Jobs, job: string, w: string, leaseMs: nat, now: int)
    ensures Enabled(jobs, LeaseStep(job, w, leaseMs, now))
            <==> job in jobs && jobs[job].availableAt <= now && jobs[job].attempts < jobs[job].maxAttempts
                 && match jobs[job].status
                    case Waiting => true
                    case Leased => jobs[job].leaseExpiresAt.Some? && jobs[job].leaseExpiresAt.value <= now
                    case _ => false
  {}

  /** No job but this one changed. */
  predicate OnlyJob(jobs: Jobs, after: Jobs, job: string) {
    after.Keys == jobs.Keys && forall other :: other in jobs && other != job ==> after[other] == jobs[other]
  }

  predicate SameJob(j: Job, k: Job) {
    k.eventId == j.eventId && k.maxAttempts == j.maxAttempts && k.createdAt == j.createdAt
  }

  lemma LeaseWrites(jobs: Jobs, job: string, w: string, leaseMs: nat, now: int)
    requires Enabled(jobs, LeaseStep(job, w, leaseMs, now))
    ensures var after := Next(jobs, LeaseStep(job, w, leaseMs, now));
            && OnlyJob(jobs, after, job) && SameJob(jobs[job], after[job])
            && after[job].status == Leased && after[job].leaseOwner == Some(w)
            && after[job].leaseExpiresAt == Some(now + leaseMs) && after[job].attempts == jobs[job].attempts + 1
            && after[job].availableAt == jobs[job].availableAt
  {}

  /** The worker id holds the job, whichever of its calls asks. */
  predicate IsOut(jobs: Jobs, job: string, w: string) {
    job in jobs && jobs[job].status == Leased && jobs[job].leaseOwner == Some(w)
  }

  lemma CompletionWrites(jobs: Jobs, job: string, w: string)
    ensures var after := Next(jobs, CompleteStep(job, w));
            if IsOut(jobs, job, w) then
              && OnlyJob(jobs, after, job) && SameJob(jobs[job], after[job])
              && after[job].status == Completed && after[job].attempts == jobs[job].attempts
              && after[job].leaseOwner.None? && after[job].leaseExpiresAt.None?
              && after[job].availableAt == jobs[job].availableAt
            else after == jobs
  {}

  /** The select of a failure finds the job exactly while its worker id holds it, with its counters as they are. */
  lemma FailureReads(jobs: Jobs, job: string, w: string)
    ensures FailRead(jobs, job, w)
            == if IsOut(jobs, job, w) then Some(Snapshot(jobs[job].attempts, jobs[job].maxAttempts)) else None
  {}

  /** A failure kills a job whose attempts are used up, and delays it by its capped back-off otherwise. */
  lemma FailureWrites(jobs: Jobs, job: string, w: string, snapshot: Snapshot, now: int, base: nat, cap: nat)
    ensures var after := Next(jobs, FailStep(job, w, snapshot, now, base, cap));
            if IsOut(jobs, job, w) then
              && OnlyJob(jobs, after, job) && SameJob(jobs[job], after[job])
              && after[job].attempts == jobs[job].attempts
              && after[job].leaseOwner.None? && after[job].leaseExpiresAt.None?
              && (if snapshot.attempts < snapshot.maxAttempts
                  then after[job].status == Waiting
                       && after[job].availableAt == now + Delay(snapshot.attempts, base, cap)
                  else after[job].status == Dead && after[job].availableAt == now)
            else after == jobs
  {}

  /** The step sends the job back to wait. */
  predicate Retries(jobs: Jobs, step: Step, job: string) {
    && step.FailStep? && step.job == job && IsOut(jobs, job, step.w)
    && step.snapshot.attempts < step.snapshot.maxAttempts
  }

  lemma {:induction false} WaitingStands(states: seq<Jobs>, steps: seq<Step>, i: nat, k: nat, job: string)
    requires Run(states, steps) && i <= k <= |steps| && NotLeased(steps, i, k, job)
    requires job in states[i] && states[i][job].status == Waiting
    ensures job in states[k] && states[k][job] == states[i][job]
    decreases k
  {
    if i < k {
      WaitingStands(states, steps, i, k - 1, job);
      assert StepAt(states, steps, k - 1) && !Leases(steps[k - 1], job);
    }
  }

  /** After a failure that is retried nobody leases the job before the back-off has passed. */
  lemma JobRetryWaits(states: seq<Jobs>, steps: seq<Step>, i: nat, k: nat, job: string)
    requires Run(states, steps) && i < k < |steps| && Retries(states[i], steps[i], job)
    requires Leases(steps[k], job) && NotLeased(steps, i + 1, k, job)
    ensures steps[i].now + Delay(steps[i].snapshot.attempts, steps[i].base, steps[i].cap) <= steps[k].now
  {
    assert StepAt(states, steps, i) && StepAt(states, steps, k);
    FailureWrites(states[i], job, steps[i].w, steps[i].snapshot, steps[i].now, steps[i].base, steps[i].cap);
    WaitingStands(states, steps, i + 1, k, job);
  }

  predicate EndsLease(step: Step, job: string, w: string) {
    (step.CompleteStep? || step.FailStep?) && step.job == job && step.w == w
  }

  ghost predicate NotEnded(steps: seq<Step>, from: nat, to: nat, job: string, w: string)
    requires to <= |steps|
  {
    forall m :: from <= m < to ==> !EndsLease(steps[m], job, w)
  }

  lemma {:induction false} LeaseStands(states: seq<Jobs>, steps: seq<Step>, i: nat, k: nat, job: string, w: string)
    requires Run(states, steps) && i <= k <= |steps| && NotLeased(steps, i, k, job) && NotEnded(steps, i, k, job, w)
    requires IsOut(states[i], job, w)
    ensures job in states[k] && states[k][job] == states[i][job]
    decreases k
  {
    if i < k {
      LeaseStands(states, steps, i, k - 1, job, w);
      assert StepAt(states, steps, k - 1) && !Leases(steps[k - 1], job) && !EndsLease(steps[k - 1], job, w);
    }
  }

  /** Between two leases of a job its holder's worker id ended the first, or the first had expired. */
  lemma JobLeaseIsExclusive(states: seq<Jobs>, steps: seq<Step>, i: nat, k: nat, job: string)
    requires Run(states, steps) && i < k < |steps| && Leases(steps[i], job) && Leases(steps[k], job)
    requires NotLeased(steps, i + 1, k, job) && NotEnded(steps, i + 1, k, job, steps[i].w)
    ensures steps[i].now + steps[i].leaseMs <= steps[k].now
  {
    assert StepAt(states, steps, i) && StepAt(states, steps, k);
    LeaseWrites(states[i], job, steps[i].w, steps[i].leaseMs, steps[i].now);
    LeaseStands(states, steps, i + 1, k, job, steps[i].w);
  }

  // ---- a stale call that gets through ----

  function ExampleStep(i: nat): Step {
    if i == 0 then EnqueueStep("j", "e", 0)
    else if i == 1 then LeaseStep("j", "w", 5, 0)
    else if i == 2 then LeaseStep("j", "w", 5, 5)
    else CompleteStep("j", "w")
  }

  function ExampleState(i: nat): Jobs {
    if i == 0 then map[]
    else if i == 1 then map["j" := NewJob("e", 0)]
    else if i == 2 then AfterLease(ExampleState(1), "j", "w", 5, 0)
    else if i == 3 then AfterLease(ExampleState(2), "j", "w", 5, 5)
    else AfterComplete(ExampleState(3), "j", "w")
  }

  /**
   * A run in which it happens: the lease of a worker id runs out, the same id leases the job again, and the first
   * call, given attempt 1, completes attempt 2.
   */
  lemma OutboxFenceNeedsOneCall()
    ensures exists states: seq<Jobs>, steps: seq<Step>, job: string ::
              && Run(states, steps) && states[0] == map[] && |steps| == 4
              && Leases(steps[1], job) && Leases(steps[2], job)
              && job in states[2] && job in states[3] && states[2][job].attempts == 1 && states[3][job].attempts == 2
              && steps[3] == CompleteStep(job, steps[1].w)
              && job in states[4] && states[4][job].status == Completed
  {
    var states := seq(5, i requires 0 <= i < 5 => ExampleState(i));
    var steps := seq(4, i requires 0 <= i < 4 => ExampleStep(i));
    forall i | 0 <= i < 4 ensures StepAt(states, steps, i) {
    }
    assert Run(states, steps) && Leases(steps[1], "j");
  }
}
