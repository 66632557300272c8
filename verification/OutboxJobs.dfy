/** packages/db/src/jobs/repository.ts: leased outbox jobs with capped exponential backoff. */
module OutboxJobs {
  import opened Wrappers
  import opened Backoff
  import Ordering

  datatype JobStatus = Waiting | Leased | Completed | Dead

  datatype Job = Job(
    eventId: string,
    status: JobStatus,
    availableAt: int,
    leaseOwner: Option<string>,
    leaseExpiresAt: Option<int>,
    attempts: nat,
    maxAttempts: nat,
    createdAt: int)

  type Jobs = map<string, Job>

  const DEFAULT_MAX_ATTEMPTS: nat := 8

  function NewJob(eventId: string, now: int): Job {
    Job(eventId, Waiting, now, None, None, 0, DEFAULT_MAX_ATTEMPTS, now)
  }

  /** The where clause of the lease. */
  predicate Ready(jobs: Jobs, id: string, now: int) {
    && id in jobs
    && var j := jobs[id];
    && j.availableAt <= now
    && j.attempts < j.maxAttempts
    && (j.status == Waiting || (j.status == Leased && j.leaseExpiresAt.Some? && j.leaseExpiresAt.value <= now))
  }

  function AfterLease(jobs: Jobs, id: string, worker: string, leaseMs: int, now: int): Jobs
    requires id in jobs
  {
    jobs[id := jobs[id].(status := Leased, leaseOwner := Some(worker), leaseExpiresAt := Some(now + leaseMs),
                         attempts := jobs[id].attempts + 1)]
  }

  /** The guard of every later write: fenced by the worker only. */
  predicate Owns(jobs: Jobs, id: string, worker: string) {
    id in jobs && jobs[id].status == Leased && jobs[id].leaseOwner == Some(worker)
  }

  function AfterComplete(jobs: Jobs, id: string, worker: string): Jobs {
    if Owns(jobs, id, worker)
    then jobs[id := jobs[id].(status := Completed, leaseOwner := None, leaseExpiresAt := None)]
    else jobs
  }

  /** What the select of `fail` returns. */
  datatype Snapshot = Snapshot(attempts: nat, maxAttempts: nat)

  function FailRead(jobs: Jobs, id: string, worker: string): Option<Snapshot> {
    if Owns(jobs, id, worker) then Some(Snapshot(jobs[id].attempts, jobs[id].maxAttempts)) else None
  }

  datatype FailOutcome = BackToWaiting | MarkedDead | NotOwned

  function AfterFail(jobs: Jobs, id: string, worker: string, snapshot: Snapshot, now: int, base: nat, cap: nat): Jobs {
    if Owns(jobs, id, worker) then
      var dead := snapshot.attempts >= snapshot.maxAttempts;
      jobs[id := jobs[id].(status := if dead then Dead else Waiting,
                           availableAt := if dead then now else now + Delay(snapshot.attempts, base, cap),
                           leaseOwner := None,
                           leaseExpiresAt := None)]
    else jobs
  }

  function AfterFailOutcome(jobs: Jobs, id: string, worker: string, snapshot: Snapshot): FailOutcome {
    if !Owns(jobs, id, worker) then NotOwned
    else if snapshot.attempts >= snapshot.maxAttempts then MarkedDead
    else BackToWaiting
  }

  /** `fail` as one indivisible step. */
  function FailAtOnce(jobs: Jobs, id: string, worker: string, now: int, base: nat, cap: nat): (Jobs, FailOutcome) {
    match FailRead(jobs, id, worker)
    case None => (jobs, NotOwned)
    case Some(s) => (AfterFail(jobs, id, worker, s, now, base, cap), AfterFailOutcome(jobs, id, worker, s))
  }

  datatype Error = BlankWorker | NotPositive(name: string)

  /** `order by available_at asc, created_at asc`. */
  predicate NotLater(jobs: Jobs, a: string, b: string) {
    b in jobs ==>
      && a in jobs
      && (jobs[a].availableAt < jobs[b].availableAt
          || (jobs[a].availableAt == jobs[b].availableAt && jobs[a].createdAt <= jobs[b].createdAt))
  }

  ghost predicate IsFirst(jobs: Jobs, candidates: set<string>, id: string) {
    id in candidates && forall c :: c in candidates ==> NotLater(jobs, id, c)
  }

  lemma SomeIsFirst(jobs: Jobs, candidates: set<string>)
    requires candidates != {}
    ensures exists id :: IsFirst(jobs, candidates, id)
  {
    var leq := (a: string, b: string) => NotLater(jobs, a, b);
    Ordering.SomeFirst(candidates, leq);
    var id :| Ordering.First(candidates, leq, id);
    assert forall c :: c in candidates ==> leq(id, c);
    assert IsFirst(jobs, candidates, id);
  }

  function Candidates(jobs: Jobs, now: int, locked: set<string>): set<string> {
    set id | id in jobs && id !in locked && Ready(jobs, id, now)
  }

  class OutboxJobRepository {
    var jobs: Jobs

    constructor (jobs: Jobs)
      ensures this.jobs == jobs
    {
      this.jobs := jobs;
    }

    /** Leases the first ready job that no other transaction has locked. */
    method LeaseNext(workerId: string, leaseMs: int, now: int, locked: set<string>)
      returns (result: Result<Option<(string, Job)>, Error>)
      modifies this
      ensures leaseMs <= 0 ==> result == Err(NotPositive("leaseMs"))
      ensures leaseMs > 0 && IsBlank(workerId) ==> result == Err(BlankWorker)
      ensures result.Err? ==> (leaseMs <= 0 || IsBlank(workerId)) && jobs == old(jobs)
      ensures result.Ok? ==>
                (result.value.None? <==> forall id :: id in old(jobs) && Ready(old(jobs), id, now) ==> id in locked)
      ensures result.Ok? && result.value.None? ==> jobs == old(jobs)
      ensures result.Ok? && result.value.Some? ==>
                var (id, row) := result.value.value;
                && Ready(old(jobs), id, now) && id !in locked
                && (forall other :: other in old(jobs) && Ready(old(jobs), other, now) && other !in locked ==>
                      var first, second := old(jobs)[id], old(jobs)[other];
                      || first.availableAt < second.availableAt
                      || (first.availableAt == second.availableAt && first.createdAt <= second.createdAt))
                && jobs == AfterLease(old(jobs), id, workerId, leaseMs, now)
                && row == jobs[id] && Owns(jobs, id, workerId)
    {
      if leaseMs <= 0 {
        return Err(NotPositive("leaseMs"));
      }
      if IsBlank(workerId) {
        return Err(BlankWorker);
      }
      var candidates := Candidates(jobs, now, locked);
      assert forall id :: id in jobs && Ready(jobs, id, now) && id !in locked ==> id in candidates;
      if candidates == {} {
        return Ok(None);
      }
      SomeIsFirst(jobs, candidates);
      var id :| id in candidates && forall c :: c in candidates ==> NotLater(jobs, id, c);
      assert forall c :: c in jobs && Ready(jobs, c, now) && c !in locked ==> NotLater(jobs, id, c);
      var row := jobs[id];
      row := row.(status := Leased, leaseOwner := Some(workerId));
      row := row.(leaseExpiresAt := Some(now + leaseMs), attempts := row.attempts + 1);
      jobs := jobs[id := row];
      return Ok(Some((id, row)));
    }

    method Complete(id: string, workerId: string) returns (completed: bool)
      modifies this
      ensures completed == Owns(old(jobs), id, workerId)
      ensures jobs == AfterComplete(old(jobs), id, workerId)
    {
      completed := Owns(jobs, id, workerId);
      if completed {
        jobs := jobs[id := jobs[id].(status := Completed, leaseOwner := None, leaseExpiresAt := None)];
      }
    }

    /** The select and the update of `fail`, undisturbed. */
    method Fail(id: string, workerId: string, base: int, cap: int, now: int)
      returns (result: Result<FailOutcome, Error>)
      modifies this
      ensures result.Err? <==> Owns(old(jobs), id, workerId) && (base <= 0 || cap <= 0)
      ensures result.Err? ==> result.error == NotPositive(if base <= 0 then "baseBackoffMs" else "maxBackoffMs")
      ensures result.Err? || !Owns(old(jobs), id, workerId) ==> jobs == old(jobs)
      ensures result.Ok? && !Owns(old(jobs), id, workerId) ==> result.value == NotOwned
      ensures result.Ok? && base > 0 && cap > 0 ==>
                (jobs, result.value) == FailAtOnce(old(jobs), id, workerId, now, base, cap)
    {
      if !Owns(jobs, id, workerId) {
        return Ok(NotOwned);
      }
      var job := jobs[id];
      var dead := job.attempts >= job.maxAttempts;
      if base <= 0 {
        return Err(NotPositive("baseBackoffMs"));
      }
      if cap <= 0 {
        return Err(NotPositive("maxBackoffMs"));
      }
      var delay := Delay(job.attempts, base, cap);
      jobs := jobs[id := job.(status := if dead then Dead else Waiting,
                              availableAt := if dead then now else now + delay,
                              leaseOwner := None,
                              leaseExpiresAt := None)];
      return Ok(if dead then MarkedDead else BackToWaiting);
    }
  }
}
