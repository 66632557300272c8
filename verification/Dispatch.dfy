/**
 * The worker loop of apps/worker/src/jobs/delivery-dispatch.ts, run by any number of worker ids at once over
 * the delivery tables and the outbox. A worker id has one live call; between two database calls anything
 * else may happen, a call's answer may be lost after it took effect, and a worker may crash anywhere.
 */
module Dispatch {
  import opened Wrappers
  import D = Deliveries
  import R = DeliveryRuns
  import J = OutboxJobs
  import JR = JobRuns
  import S = DeliverySafety

  /** Where a worker's call stands. */
  datatype Pc =
    | Idle
    | Dispatching(id: string, attempt: nat)
    | Completing(id: string, attempt: nat)
    | Failing(id: string, attempt: nat, terminal: bool)
    | FailingWrite
    | Polling
    | Routing(job: string, attempts: nat)
    | Finishing(job: string, attempts: nat)
    | JobFailing(job: string, attempts: nat)
    | JobFailingWrite(job: string, attempts: nat, snapshot: J.Snapshot, now: int)

  datatype State = State(sys: R.System, jobs: J.Jobs, pcs: map<string, Pc>)

  datatype Step =
    | LeaseDelivery(w: string, id: string, kinds: set<D.Kind>, leaseMs: nat, now: int)
    | SeesNoDelivery(w: string)
    | Accepted(w: string)
    | Refused(w: string, terminal: bool)
    | CompleteDelivery(w: string, now: int, lost: bool)
    | ReadFail(w: string, now: int)
    | WriteFail(w: string)
    | LeaseJob(w: string, job: string, leaseMs: nat, now: int)
    | SeesNoJob(w: string)
    | Materialize(w: string, owner: Option<string>, keys: map<string, string>, now: int, lost: bool)
    | MaterializeFails(w: string)
    | CompleteJob(w: string, lost: bool)
    | ReadJobFail(w: string, now: int)
    | WriteJobFail(w: string)
    | Crash(w: string)
    | Outside(step: R.Step)
    | EnqueueJob(id: string, eventId: string, now: int)

  function PcOf(d: State, w: string): Pc {
    if w in d.pcs then d.pcs[w] else Idle
  }

  /** The step of the delivery protocol that this step performs. */
  function Inner(d: State, step: Step): R.Step {
    match step
    case LeaseDelivery(w, id, kinds, leaseMs, now) => R.LeaseStep(id, w, kinds, leaseMs, now)
    case CompleteDelivery(w, now, _) =>
      (match PcOf(d, w)
       case Completing(id, attempt) => R.CompleteStep(id, w, attempt, now)
       case _ => R.Stutter)
    case ReadFail(w, now) =>
      (match PcOf(d, w)
       case Failing(id, attempt, terminal) =>
         R.StartFail(w, D.FailCall(id, w, attempt, terminal, now, D.DEFAULT_BASE_BACKOFF_MS, D.DEFAULT_MAX_BACKOFF_MS))
       case _ => R.Stutter)
    case WriteFail(w) => R.FinishFail(w)
    case Materialize(w, owner, keys, now, _) =>
      (match PcOf(d, w)
       case Routing(job, _) =>
         if job in d.jobs && owner.Some? then R.MaterializeStep(d.jobs[job].eventId, owner.value, keys, now)
         else R.Stutter
       case _ => R.Stutter)
    case Crash(w) => if w in d.sys.failing then R.AbandonFail(w) else R.Stutter
    case Outside(inner) => inner
    case _ => R.Stutter
  }

  ghost predicate Enabled(d: State, step: Step) {
    && R.Enabled(d.sys, Inner(d, step))
    && match step
       case LeaseDelivery(w, _, _, _, _) => PcOf(d, w).Idle?
       case SeesNoDelivery(w) => PcOf(d, w).Idle?
       case Accepted(w) => PcOf(d, w).Dispatching?
       case Refused(w, _) => PcOf(d, w).Dispatching?
       case CompleteDelivery(w, _, _) => PcOf(d, w).Completing?
       case ReadFail(w, _) => PcOf(d, w).Failing?
       case WriteFail(w) => PcOf(d, w).FailingWrite?
       case LeaseJob(w, job, _, now) => PcOf(d, w).Polling? && J.Ready(d.jobs, job, now)
       case SeesNoJob(w) => PcOf(d, w).Polling?
       case Materialize(w, _, _, _, _) => PcOf(d, w).Routing? && PcOf(d, w).job in d.jobs
       case MaterializeFails(w) => PcOf(d, w).Routing?
       case CompleteJob(w, _) => PcOf(d, w).Finishing?
       case ReadJobFail(w, _) => PcOf(d, w).JobFailing?
       case WriteJobFail(w) => PcOf(d, w).JobFailingWrite?
       case Crash(_) => true
       case Outside(inner) => inner.ReplayStep? || inner.TestStep? || inner.EditSubscriptions? || inner.Publish?
       case EnqueueJob(id, eventId, _) => id !in d.jobs && eventId in d.sys.tables.events
  }

  /** The worker's next control point. */
  function NextPc(d: State, step: Step): Pc
    requires Enabled(d, step) && !step.Outside? && !step.EnqueueJob?
  {
    var pc := PcOf(d, step.w);
    match step
    case LeaseDelivery(_, id, _, _, _) => Dispatching(id, d.sys.tables.deliveries[id].attemptCount + 1)
    case SeesNoDelivery(_) => Polling
    case Accepted(_) => Completing(pc.id, pc.attempt)
    case Refused(_, terminal) => Failing(pc.id, pc.attempt, terminal)
    // `complete` returned true, or it threw DeliveryLeaseOwnershipError or lost its answer.
    case CompleteDelivery(w, _, lost) =>
      if D.Holds(d.sys.tables, pc.id, w, pc.attempt) && !lost then Idle else Failing(pc.id, pc.attempt, false)
    case ReadFail(w, _) => if D.FailRead(d.sys.tables, pc.id, w).None? then Idle else FailingWrite
    case WriteFail(_) => Idle
    case LeaseJob(_, job, _, _) => Routing(job, d.jobs[job].attempts + 1)
    case SeesNoJob(_) => Idle
    case Materialize(_, _, _, _, lost) =>
      if lost then JobFailing(pc.job, pc.attempts) else Finishing(pc.job, pc.attempts)
    case MaterializeFails(_) => JobFailing(pc.job, pc.attempts)
    case CompleteJob(w, lost) => if J.Owns(d.jobs, pc.job, w) && !lost then Idle else JobFailing(pc.job, pc.attempts)
    case ReadJobFail(w, now) =>
      (match J.FailRead(d.jobs, pc.job, w)
       case None => Idle
       case Some(snapshot) => JobFailingWrite(pc.job, pc.attempts, snapshot, now))
    case WriteJobFail(_) => Idle
    case Crash(_) => Idle
  }

  function NextJobs(d: State, step: Step): J.Jobs
    requires Enabled(d, step)
  {
    match step
    case LeaseJob(w, job, leaseMs, now) => J.AfterLease(d.jobs, job, w, leaseMs, now)
    case CompleteJob(w, _) => J.AfterComplete(d.jobs, PcOf(d, w).job, w)
    case WriteJobFail(w) =>
      var pc := PcOf(d, w);
      J.AfterFail(d.jobs, pc.job, w, pc.snapshot, pc.now, D.DEFAULT_BASE_BACKOFF_MS, D.DEFAULT_MAX_BACKOFF_MS)
    case EnqueueJob(id, eventId, now) => d.jobs[id := J.NewJob(eventId, now)]
    case _ => d.jobs
  }

  function Next(d: State, step: Step): State
    requires Enabled(d, step)
  {
    State(R.Next(d.sys, Inner(d, step)),
          NextJobs(d, step),
          if step.Outside? || step.EnqueueJob? then d.pcs else d.pcs[step.w := NextPc(d, step)])
  }

  ghost predicate Initial(d: State) {
    R.Initial(d.sys) && d.jobs == map[] && d.pcs == map[]
  }

  /** Step i leads from state i to state i + 1. */
  ghost predicate StepAt(states: seq<State>, steps: seq<Step>, i: nat)
    requires i < |steps| < |states|
  {
    Enabled(states[i], steps[i]) && states[i + 1] == Next(states[i], steps[i])
  }

  ghost predicate Run(states: seq<State>, steps: seq<Step>) {
    |states| == |steps| + 1 && Initial(states[0]) && forall i :: 0 <= i < |steps| ==> StepAt(states, steps, i)
  }

  lemma RunStep(states: seq<State>, steps: seq<Step>, i: nat)
    requires Run(states, steps) && i < |steps|
    ensures Enabled(states[i], steps[i]) && states[i + 1] == Next(states[i], steps[i])
  {
    assert StepAt(states, steps, i);
  }

  // ---- the invariant ----

  ghost predicate JobOk(d: State, id: string)
    requires id in d.jobs
  {
    var j := d.jobs[id];
    && j.attempts <= j.maxAttempts && j.maxAttempts == J.DEFAULT_MAX_ATTEMPTS
    && (j.status == J.Leased <==> j.leaseOwner.Some?) && (j.leaseOwner.Some? <==> j.leaseExpiresAt.Some?)
    && (j.status == J.Waiting ==> j.attempts < j.maxAttempts)
    && j.eventId in d.sys.tables.events
  }

  /** If the worker's lease on the job is still the current one, the row says what the worker was told. */
  ghost predicate HoldsJob(d: State, w: string, job: string, attempts: nat) {
    job in d.jobs && (J.Owns(d.jobs, job, w) ==> d.jobs[job].attempts == attempts)
  }

  ghost predicate PcOk(d: State, w: string, pc: Pc) {
    && (w in d.sys.failing <==> pc.FailingWrite?)
    && (w in d.sys.failing ==>
          var open := d.sys.failing[w];
          open.call.worker == w && open.call.attempt <= open.snapshot.attemptCount)
    && match pc
       case Dispatching(id, attempt) => R.Grant(id, w, attempt) in d.sys.granted
       case Completing(id, attempt) => R.Grant(id, w, attempt) in d.sys.granted
       case Failing(id, attempt, _) => R.Grant(id, w, attempt) in d.sys.granted
       case Routing(job, attempts) => HoldsJob(d, w, job, attempts)
       case Finishing(job, attempts) => HoldsJob(d, w, job, attempts)
       case JobFailing(job, attempts) => HoldsJob(d, w, job, attempts)
       case JobFailingWrite(job, attempts, snapshot, _) =>
         HoldsJob(d, w, job, attempts)
         && (J.Owns(d.jobs, job, w) ==> J.FailRead(d.jobs, job, w) == Some(snapshot))
       case _ => true
  }

  ghost predicate Inv(d: State) {
    && R.Inv(d.sys)
    && (forall id :: id in d.jobs ==> JobOk(d, id))
    && (forall w :: PcOk(d, w, PcOf(d, w)))
  }

  // ---- preservation ----

  lemma EventsStay(s: R.System, step: R.Step)
    requires R.Enabled(s, step)
    ensures s.tables.events.Keys <= R.Next(s, step).tables.events.Keys
  {}

  /** What a step may do to one job row. */
  lemma JobStep(d: State, step: Step, id: string)
    requires Enabled(d, step) && id in d.jobs && JobOk(d, id)
    requires step.CompleteJob? || step.WriteJobFail? ==> PcOk(d, step.w, PcOf(d, step.w))
    ensures id in NextJobs(d, step)
    ensures var j, k := d.jobs[id], NextJobs(d, step)[id];
            && k.eventId == j.eventId && k.maxAttempts == j.maxAttempts && k.attempts <= k.maxAttempts
            && (k.status == J.Leased <==> k.leaseOwner.Some?) && (k.leaseOwner.Some? <==> k.leaseExpiresAt.Some?)
            && (k.status == J.Waiting ==> k.attempts < k.maxAttempts)
  {}

  lemma StepKeepsJob(d: State, step: Step, id: string)
    requires Inv(d) && Enabled(d, step) && id in Next(d, step).jobs
    ensures JobOk(Next(d, step), id)
  {
    EventsStay(d.sys, Inner(d, step));
    var e := Next(d, step);
    assert e.jobs == NextJobs(d, step);
    if id in d.jobs {
      assert JobOk(d, id);
      if step.CompleteJob? || step.WriteJobFail? {
        assert PcOk(d, step.w, PcOf(d, step.w));
      }
      JobStep(d, step, id);
    } else {
      assert step.EnqueueJob?;
    }
  }

  /** A job row that is still leased by `w` after the step was left alone by it, unless `w` just leased it. */
  lemma OwnedJobStands(d: State, step: Step, job: string, w: string)
    requires Enabled(d, step) && job in d.jobs
    ensures job in Next(d, step).jobs && Next(d, step).jobs[job].eventId == d.jobs[job].eventId
    ensures J.Owns(Next(d, step).jobs, job, w) && !(step.LeaseJob? && step.w == w && step.job == job) ==>
              J.Owns(d.jobs, job, w) && Next(d, step).jobs[job] == d.jobs[job]
  {}

  lemma OthersStand(d: State, step: Step, v: string)
    requires Enabled(d, step) && (step.Outside? || step.EnqueueJob? || step.w != v)
    ensures var e := Next(d, step);
            && PcOf(e, v) == PcOf(d, v) && d.sys.granted <= e.sys.granted
            && (v in d.sys.failing <==> v in e.sys.failing)
            && (v in d.sys.failing ==> e.sys.failing[v] == d.sys.failing[v])
  {}

  /** The calls of the other workers are undisturbed. */
  lemma BystanderOk(d: State, step: Step, v: string)
    requires Enabled(d, step) && PcOk(d, v, PcOf(d, v)) && (step.Outside? || step.EnqueueJob? || step.w != v)
    ensures PcOk(Next(d, step), v, PcOf(Next(d, step), v))
  {
    var pc := PcOf(d, v);
    OthersStand(d, step, v);
    if pc.Routing? || pc.Finishing? || pc.JobFailing? || pc.JobFailingWrite? {
      OwnedJobStands(d, step, pc.job, v);
    }
  }

  lemma LeaseDeliveryOk(d: State, step: Step)
    requires Enabled(d, step) && step.LeaseDelivery? && PcOk(d, step.w, PcOf(d, step.w))
    ensures PcOk(Next(d, step), step.w, PcOf(Next(d, step), step.w))
  {
  }

  lemma EndDeliveryOk(d: State, step: Step)
    requires Enabled(d, step) && (step.SeesNoDelivery? || step.Accepted? || step.Refused? || step.CompleteDelivery?)
    requires PcOk(d, step.w, PcOf(d, step.w))
    ensures PcOk(Next(d, step), step.w, PcOf(Next(d, step), step.w))
  {
    assert Next(d, step).sys.granted == d.sys.granted && Next(d, step).sys.failing == d.sys.failing;
  }

  lemma FailDeliveryOk(d: State, step: Step)
    requires Enabled(d, step) && (step.ReadFail? || step.WriteFail? || step.Crash?) && PcOk(d, step.w, PcOf(d, step.w))
    requires R.GrantsOk(d.sys)
    ensures PcOk(Next(d, step), step.w, PcOf(Next(d, step), step.w))
  {
    var pc := PcOf(d, step.w);
    if step.ReadFail? {
      assert R.GrantOk(d.sys.tables, R.Grant(pc.id, step.w, pc.attempt));
    }
  }

  predicate MovesJob(step: Step) {
    step.LeaseJob? || step.SeesNoJob? || step.Materialize? || step.MaterializeFails? || step.CompleteJob?
    || step.ReadJobFail? || step.WriteJobFail?
  }

  /** The steps of the outbox branch leave the delivery side of the worker's call alone. */
  lemma JobStepAside(d: State, step: Step)
    requires Enabled(d, step) && MovesJob(step)
    ensures Next(d, step).sys.failing == d.sys.failing
    ensures !PcOf(d, step.w).FailingWrite? && !PcOf(Next(d, step), step.w).FailingWrite?
  {}

  lemma MoverJobOk(d: State, step: Step)
    requires Enabled(d, step) && MovesJob(step) && PcOk(d, step.w, PcOf(d, step.w))
    ensures PcOk(Next(d, step), step.w, PcOf(Next(d, step), step.w))
  {
    var pc := PcOf(d, step.w);
    JobStepAside(d, step);
    if pc.Routing? || pc.Finishing? || pc.JobFailing? || pc.JobFailingWrite? {
      OwnedJobStands(d, step, pc.job, step.w);
    }
  }

  lemma StepKeepsInv(d: State, step: Step)
    requires Inv(d) && Enabled(d, step)
    ensures Inv(Next(d, step))
  {
    R.StepKeepsInv(d.sys, Inner(d, step));
    forall id | id in Next(d, step).jobs ensures JobOk(Next(d, step), id) {
      StepKeepsJob(d, step, id);
    }
    forall v ensures PcOk(Next(d, step), v, PcOf(Next(d, step), v)) {
      assert PcOk(d, v, PcOf(d, v));
      if step.Outside? || step.EnqueueJob? || step.w != v {
        BystanderOk(d, step, v);
      } else if MovesJob(step) {
        MoverJobOk(d, step);
      } else if step.LeaseDelivery? {
        LeaseDeliveryOk(d, step);
      } else if step.ReadFail? || step.WriteFail? || step.Crash? {
        FailDeliveryOk(d, step);
      } else {
        EndDeliveryOk(d, step);
      }
    }
  }

  lemma {:induction false} RunInv(states: seq<State>, steps: seq<Step>, i: nat)
    requires Run(states, steps) && i < |states|
    ensures Inv(states[i])
  {
    if i > 0 {
      RunInv(states, steps, i - 1);
      RunStep(states, steps, i - 1);
      StepKeepsInv(states[i - 1], steps[i - 1]);
    }
  }

  // ---- what holds of every run ----

  function Systems(states: seq<State>): (systems: seq<R.System>)
    ensures |systems| == |states|
  {
    seq(|states|, i requires 0 <= i < |states| => states[i].sys)
  }

  function InnerSteps(states: seq<State>, steps: seq<Step>): (inner: seq<R.Step>)
    requires |states| == |steps| + 1
    ensures |inner| == |steps|
  {
    seq(|steps|, i requires 0 <= i < |steps| => Inner(states[i], steps[i]))
  }

  lemma StepRefines(d: State, step: Step)
    requires Enabled(d, step)
    ensures R.Enabled(d.sys, Inner(d, step)) && Next(d, step).sys == R.Next(d.sys, Inner(d, step))
  {}

  lemma RefinesAt(states: seq<State>, steps: seq<Step>, i: nat)
    requires Run(states, steps) && i < |steps|
    ensures R.Enabled(Systems(states)[i], InnerSteps(states, steps)[i])
    ensures Systems(states)[i + 1] == R.Next(Systems(states)[i], InnerSteps(states, steps)[i])
  {
    RunStep(states, steps, i);
    StepRefines(states[i], steps[i]);
  }

  /** The workers implement the delivery protocol, so everything in DeliverySafety holds of them. */
  lemma RefinesDeliveryRuns(states: seq<State>, steps: seq<Step>)
    requires Run(states, steps)
    ensures R.Run(Systems(states), InnerSteps(states, steps))
  {
    var systems, inner := Systems(states), InnerSteps(states, steps);
    assert R.Initial(systems[0]) by { assert Initial(states[0]); }
    forall i | 0 <= i < |inner| ensures R.StepAt(systems, inner, i) {
      RefinesAt(states, steps, i);
    }
  }

  /** The step routes event `eventId` in state `d`. */
  ghost predicate Materializes(d: State, step: Step, eventId: string) {
    && step.Materialize? && PcOf(d, step.w).Routing? && PcOf(d, step.w).job in d.jobs
    && d.jobs[PcOf(d, step.w).job].eventId == eventId
  }

  lemma {:induction false} RoutedForever(
    states: seq<State>, steps: seq<Step>, i: nat, j: nat, s: string, eventId: string)
    requires Run(states, steps) && i <= j < |states| && D.Routed(states[i].sys.tables, s, eventId)
    ensures D.Routed(states[j].sys.tables, s, eventId)
    decreases j
  {
    if i < j {
      RoutedForever(states, steps, i, j - 1, s, eventId);
      RunStep(states, steps, j - 1);
      var t := states[j - 1].sys.tables;
      var id :| id in t.deliveries && t.deliveries[id].subscriptionId == s && t.deliveries[id].eventId == eventId;
      R.RowChanges(states[j - 1].sys, Inner(states[j - 1], steps[j - 1]), id);
    }
  }

  /** Right after a materialize every matching route has its delivery. */
  lemma MaterializeRoutes(d: State, step: Step, eventId: string, s: string)
    requires Enabled(d, step) && Materializes(d, step, eventId) && step.owner.Some?
    requires eventId in d.sys.tables.events
    requires s in D.MatchingRoutes(d.sys.tables, step.owner.value, d.sys.tables.events[eventId].eventType)
    ensures D.Routed(Next(d, step).sys.tables, s, eventId)
  {
    var t, u := d.sys.tables, D.InsertDeliveries(d.sys.tables, step.keys, eventId, step.now);
    assert Next(d, step).sys.tables == u;
    if D.Routed(t, s, eventId) {
      var id :| id in t.deliveries && t.deliveries[id].subscriptionId == s && t.deliveries[id].eventId == eventId;
      assert id !in step.keys && u.deliveries[id] == t.deliveries[id];
    } else {
      assert s in step.keys.Values;
      var k :| k in step.keys && step.keys[k] == s;
      assert u.deliveries[k] == D.NewDelivery(s, eventId, step.now);
    }
  }

  /** In state `d` the step routes `eventId` and subscription `s` is among the routes it matches. */
  ghost predicate Matches(d: State, step: Step, eventId: string, s: string) {
    && Materializes(d, step, eventId) && step.owner.Some? && eventId in d.sys.tables.events
    && s in D.MatchingRoutes(d.sys.tables, step.owner.value, d.sys.tables.events[eventId].eventType)
  }

  lemma MatchedStaysRouted(states: seq<State>, steps: seq<Step>, m: nat, i: nat, eventId: string, s: string)
    requires Run(states, steps) && m < i < |states| && Matches(states[m], steps[m], eventId, s)
    ensures D.Routed(states[i].sys.tables, s, eventId)
  {
    RunStep(states, steps, m);
    MaterializeRoutes(states[m], steps[m], eventId, s);
    RoutedForever(states, steps, m + 1, i, s, eventId);
  }

  ghost predicate FinishesJob(d: State, step: Step, job: string) {
    step.CompleteJob? && PcOf(d, step.w).Finishing? && PcOf(d, step.w).job == job && J.Owns(d.jobs, job, step.w)
  }

  /**
   * Step c completes the job under a lease whose holder routed the job's event at step m < c: the same worker id, with
   * the same attempt in hand, the one the row carries, and nothing else in between.
   */
  ghost predicate RoutedAndFinished(states: seq<State>, steps: seq<Step>, m: nat, c: nat, job: string)
    requires m < c < |steps| < |states|
  {
    && FinishesJob(states[c], steps[c], job) && steps[m].Materialize? && steps[m].w == steps[c].w
    && var attempts := states[c].jobs[job].attempts;
       && PcOf(states[m], steps[c].w) == Routing(job, attempts)
       && (forall k :: m < k <= c ==> PcOf(states[k], steps[c].w) == Finishing(job, attempts))
       && Materializes(states[m], steps[m], states[c].jobs[job].eventId)
  }

  lemma {:induction false} CompletedWhen(states: seq<State>, steps: seq<Step>, i: nat, job: string) returns (c: nat)
    requires Run(states, steps) && i < |states| && job in states[i].jobs && states[i].jobs[job].status == J.Completed
    ensures c < i && FinishesJob(states[c], steps[c], job) && states[c].jobs[job].eventId == states[i].jobs[job].eventId
  {
    RunStep(states, steps, i - 1);
    if job in states[i - 1].jobs && states[i - 1].jobs[job].status == J.Completed {
      CompletedJobIsFinal(states, steps, i - 1, i, job);
      c := CompletedWhen(states, steps, i - 1, job);
    } else {
      c := i - 1;
    }
  }

  /** A worker about to complete a job has routed its event under the same lease, and done nothing since. */
  lemma {:induction false} RoutedWhen(
    states: seq<State>, steps: seq<Step>, i: nat, w: string, job: string, attempts: nat)
    returns (m: nat)
    requires Run(states, steps) && i < |states| && PcOf(states[i], w) == Finishing(job, attempts)
    ensures m < i && steps[m].Materialize? && steps[m].w == w && PcOf(states[m], w) == Routing(job, attempts)
    ensures forall k :: m < k <= i ==> PcOf(states[k], w) == Finishing(job, attempts)
  {
    RunStep(states, steps, i - 1);
    if PcOf(states[i - 1], w) == Finishing(job, attempts) {
      m := RoutedWhen(states, steps, i - 1, w, job, attempts);
    } else {
      m := i - 1;
    }
  }

  lemma {:induction false} EventOfJobStays(states: seq<State>, steps: seq<Step>, i: nat, j: nat, job: string)
    requires Run(states, steps) && i <= j < |states| && job in states[i].jobs
    ensures job in states[j].jobs && states[j].jobs[job].eventId == states[i].jobs[job].eventId
    decreases j
  {
    if i < j {
      EventOfJobStays(states, steps, i, j - 1, job);
      RunStep(states, steps, j - 1);
      OwnedJobStands(states[j - 1], steps[j - 1], job, "");
    }
  }

  lemma FinishedAfterRouting(states: seq<State>, steps: seq<Step>, c: nat, job: string) returns (m: nat)
    requires Run(states, steps) && c < |steps| && FinishesJob(states[c], steps[c], job)
    ensures m < c && RoutedAndFinished(states, steps, m, c, job)
  {
    var w := steps[c].w;
    var pc := PcOf(states[c], w);
    RunInv(states, steps, c);
    assert PcOk(states[c], w, pc);
    m := RoutedWhen(states, steps, c, w, job, pc.attempts);
    RunStep(states, steps, m);
    EventOfJobStays(states, steps, m, c, job);
  }

  /** No job is completed but by a lease holder that routed the job's event first, under that very lease. */
  lemma CompletedIsMaterialized(states: seq<State>, steps: seq<Step>, i: nat, job: string)
    requires Run(states, steps) && i < |states| && job in states[i].jobs && states[i].jobs[job].status == J.Completed
    ensures exists m: nat, c: nat ::
              m < c < i && RoutedAndFinished(states, steps, m, c, job)
              && Materializes(states[m], steps[m], states[i].jobs[job].eventId)
  {
    var c := CompletedWhen(states, steps, i, job);
    var m := FinishedAfterRouting(states, steps, c, job);
  }

  ghost predicate RoutedOnce(t: D.Tables, s: string, eventId: string) {
    exists id :: id in t.deliveries && t.deliveries[id].subscriptionId == s && t.deliveries[id].eventId == eventId
                 && (forall other ::
                       (other in t.deliveries && t.deliveries[other].subscriptionId == s
                         && t.deliveries[other].eventId == eventId)
                       ==> other == id)
  }

  /**
   * Exactly-once routing over at-least-once jobs: a completed job's event was routed by the lease holder that
   * completed it, and every route that matched at any materialize of an event, whichever worker ran it and whatever
   * crashed afterwards, has one delivery row and one only from then on.
   */
  lemma ExactlyOnceRouting(states: seq<State>, steps: seq<Step>, i: nat)
    requires Run(states, steps) && i < |states|
    ensures forall job :: job in states[i].jobs && states[i].jobs[job].status == J.Completed ==>
                            exists m: nat, c: nat :: m < c < i && RoutedAndFinished(states, steps, m, c, job)
    ensures forall m: nat, eventId, s :: m < i && Matches(states[m], steps[m], eventId, s) ==>
                                           RoutedOnce(states[i].sys.tables, s, eventId)
  {
    forall job | job in states[i].jobs && states[i].jobs[job].status == J.Completed
      ensures exists m: nat, c: nat :: m < c < i && RoutedAndFinished(states, steps, m, c, job)
    {
      CompletedIsMaterialized(states, steps, i, job);
    }
    forall m: nat, eventId, s | m < i && Matches(states[m], steps[m], eventId, s)
      ensures RoutedOnce(states[i].sys.tables, s, eventId)
    {
      MatchedStaysRouted(states, steps, m, i, eventId, s);
      RunInv(states, steps, i);
      UniqueWhenRouted(states[i].sys.tables, s, eventId);
    }
  }

  lemma UniqueWhenRouted(t: D.Tables, s: string, eventId: string)
    requires R.UniqueRoutes(t) && D.Routed(t, s, eventId)
    ensures RoutedOnce(t, s, eventId)
  {
    var id :| id in t.deliveries && t.deliveries[id].subscriptionId == s && t.deliveries[id].eventId == eventId;
    forall other | other in t.deliveries && t.deliveries[other].subscriptionId == s
      && t.deliveries[other].eventId == eventId
      ensures other == id
    {
      assert R.SameRoute(t.deliveries[other], t.deliveries[id]);
    }
  }

  // ---- the outbox lease ----

  lemma {:induction false} CompletedJobIsFinal(states: seq<State>, steps: seq<Step>, i: nat, j: nat, job: string)
    requires Run(states, steps) && i <= j < |states|
    requires job in states[i].jobs && states[i].jobs[job].status == J.Completed
    ensures job in states[j].jobs && states[j].jobs[job] == states[i].jobs[job]
    decreases j
  {
    if i < j {
      CompletedJobIsFinal(states, steps, i, j - 1, job);
      RunStep(states, steps, j - 1);
    }
  }

  /**
   * With one live call per worker id the outbox lease is a real fence although it checks the worker id only:
   * whoever completes a job holds its latest lease, and a job is completed at most once.
   */
  lemma OutboxFence(states: seq<State>, steps: seq<Step>, i: nat, j: nat, job: string)
    requires Run(states, steps) && i < |steps| && j < |steps|
    requires FinishesJob(states[i], steps[i], job) && FinishesJob(states[j], steps[j], job)
    ensures states[i].jobs[job].attempts == PcOf(states[i], steps[i].w).attempts
    ensures i == j
  {
    RunInv(states, steps, i);
    assert PcOk(states[i], steps[i].w, PcOf(states[i], steps[i].w));
    var first, last := if i < j then i else j, if i < j then j else i;
    if first < last {
      RunStep(states, steps, first);
      CompletedJobIsFinal(states, steps, first + 1, last, job);
    }
  }

  /** The two statements of the outbox `fail` act as one, whatever runs between them. */
  lemma JobFailIsAtomic(states: seq<State>, steps: seq<Step>, i: nat)
    requires Run(states, steps) && i < |steps| && steps[i].WriteJobFail?
    ensures var pc := PcOf(states[i], steps[i].w);
            && pc.JobFailingWrite?
            && J.FailAtOnce(states[i].jobs, pc.job, steps[i].w, pc.now, D.DEFAULT_BASE_BACKOFF_MS,
                            D.DEFAULT_MAX_BACKOFF_MS)
               == (states[i + 1].jobs, J.AfterFailOutcome(states[i].jobs, pc.job, steps[i].w, pc.snapshot))
  {
    RunStep(states, steps, i);
    RunInv(states, steps, i);
    assert PcOk(states[i], steps[i].w, PcOf(states[i], steps[i].w));
    JobFailActsAtOnce(states[i], steps[i].w, PcOf(states[i], steps[i].w));
  }

  lemma JobFailActsAtOnce(d: State, w: string, pc: Pc)
    requires pc.JobFailingWrite? && PcOk(d, w, pc)
    ensures var base, cap := D.DEFAULT_BASE_BACKOFF_MS, D.DEFAULT_MAX_BACKOFF_MS;
            J.FailAtOnce(d.jobs, pc.job, w, pc.now, base, cap)
            == (J.AfterFail(d.jobs, pc.job, w, pc.snapshot, pc.now, base, cap),
                J.AfterFailOutcome(d.jobs, pc.job, w, pc.snapshot))
  {}

  // ---- the outbox side of the workers ----

  /** The step of the undisciplined outbox that this step performs. */
  function JobPart(d: State, step: Step): JR.Step
    requires Enabled(d, step)
  {
    match step
    case LeaseJob(w, job, leaseMs, now) => JR.LeaseStep(job, w, leaseMs, now)
    case CompleteJob(w, _) => JR.CompleteStep(PcOf(d, w).job, w)
    case WriteJobFail(w) =>
      var pc := PcOf(d, w);
      JR.FailStep(pc.job, w, pc.snapshot, pc.now, D.DEFAULT_BASE_BACKOFF_MS, D.DEFAULT_MAX_BACKOFF_MS)
    case EnqueueJob(id, eventId, now) => JR.EnqueueStep(id, eventId, now)
    case _ => JR.Stutter
  }

  lemma JobPartRefines(d: State, step: Step)
    requires Enabled(d, step)
    ensures JR.Enabled(d.jobs, JobPart(d, step)) && Next(d, step).jobs == JR.Next(d.jobs, JobPart(d, step))
  {}

  /** The workers' outbox steps are a run of `JobRuns`, so what is proved of it holds of them too. */
  lemma RefinesJobRuns(states: seq<State>, steps: seq<Step>) returns (tables: seq<J.Jobs>, parts: seq<JR.Step>)
    requires Run(states, steps)
    ensures JR.Run(tables, parts) && |parts| == |steps|
    ensures forall i :: 0 <= i < |states| ==> tables[i] == states[i].jobs
    ensures forall i :: 0 <= i < |steps| ==> Enabled(states[i], steps[i]) && parts[i] == JobPart(states[i], steps[i])
  {
    forall i | 0 <= i < |steps| ensures Enabled(states[i], steps[i]) {
      RunStep(states, steps, i);
    }
    tables := seq(|states|, i requires 0 <= i < |states| => states[i].jobs);
    parts := seq(|steps|, i requires 0 <= i < |steps| && Enabled(states[i], steps[i]) => JobPart(states[i], steps[i]));
    forall i | 0 <= i < |steps| ensures JR.StepAt(tables, parts, i) {
      RunStep(states, steps, i);
      JobPartRefines(states[i], steps[i]);
    }
  }

  /** The leases of the job among the first n steps. */
  function JobLeases(steps: seq<Step>, n: nat, job: string): nat
    requires n <= |steps|
  {
    if n == 0 then 0
    else JobLeases(steps, n - 1, job) + if steps[n - 1].LeaseJob? && steps[n - 1].job == job then 1 else 0
  }

  function Attempts(d: State, job: string): nat {
    if job in d.jobs then d.jobs[job].attempts else 0
  }

  lemma AttemptsStep(d: State, step: Step, job: string)
    requires Enabled(d, step)
    ensures Attempts(Next(d, step), job) == Attempts(d, job) + if step.LeaseJob? && step.job == job then 1 else 0
  {}

  lemma {:induction false} JobAttemptsAreLeases(states: seq<State>, steps: seq<Step>, n: nat, job: string)
    requires Run(states, steps) && n <= |steps|
    ensures JobLeases(steps, n, job) == Attempts(states[n], job)
  {
    if n > 0 {
      JobAttemptsAreLeases(states, steps, n - 1, job);
      RunStep(states, steps, n - 1);
      AttemptsStep(states[n - 1], steps[n - 1], job);
    }
  }

  /** No job is ever leased more often than its budget. */
  lemma JobBudget(states: seq<State>, steps: seq<Step>, n: nat, job: string)
    requires Run(states, steps) && n <= |steps|
    ensures JobLeases(steps, n, job) <= J.DEFAULT_MAX_ATTEMPTS
  {
    JobAttemptsAreLeases(states, steps, n, job);
    RunInv(states, steps, n);
    if job in states[n].jobs {
      assert JobOk(states[n], job);
    }
  }

  // ---- the workers' own `fail` calls ----

  /** A worker only ever fails the attempt it was granted, so its calls are prudent and its updates act at once. */
  lemma WorkersArePrudent(states: seq<State>, steps: seq<Step>, i: nat)
    requires Run(states, steps) && i < |steps|
    ensures S.Prudent(states[i].sys, Inner(states[i], steps[i]))
    ensures steps[i].WriteFail? ==>
              steps[i].w in states[i].sys.failing
              && var open := states[i].sys.failing[steps[i].w];
                 S.ActsAtOnce(states[i].sys.tables, open.call, open.snapshot)
  {
    RunInv(states, steps, i);
    RunStep(states, steps, i);
    StepIsPrudent(states[i], steps[i]);
    if steps[i].WriteFail? {
      assert PcOk(states[i], steps[i].w, PcOf(states[i], steps[i].w));
      assert R.OpenFailOk(states[i].sys, states[i].sys.failing[steps[i].w]);
      S.CoveredActsAtOnce(states[i].sys, states[i].sys.failing[steps[i].w]);
    }
  }

  lemma StepIsPrudent(d: State, step: Step)
    requires Enabled(d, step) && R.GrantsOk(d.sys) && forall w :: PcOk(d, w, PcOf(d, w))
    ensures S.Prudent(d.sys, Inner(d, step))
  {
    if step.ReadFail? {
      var pc := PcOf(d, step.w);
      assert PcOk(d, step.w, pc);
      assert R.GrantOk(d.sys.tables, R.Grant(pc.id, step.w, pc.attempt));
    }
  }
}
