/**
 * The delivery protocol as a transition system. Every database transaction of
 * packages/db/src/repositories/deliveries.ts is one step; `fail` is two, because its select and its
 * update are separate statements. The environment picks the interleaving, the clock, which eligible row
 * a lease returns, generated keys, the attempt numbers callers name, crashes between the two halves of
 * `fail`, edits of subscriptions and new events. `Stutter` is any other part of the system moving.
 */
module DeliveryRuns {
  import opened Arithmetic
  import opened Deliveries

  /** A lease some worker was told about. */
  datatype Grant = Grant(id: string, worker: string, attempt: nat)

  /** A `fail` call between its select and its update. */
  datatype OpenFail = OpenFail(call: FailCall, snapshot: FailSnapshot)

  datatype System = System(tables: Tables, granted: set<Grant>, failing: map<string, OpenFail>)

  datatype Step =
    | LeaseStep(id: string, worker: string, kinds: set<Kind>, leaseMs: nat, now: int)
    | CompleteStep(id: string, worker: string, attempt: nat, now: int)
    | StartFail(token: string, call: FailCall)
    | FinishFail(token: string)
    | AbandonFail(token: string)
    | ReplayStep(id: string, owner: string, additional: nat, now: int)
    | MaterializeStep(eventId: string, owner: string, keys: map<string, string>, now: int)
    | TestStep(eventId: string, owner: string, cooldownMs: nat, keys: map<string, string>, now: int)
    | EditSubscriptions(subscriptions: map<string, Subscription>)
    | Publish(eventId: string, event: Event)
    | Stutter

  ghost predicate Enabled(s: System, step: Step) {
    var t := s.tables;
    match step
    case LeaseStep(id, worker, kinds, leaseMs, now) => Eligible(t, id, kinds, now)
    case CompleteStep(_, _, _, _) => true
    // Any worker may call `fail` with any attempt number.
    case StartFail(token, _) => token !in s.failing
    case FinishFail(token) => token in s.failing
    case AbandonFail(token) => token in s.failing
    case ReplayStep(_, _, additional, _) => additional > 0
    case MaterializeStep(eventId, owner, keys, _) =>
      eventId in t.events
      && FreshKeys(t, keys, Unrouted(t, MatchingRoutes(t, owner, t.events[eventId].eventType), eventId))
    case TestStep(eventId, owner, cooldownMs, keys, now) =>
      eventId !in t.events && !CoolingDown(t, owner, now, cooldownMs) && Routes(t, owner) != {}
      && FreshKeys(t, keys, Unrouted(t, Routes(t, owner), eventId))
    // Subscriptions may change in any way, but none is dropped.
    case EditSubscriptions(subscriptions) => t.subscriptions.Keys <= subscriptions.Keys
    case Publish(eventId, event) => eventId !in t.events && event.eventType != TEST_EVENT
    case Stutter => true
  }

  function Next(s: System, step: Step): System
    requires Enabled(s, step)
  {
    var t := s.tables;
    match step
    case LeaseStep(id, worker, _, leaseMs, now) =>
      s.(tables := Lease(t, id, worker, leaseMs, now),
         granted := s.granted + {Grant(id, worker, t.deliveries[id].attemptCount + 1)})
    case CompleteStep(id, worker, attempt, now) => s.(tables := Complete(t, id, worker, attempt, now))
    case StartFail(token, call) =>
      (match FailRead(t, call.id, call.worker)
       case None => s
       case Some(snapshot) => s.(failing := s.failing[token := OpenFail(call, snapshot)]))
    case FinishFail(token) =>
      var open := s.failing[token];
      s.(tables := FailWrite(t, open.call, open.snapshot), failing := s.failing - {token})
    case AbandonFail(token) => s.(failing := s.failing - {token})
    case ReplayStep(id, owner, additional, now) => s.(tables := Replay(t, id, owner, additional, now))
    case MaterializeStep(eventId, _, keys, now) => s.(tables := InsertDeliveries(t, keys, eventId, now))
    case TestStep(eventId, owner, _, keys, now) => s.(tables := TestNotification(t, eventId, owner, keys, now))
    case EditSubscriptions(subscriptions) => s.(tables := t.(subscriptions := subscriptions))
    case Publish(eventId, event) => s.(tables := t.(events := t.events[eventId := event]))
    case Stutter => s
  }

  /** Before the first step: any subscriptions and events, no delivery yet. */
  ghost predicate Initial(s: System) {
    s.tables.deliveries == map[] && s.tables.attempts == map[] && s.granted == {} && s.failing == map[]
  }

  /** Step i leads from state i to state i + 1. */
  ghost predicate StepAt(states: seq<System>, steps: seq<Step>, i: nat)
    requires i < |steps| < |states|
  {
    Enabled(states[i], steps[i]) && states[i + 1] == Next(states[i], steps[i])
  }

  /** `states` is the run that `steps` drives from `states[0]`. */
  ghost predicate Run(states: seq<System>, steps: seq<Step>) {
    |states| == |steps| + 1 && Initial(states[0]) && forall i :: 0 <= i < |steps| ==> StepAt(states, steps, i)
  }

  lemma RunStep(states: seq<System>, steps: seq<Step>, i: nat)
    requires Run(states, steps) && i < |steps|
    ensures Enabled(states[i], steps[i]) && states[i + 1] == Next(states[i], steps[i])
  {
    assert StepAt(states, steps, i);
  }

  // ---- the ledger invariant ----

  predicate LastAttemptAgrees(status: Status, last: AttemptStatus) {
    match status
    case Pending => false
    case Delivering => last == InFlight
    case Delivered => last == Succeeded
    case Failed => last == Rejected
    case Dead => last == Rejected
  }

  /** One delivery row and its attempt rows. */
  ghost predicate RowOk(t: Tables, id: string)
    requires id in t.deliveries
  {
    var d := t.deliveries[id];
    && d.attemptCount <= d.maxAttempts && 0 < d.maxAttempts
    && (d.status == Delivering <==> d.leaseOwner.Some?)
    && (d.leaseOwner.Some? <==> d.leaseExpiresAt.Some?)
    && (d.status == Pending <==> d.attemptCount == 0)
    && (forall n: nat :: AttemptKey(id, n) in t.attempts <==> 1 <= n <= d.attemptCount)
    && (forall n: nat :: 1 <= n < d.attemptCount ==> t.attempts[AttemptKey(id, n)].status != Succeeded)
    && (d.attemptCount > 0 ==> LastAttemptAgrees(d.status, t.attempts[AttemptKey(id, d.attemptCount)].status))
  }

  ghost predicate ForeignKeys(t: Tables) {
    && (forall id :: id in t.deliveries ==>
          t.deliveries[id].subscriptionId in t.subscriptions && t.deliveries[id].eventId in t.events)
    && (forall k :: k in t.attempts ==> k.deliveryId in t.deliveries)
  }

  ghost predicate SameRoute(a: Delivery, b: Delivery) {
    a.subscriptionId == b.subscriptionId && a.eventId == b.eventId
  }

  ghost predicate UniqueRoutes(t: Tables) {
    forall a, b :: a in t.deliveries && b in t.deliveries && SameRoute(t.deliveries[a], t.deliveries[b]) ==> a == b
  }

  ghost predicate GrantOk(t: Tables, g: Grant) {
    g.id in t.deliveries && 1 <= g.attempt <= t.deliveries[g.id].attemptCount
  }

  ghost predicate SameAttempt(g: Grant, h: Grant) {
    g.id == h.id && g.attempt == h.attempt
  }

  ghost predicate GrantsOk(s: System) {
    && (forall g :: g in s.granted ==> GrantOk(s.tables, g))
    && (forall g, h :: g in s.granted && h in s.granted && SameAttempt(g, h) ==> g == h)
    && (forall id :: id in s.tables.deliveries ==> HolderGranted(s, id))
  }

  /** While the attempt that the select saw is still out, the select is not stale. */
  ghost predicate OpenFailOk(s: System, open: OpenFail) {
    var id, snapshot := open.call.id, open.snapshot;
    && id in s.tables.deliveries
    && var d := s.tables.deliveries[id];
    && snapshot.attemptCount <= d.attemptCount && snapshot.subscriptionId == d.subscriptionId
    && (d.status == Delivering && d.attemptCount == snapshot.attemptCount ==> d.maxAttempts == snapshot.maxAttempts)
  }

  ghost predicate Inv(s: System) {
    && (forall id :: id in s.tables.deliveries ==> RowOk(s.tables, id))
    && ForeignKeys(s.tables)
    && UniqueRoutes(s.tables)
    && GrantsOk(s)
    && (forall token :: token in s.failing ==> OpenFailOk(s, s.failing[token]))
  }

  // ---- how one step may change one row ----

  /** The row's attempt rows are the same in both tables. */
  ghost predicate SameAttempts(t: Tables, u: Tables, id: string) {
    forall n: nat :: (AttemptKey(id, n) in t.attempts <==> AttemptKey(id, n) in u.attempts)
                     && (AttemptKey(id, n) in t.attempts ==>
                        t.attempts[AttemptKey(id, n)] == u.attempts[AttemptKey(id, n)])
  }

  lemma RowFrame(t: Tables, u: Tables, id: string)
    requires id in t.deliveries && id in u.deliveries && t.deliveries[id] == u.deliveries[id]
    requires RowOk(t, id) && SameAttempts(t, u, id)
    ensures RowOk(u, id)
  {}

  /** Every step leaves a row alone, or leases it, or ends its current attempt, or revives it from dead. */
  datatype RowChange = Unchanged | Leased | Ended(to: Status) | Revived(additional: nat)

  ghost predicate Changes(d: Delivery, e: Delivery, how: RowChange) {
    match how
    case Unchanged => e == d
    case Leased => e.status == Delivering && e.attemptCount == d.attemptCount + 1 <= d.maxAttempts
                   && e.maxAttempts == d.maxAttempts && d.status != Delivered && d.status != Dead
                   && SameRoute(d, e) && e.leaseOwner.Some? && e.leaseExpiresAt.Some?
    case Ended(to) => d.status == Delivering && e.status == to && (to == Delivered || to == Failed || to == Dead)
                      && e.attemptCount == d.attemptCount && e.maxAttempts == d.maxAttempts
                      && SameRoute(d, e) && e.leaseOwner.None? && e.leaseExpiresAt.None?
    case Revived(additional) => d.status == Dead && e.status == Failed && e.attemptCount == d.attemptCount
                                && e.maxAttempts == Max(d.maxAttempts, d.attemptCount) + additional && additional > 0
                                && SameRoute(d, e) && e.leaseOwner == d.leaseOwner
                                   && e.leaseExpiresAt == d.leaseExpiresAt
  }

  ghost function Change(s: System, step: Step, id: string): RowChange
    requires Enabled(s, step) && id in s.tables.deliveries
  {
    var t := s.tables;
    match step
    case LeaseStep(i, _, _, _, _) => if i == id then Leased else Unchanged
    case CompleteStep(i, w, a, _) => if i == id && Holds(t, i, w, a) then Ended(Delivered) else Unchanged
    case FinishFail(token) =>
      var open := s.failing[token];
      if open.call.id == id && Holds(t, id, open.call.worker, open.call.attempt)
      then Ended(if Kills(open.call, open.snapshot) then Dead else Failed)
      else Unchanged
    case ReplayStep(i, owner, additional, _) =>
      if i == id && Replayable(t, i, owner) then Revived(additional) else Unchanged
    case _ => Unchanged
  }

  lemma RowChanges(s: System, step: Step, id: string)
    requires Enabled(s, step) && id in s.tables.deliveries
    ensures id in Next(s, step).tables.deliveries
    ensures Changes(s.tables.deliveries[id], Next(s, step).tables.deliveries[id], Change(s, step, id))
  {}

  /** A step that does not touch the row does not touch its attempts either. */
  lemma AttemptsFrame(s: System, step: Step, id: string)
    requires Enabled(s, step) && id in s.tables.deliveries && Change(s, step, id) == Unchanged
    ensures SameAttempts(s.tables, Next(s, step).tables, id)
  {}

  // ---- preservation ----

  lemma LeaseKeepsRow(t: Tables, id: string, worker: string, leaseMs: int, now: int)
    requires id in t.deliveries && RowOk(t, id)
    requires t.deliveries[id].attemptCount < t.deliveries[id].maxAttempts && t.deliveries[id].status != Delivered
    ensures RowOk(Lease(t, id, worker, leaseMs, now), id)
  {
    var n := t.deliveries[id].attemptCount;
    assert AttemptKey(id, n + 1) !in t.attempts;
    assert n > 0 ==> t.attempts[AttemptKey(id, n)].status != Succeeded;
  }

  lemma CompleteKeepsRow(t: Tables, id: string, worker: string, attempt: nat, now: int)
    requires Holds(t, id, worker, attempt) && RowOk(t, id)
    ensures RowOk(Complete(t, id, worker, attempt, now), id)
  {
    assert AttemptKey(id, attempt) in t.attempts;
  }

  lemma FailKeepsRow(t: Tables, call: FailCall, snapshot: FailSnapshot)
    requires Holds(t, call.id, call.worker, call.attempt) && RowOk(t, call.id)
    ensures RowOk(FailWrite(t, call, snapshot), call.id)
  {
    assert AttemptKey(call.id, call.attempt) in t.attempts;
  }

  lemma TouchedRowOk(s: System, step: Step, id: string)
    requires Enabled(s, step) && id in s.tables.deliveries && RowOk(s.tables, id) && Change(s, step, id) != Unchanged
    ensures RowOk(Next(s, step).tables, id)
  {
    match step
    case LeaseStep(_, worker, _, leaseMs, now) => LeaseKeepsRow(s.tables, id, worker, leaseMs, now);
    case CompleteStep(_, worker, attempt, now) => CompleteKeepsRow(s.tables, id, worker, attempt, now);
    case FinishFail(token) => FailKeepsRow(s.tables, s.failing[token].call, s.failing[token].snapshot);
    case _ =>
  }

  lemma StepKeepsRows(s: System, step: Step)
    requires Inv(s) && Enabled(s, step)
    ensures forall id :: id in Next(s, step).tables.deliveries ==> RowOk(Next(s, step).tables, id)
  {
    var t, u := s.tables, Next(s, step).tables;
    forall id | id in u.deliveries ensures RowOk(u, id) {
      if id in t.deliveries {
        if Change(s, step, id) == Unchanged {
          RowChanges(s, step, id);
          AttemptsFrame(s, step, id);
          RowFrame(t, u, id);
        } else {
          TouchedRowOk(s, step, id);
        }
      } else {
        NewRowOk(s, step, id);
      }
    }
  }

  lemma NewRowOk(s: System, step: Step, id: string)
    requires ForeignKeys(s.tables) && Enabled(s, step)
    requires id !in s.tables.deliveries && id in Next(s, step).tables.deliveries
    ensures RowOk(Next(s, step).tables, id)
  {
    var u := Next(s, step).tables;
    assert u.attempts == s.tables.attempts;
    assert forall k :: k in u.attempts ==> k.deliveryId != id;
    assert forall n: nat :: AttemptKey(id, n).deliveryId == id;
  }

  lemma NewRowRefers(s: System, step: Step, id: string)
    requires Enabled(s, step) && id !in s.tables.deliveries && id in Next(s, step).tables.deliveries
    ensures var u := Next(s, step).tables;
            u.deliveries[id].subscriptionId in u.subscriptions && u.deliveries[id].eventId in u.events
  {
    assert step.keys[id] in step.keys.Values;
  }

  lemma ReferencesStay(s: System, step: Step)
    requires Enabled(s, step)
    ensures s.tables.subscriptions.Keys <= Next(s, step).tables.subscriptions.Keys
    ensures s.tables.events.Keys <= Next(s, step).tables.events.Keys
    ensures s.tables.deliveries.Keys <= Next(s, step).tables.deliveries.Keys
    ensures forall k :: k in Next(s, step).tables.attempts && k !in s.tables.attempts ==>
            k.deliveryId in s.tables.deliveries
  {}

  lemma StepKeepsForeignKeys(s: System, step: Step)
    requires ForeignKeys(s.tables) && Enabled(s, step)
    ensures ForeignKeys(Next(s, step).tables)
  {
    var t, u := s.tables, Next(s, step).tables;
    ReferencesStay(s, step);
    forall id | id in u.deliveries
      ensures u.deliveries[id].subscriptionId in u.subscriptions && u.deliveries[id].eventId in u.events
    {
      if id in t.deliveries {
        RowChanges(s, step, id);
      } else {
        NewRowRefers(s, step, id);
      }
    }
  }

  lemma InsertKeepsUnique(t: Tables, keys: map<string, string>, routes: set<string>, eventId: string, now: int)
    requires UniqueRoutes(t) && FreshKeys(t, keys, Unrouted(t, routes, eventId))
    ensures UniqueRoutes(InsertDeliveries(t, keys, eventId, now))
  {
    var u := InsertDeliveries(t, keys, eventId, now);
    forall a, b | a in u.deliveries && b in u.deliveries && SameRoute(u.deliveries[a], u.deliveries[b])
      ensures a == b
    {
      if a in keys {
        assert keys[a] in keys.Values;
      }
      if b in keys {
        assert keys[b] in keys.Values;
      }
    }
  }

  lemma StepKeepsUnique(s: System, step: Step)
    requires UniqueRoutes(s.tables) && Enabled(s, step)
    ensures UniqueRoutes(Next(s, step).tables)
  {
    var t, u := s.tables, Next(s, step).tables;
    if step.MaterializeStep? {
      InsertKeepsUnique(t, step.keys, MatchingRoutes(t, step.owner, t.events[step.eventId].eventType), step.eventId,
                        step.now);
    } else if step.TestStep? {
      var v := t.(events := t.events[step.eventId := Event(TEST_EVENT, step.owner, step.now)]);
      assert Unrouted(v, Routes(t, step.owner), step.eventId) == Unrouted(t, Routes(t, step.owner), step.eventId);
      InsertKeepsUnique(v, step.keys, Routes(t, step.owner), step.eventId, step.now);
    } else {
      forall a, b | a in u.deliveries && b in u.deliveries && SameRoute(u.deliveries[a], u.deliveries[b])
        ensures a == b
      {
        RowChanges(s, step, a);
        RowChanges(s, step, b);
        assert SameRoute(t.deliveries[a], t.deliveries[b]);
      }
    }
  }

  /** The holder of a row that is being delivered was granted its current attempt. */
  ghost predicate HolderGranted(s: System, id: string)
    requires id in s.tables.deliveries
  {
    var d := s.tables.deliveries[id];
    d.status == Delivering ==> d.leaseOwner.Some? && Grant(id, d.leaseOwner.value, d.attemptCount) in s.granted
  }

  lemma StepKeepsHolder(s: System, step: Step, id: string)
    requires Enabled(s, step) && id in Next(s, step).tables.deliveries
    requires id in s.tables.deliveries ==> HolderGranted(s, id)
    ensures HolderGranted(Next(s, step), id)
  {
    if id in s.tables.deliveries {
      RowChanges(s, step, id);
    }
  }

  lemma StepKeepsGrant(s: System, step: Step, g: Grant)
    requires Enabled(s, step) && g in Next(s, step).granted && (g in s.granted ==> GrantOk(s.tables, g))
    ensures GrantOk(Next(s, step).tables, g)
  {
    if g in s.granted {
      RowChanges(s, step, g.id);
    }
  }

  lemma StepKeepsGrants(s: System, step: Step)
    requires GrantsOk(s) && Enabled(s, step)
    ensures GrantsOk(Next(s, step))
  {
    var n := Next(s, step);
    forall g | g in n.granted ensures GrantOk(n.tables, g) {
      StepKeepsGrant(s, step, g);
    }
    forall g, h | g in n.granted && h in n.granted && SameAttempt(g, h) ensures g == h {
      assert g in s.granted ==> GrantOk(s.tables, g);
      assert h in s.granted ==> GrantOk(s.tables, h);
    }
    forall id | id in n.tables.deliveries ensures HolderGranted(n, id) {
      if id in s.tables.deliveries {
        assert HolderGranted(s, id);
      }
      StepKeepsHolder(s, step, id);
    }
  }

  lemma OpenFailSurvives(s: System, step: Step, open: OpenFail)
    requires Enabled(s, step) && OpenFailOk(s, open)
    ensures OpenFailOk(Next(s, step), open)
  {
    RowChanges(s, step, open.call.id);
  }

  lemma OpenedFail(s: System, step: Step, token: string)
    requires Enabled(s, step) && token in Next(s, step).failing
    ensures token !in s.failing ==> OpenFailOk(Next(s, step), Next(s, step).failing[token])
    ensures token in s.failing ==> Next(s, step).failing[token] == s.failing[token]
  {}

  lemma StepKeepsOpenFails(s: System, step: Step)
    requires Enabled(s, step)
    requires forall token :: token in s.failing ==> OpenFailOk(s, s.failing[token])
    ensures forall token :: token in Next(s, step).failing ==> OpenFailOk(Next(s, step), Next(s, step).failing[token])
  {
    forall token | token in Next(s, step).failing ensures OpenFailOk(Next(s, step), Next(s, step).failing[token]) {
      OpenedFail(s, step, token);
      if token in s.failing {
        assert OpenFailOk(s, s.failing[token]);
        OpenFailSurvives(s, step, s.failing[token]);
      }
    }
  }

  /** The ledger invariant is inductive. */
  lemma StepKeepsInv(s: System, step: Step)
    requires Inv(s) && Enabled(s, step)
    ensures Inv(Next(s, step))
  {
    StepKeepsRows(s, step);
    StepKeepsForeignKeys(s, step);
    StepKeepsUnique(s, step);
    StepKeepsGrants(s, step);
    StepKeepsOpenFails(s, step);
  }
}
