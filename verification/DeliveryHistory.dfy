/**
 * Deliveries over whole runs in the fields of their rows: who gets a row and for what, which row may be leased, what a
 * lease, an end and a replay write, and what a terminal failure stops.
 */
module DeliveryHistory {
  import opened Wrappers
  import opened Backoff
  import opened Deliveries
  import opened DeliveryRuns
  import S = DeliverySafety

  // ---- who gets a row ----

  /**
   * Who gets a row of an event: a materialize creates one for a route if and only if the route is its owner's, active,
   * verified and sealed, lists the event's type, and had no row of the event yet.
   */
  lemma MaterializeCreatesExactly(s: System, step: Step, route: string)
    requires Enabled(s, step) && step.MaterializeStep?
    ensures step.eventId in s.tables.events
    ensures Creates(s.tables, Next(s, step).tables, route, step.eventId)
            <==> LiveRoute(s.tables, route, step.owner)
                 && s.tables.events[step.eventId].eventType in s.tables.subscriptions[route].eventTypes
                 && !HasRow(s.tables, route, step.eventId)
  {
    var t := s.tables;
    InsertCreates(t, step.keys, MatchingRoutes(t, step.owner, t.events[step.eventId].eventType), step.eventId, step.now,
                  route);
  }

  /** A test notification goes to every live route of its owner, whatever types it lists. */
  lemma TestCreatesExactly(s: System, step: Step, route: string)
    requires Enabled(s, step) && step.TestStep?
    ensures Creates(s.tables, Next(s, step).tables, route, step.eventId)
            <==> LiveRoute(s.tables, route, step.owner) && !HasRow(s.tables, route, step.eventId)
    ensures Next(s, step).tables.events
            == s.tables.events[step.eventId := Event(TEST_EVENT, step.owner, step.now)]
    ensures step.eventId !in s.tables.events
    ensures forall e :: e in s.tables.events && s.tables.events[e].eventType == TEST_EVENT
                        && s.tables.events[e].aggregateId == step.owner ==>
                          s.tables.events[e].occurredAt + step.cooldownMs <= step.now
  {
    var t := s.tables;
    var v := t.(events := t.events[step.eventId := Event(TEST_EVENT, step.owner, step.now)]);
    assert Unrouted(v, Routes(t, step.owner), step.eventId) == Unrouted(t, Routes(t, step.owner), step.eventId);
    InsertCreates(v, step.keys, Routes(t, step.owner), step.eventId, step.now, route);
  }

  /** Rows come from materializes and test notifications only, and start pending. */
  lemma NewRow(s: System, step: Step, id: string)
    requires Enabled(s, step) && id !in s.tables.deliveries && id in Next(s, step).tables.deliveries
    ensures step.MaterializeStep? || step.TestStep?
    ensures JustCreated(Next(s, step).tables.deliveries[id], step.eventId, step.now)
  {}

  /** Step m created the row, for a route that was live and, unless it is a test, listed the event's type. */
  ghost predicate CreatedFor(states: seq<System>, steps: seq<Step>, m: nat, route: string, eventId: string) {
    && m < |steps| && m < |states| && (steps[m].MaterializeStep? || steps[m].TestStep?) && steps[m].eventId == eventId
    && LiveRoute(states[m].tables, route, steps[m].owner)
    && (steps[m].MaterializeStep? ==>
          && eventId in states[m].tables.events
          && states[m].tables.events[eventId].eventType in states[m].tables.subscriptions[route].eventTypes)
  }

  /**
   * No delivery without a cause: every row there is was created for a route that was live at that time and listed the
   * type of the event, or by a test notification.
   */
  lemma {:induction false} DeliveredForCause(states: seq<System>, steps: seq<Step>, i: nat, id: string)
    returns (m: nat)
    requires Run(states, steps) && i < |states| && id in states[i].tables.deliveries
    ensures var d := states[i].tables.deliveries[id];
            m < i && CreatedFor(states, steps, m, d.subscriptionId, d.eventId)
  {
    RunStep(states, steps, i - 1);
    var s, step := states[i - 1], steps[i - 1];
    if id in s.tables.deliveries {
      RowChanges(s, step, id);
      m := DeliveredForCause(states, steps, i - 1, id);
    } else {
      m := i - 1;
      NewRow(s, step, id);
      var route := states[i].tables.deliveries[id].subscriptionId;
      assert Creates(s.tables, states[i].tables, route, step.eventId);
      if step.MaterializeStep? {
        MaterializeCreatesExactly(s, step, route);
      } else {
        TestCreatesExactly(s, step, route);
      }
    }
  }

  /** Every delivery of an event that is no test was created while its subscription listed the event's type. */
  lemma SubscribersOnly(states: seq<System>, steps: seq<Step>, i: nat, id: string) returns (m: nat)
    requires Run(states, steps) && i < |states| && id in states[i].tables.deliveries
    requires states[i].tables.deliveries[id].eventId in states[i].tables.events
    requires states[i].tables.events[states[i].tables.deliveries[id].eventId].eventType != TEST_EVENT
    ensures var d := states[i].tables.deliveries[id];
            && m < i && d.subscriptionId in states[m].tables.subscriptions
            && states[i].tables.events[d.eventId].eventType
               in states[m].tables.subscriptions[d.subscriptionId].eventTypes
            && steps[m].MaterializeStep? && steps[m].owner == states[m].tables.subscriptions[d.subscriptionId].owner
  {
    m := DeliveredForCause(states, steps, i, id);
    var eventId := states[i].tables.deliveries[id].eventId;
    RunStep(states, steps, m);
    if steps[m].TestStep? {
      S.EventsPersist(states, steps, m + 1, i, eventId);
    } else {
      S.EventsPersist(states, steps, m, i, eventId);
    }
  }

  // ---- which row may be leased, and what a lease writes ----

  /** When a row is due: at its next attempt, or from its creation when none is set. */
  predicate DueBy(d: Delivery, now: int) {
    match d.nextAttemptAt
    case Some(at) => at <= now
    case None => d.createdAt <= now
  }

  /** Exactly which rows may be leased. */
  lemma LeasableExactly(s: System, id: string, worker: string, kinds: set<Kind>, leaseMs: nat, now: int)
    ensures Enabled(s, LeaseStep(id, worker, kinds, leaseMs, now))
            <==> && id in s.tables.deliveries
                 && var d := s.tables.deliveries[id];
                 && d.subscriptionId in s.tables.subscriptions
                 && var sub := s.tables.subscriptions[d.subscriptionId];
                 && sub.active && sub.verified && sub.hasSecret && sub.kind in kinds
                 && d.attemptCount < d.maxAttempts && DueBy(d, now)
                 && match d.status
                    case Pending => true
                    case Failed => true
                    case Delivering => d.leaseExpiresAt.Some? && d.leaseExpiresAt.value <= now
                    case _ => false
  {}

  predicate SameOrigin(d: Delivery, e: Delivery) {
    && e.subscriptionId == d.subscriptionId && e.eventId == d.eventId && e.createdAt == d.createdAt
  }

  /** What a lease writes: the row is out to the worker until the lease runs out, and its attempt is open. */
  lemma LeaseWrites(states: seq<System>, steps: seq<Step>, i: nat)
    requires Run(states, steps) && i < |steps| && steps[i].LeaseStep?
    ensures var t, u, step := states[i].tables, states[i + 1].tables, steps[i];
            && step.id in t.deliveries && step.id in u.deliveries
            && var d, e := t.deliveries[step.id], u.deliveries[step.id];
            && SameOrigin(d, e) && e.maxAttempts == d.maxAttempts && e.nextAttemptAt == d.nextAttemptAt
            && e.deliveredAt == d.deliveredAt
            && e.status == Delivering && e.leaseOwner == Some(step.worker)
            && e.leaseExpiresAt == Some(step.now + step.leaseMs) && e.attemptCount == d.attemptCount + 1
            && AttemptKey(step.id, e.attemptCount) in u.attempts
            && u.attempts[AttemptKey(step.id, e.attemptCount)] == Attempt(InFlight, step.now, None)
            && (forall k :: k in t.attempts ==> k in u.attempts && u.attempts[k] == t.attempts[k])
            && u.subscriptions == t.subscriptions && u.events == t.events
  {
    RunStep(states, steps, i);
    S.RunInv(states, steps, i);
    var id := steps[i].id;
    assert RowOk(states[i].tables, id);
  }

  // ---- what an end writes ----

  /** The worker is out with this attempt of the row. */
  predicate IsOut(t: Tables, id: string, worker: string, attempt: nat) {
    && id in t.deliveries && t.deliveries[id].status == Delivering && t.deliveries[id].leaseOwner == Some(worker)
    && t.deliveries[id].attemptCount == attempt
  }

  /** Nothing but the row and one of its attempts changed. */
  predicate OnlyRow(t: Tables, u: Tables, id: string, attempt: nat) {
    && u.deliveries.Keys == t.deliveries.Keys && u.attempts.Keys == t.attempts.Keys && u.events == t.events
    && (forall other :: other in t.deliveries && other != id ==> u.deliveries[other] == t.deliveries[other])
    && (forall k :: k in t.attempts && k != AttemptKey(id, attempt) ==> u.attempts[k] == t.attempts[k])
  }

  lemma OpenAttempt(states: seq<System>, steps: seq<Step>, i: nat, id: string)
    requires Run(states, steps) && i < |states| && id in states[i].tables.deliveries
    requires states[i].tables.deliveries[id].status == Delivering
    ensures var key := AttemptKey(id, states[i].tables.deliveries[id].attemptCount);
            key in states[i].tables.attempts && states[i].tables.attempts[key].status == InFlight
  {
    S.RunInv(states, steps, i);
    assert RowOk(states[i].tables, id);
  }

  /** A completion by the holder delivers the row and closes its attempt; by anyone else it changes nothing. */
  lemma CompletionWrites(states: seq<System>, steps: seq<Step>, i: nat)
    requires Run(states, steps) && i < |steps| && steps[i].CompleteStep?
    ensures var t, u, step := states[i].tables, states[i + 1].tables, steps[i];
            if IsOut(t, step.id, step.worker, step.attempt) then
              && OnlyRow(t, u, step.id, step.attempt) && u.subscriptions == t.subscriptions
              && var d, e, key := t.deliveries[step.id], u.deliveries[step.id], AttemptKey(step.id, step.attempt);
              && SameOrigin(d, e) && e.attemptCount == d.attemptCount && e.maxAttempts == d.maxAttempts
              && e.status == Delivered && e.deliveredAt == Some(step.now) && e.nextAttemptAt.None?
              && e.leaseOwner.None? && e.leaseExpiresAt.None?
              && key in t.attempts
              && u.attempts[key] == Attempt(Succeeded, t.attempts[key].startedAt, Some(step.now))
            else u == t
  {
    RunStep(states, steps, i);
    if IsOut(states[i].tables, steps[i].id, steps[i].worker, steps[i].attempt) {
      OpenAttempt(states, steps, i, steps[i].id);
    }
  }

  /** The select of a failure finds the row exactly while it is out to the calling worker, with its counters. */
  lemma FailureReads(s: System, token: string, call: FailCall)
    requires Enabled(s, StartFail(token, call))
    ensures var t, n := s.tables, Next(s, StartFail(token, call));
            && n.tables == t && n.granted == s.granted
            && if call.id in t.deliveries && t.deliveries[call.id].status == Delivering
                  && t.deliveries[call.id].leaseOwner == Some(call.worker) then
                 var d := t.deliveries[call.id];
                 n.failing == s.failing[token := OpenFail(call, FailSnapshot(d.attemptCount, d.maxAttempts,
                                                                             d.subscriptionId))]
               else n.failing == s.failing
  {}

  /** The attempts are used up, or the failure is terminal. */
  predicate Exhausted(open: OpenFail) {
    open.call.terminal || open.snapshot.attemptCount >= open.snapshot.maxAttempts
  }

  /** What the write of a failure leaves of the row and of its attempt. */
  predicate FailedRowOf(d: Delivery, e: Delivery, open: OpenFail) {
    && SameOrigin(d, e) && e.attemptCount == d.attemptCount && e.maxAttempts == d.maxAttempts
    && e.deliveredAt == d.deliveredAt && e.leaseOwner.None? && e.leaseExpiresAt.None?
    && (if Exhausted(open) then e.status == Dead && e.nextAttemptAt.None?
        else e.status == Failed
             && e.nextAttemptAt
                == Some(open.call.now + Delay(open.snapshot.attemptCount, open.call.base, open.call.cap)))
  }

  /** Only the route of a terminal failure is switched off. */
  predicate RoutesAfter(t: Tables, u: Tables, open: OpenFail, route: string) {
    && u.subscriptions.Keys == t.subscriptions.Keys
    && (forall s :: s in t.subscriptions ==>
          u.subscriptions[s] == if open.call.terminal && s == route then t.subscriptions[s].(active := false)
                                else t.subscriptions[s])
  }

  lemma FailWriteInFields(t: Tables, open: OpenFail)
    requires var call := open.call;
             && IsOut(t, call.id, call.worker, call.attempt) && AttemptKey(call.id, call.attempt) in t.attempts
             && open.snapshot.subscriptionId == t.deliveries[call.id].subscriptionId
    ensures var u, call := FailWrite(t, open.call, open.snapshot), open.call;
            var key := AttemptKey(call.id, call.attempt);
            && OnlyRow(t, u, call.id, call.attempt) && FailedRowOf(t.deliveries[call.id], u.deliveries[call.id], open)
            && u.attempts[key] == Attempt(Rejected, t.attempts[key].startedAt, Some(call.now))
            && RoutesAfter(t, u, open, t.deliveries[call.id].subscriptionId)
  {}

  /**
   * The write of a failure by the holder: dead when the failure is terminal or the attempts are used up, otherwise due
   * again after the back-off of the attempt its select found; a terminal failure also switches its route off, and
   * nothing else touches a subscription. Anyone else's write changes nothing.
   */
  lemma FailureWrites(states: seq<System>, steps: seq<Step>, i: nat)
    requires Run(states, steps) && i < |steps| && steps[i].FinishFail? && steps[i].token in states[i].failing
    ensures var t, u, open := states[i].tables, states[i + 1].tables, states[i].failing[steps[i].token];
            var call := open.call;
            if IsOut(t, call.id, call.worker, call.attempt) then
              var key := AttemptKey(call.id, call.attempt);
              && OnlyRow(t, u, call.id, call.attempt)
              && FailedRowOf(t.deliveries[call.id], u.deliveries[call.id], open)
              && key in t.attempts
              && u.attempts[key] == Attempt(Rejected, t.attempts[key].startedAt, Some(call.now))
              && RoutesAfter(t, u, open, t.deliveries[call.id].subscriptionId)
            else u == t
  {
    RunStep(states, steps, i);
    var open := states[i].failing[steps[i].token];
    S.RunInv(states, steps, i);
    assert OpenFailOk(states[i], open);
    if IsOut(states[i].tables, open.call.id, open.call.worker, open.call.attempt) {
      OpenAttempt(states, steps, i, open.call.id);
      FailWriteInFields(states[i].tables, open);
    }
  }

  predicate EditsRoutes(step: Step) { step.EditSubscriptions? }

  lemma {:induction false} RouteStaysOff(states: seq<System>, steps: seq<Step>, i: nat, k: nat, route: string)
    requires Run(states, steps) && i <= k < |states| && route in states[i].tables.subscriptions
    requires !states[i].tables.subscriptions[route].active
    requires forall m :: i <= m < k ==> !EditsRoutes(steps[m])
    ensures route in states[k].tables.subscriptions && !states[k].tables.subscriptions[route].active
    decreases k
  {
    if i < k {
      RouteStaysOff(states, steps, i, k - 1, route);
      RunStep(states, steps, k - 1);
      assert !EditsRoutes(steps[k - 1]);
    }
  }

  /** A route that is off gets no lease and no new row. */
  lemma SilentRoute(s: System, step: Step, route: string)
    requires Enabled(s, step) && route in s.tables.subscriptions && !s.tables.subscriptions[route].active
    ensures step.LeaseStep? && step.id in s.tables.deliveries ==>
              s.tables.deliveries[step.id].subscriptionId != route
    ensures forall d :: d !in s.tables.deliveries && d in Next(s, step).tables.deliveries ==>
              Next(s, step).tables.deliveries[d].subscriptionId != route
  {
    if step.MaterializeStep? {
      MaterializeCreatesExactly(s, step, route);
    } else if step.TestStep? {
      TestCreatesExactly(s, step, route);
    }
    forall d | d !in s.tables.deliveries && d in Next(s, step).tables.deliveries
      ensures Next(s, step).tables.deliveries[d].subscriptionId != route
    {
      NewRow(s, step, d);
    }
  }

  lemma TerminalSwitchesOff(states: seq<System>, steps: seq<Step>, i: nat)
    requires Run(states, steps) && i < |steps| && steps[i].FinishFail? && steps[i].token in states[i].failing
    requires var call := states[i].failing[steps[i].token].call;
             call.terminal && IsOut(states[i].tables, call.id, call.worker, call.attempt)
    ensures var route := states[i].tables.deliveries[states[i].failing[steps[i].token].call.id].subscriptionId;
            route in states[i + 1].tables.subscriptions && !states[i + 1].tables.subscriptions[route].active
  {
    FailureWrites(states, steps, i);
    S.RunInv(states, steps, i);
  }

  /**
   * A terminal failure silences its route: until its subscription is edited, no delivery of the route is leased and no
   * new one is created.
   */
  lemma TerminalFailureSilences(states: seq<System>, steps: seq<Step>, i: nat, k: nat)
    requires Run(states, steps) && i < k < |steps| && steps[i].FinishFail? && steps[i].token in states[i].failing
    requires var call := states[i].failing[steps[i].token].call;
             call.terminal && IsOut(states[i].tables, call.id, call.worker, call.attempt)
    requires forall m :: i < m < k ==> !EditsRoutes(steps[m])
    ensures var id := states[i].failing[steps[i].token].call.id;
            var route := states[i].tables.deliveries[id].subscriptionId;
            && (steps[k].LeaseStep? && steps[k].id in states[k].tables.deliveries ==>
                  states[k].tables.deliveries[steps[k].id].subscriptionId != route)
            && (forall d :: d !in states[k].tables.deliveries && d in states[k + 1].tables.deliveries ==>
                              states[k + 1].tables.deliveries[d].subscriptionId != route)
  {
    TerminalSwitchesOff(states, steps, i);
    var route := states[i].tables.deliveries[states[i].failing[steps[i].token].call.id].subscriptionId;
    RouteStaysOff(states, steps, i + 1, k, route);
    RunStep(states, steps, k);
    SilentRoute(states[k], steps[k], route);
  }

  // ---- what a replay writes ----

  /** A replay revives a dead row of the owner with the additional attempts on top; otherwise it changes nothing. */
  lemma ReplayWrites(states: seq<System>, steps: seq<Step>, i: nat)
    requires Run(states, steps) && i < |steps| && steps[i].ReplayStep?
    ensures var t, u, step := states[i].tables, states[i + 1].tables, steps[i];
            && u.attempts == t.attempts && u.subscriptions == t.subscriptions && u.events == t.events
            && if step.id in t.deliveries && t.deliveries[step.id].status == Dead
                  && t.deliveries[step.id].subscriptionId in t.subscriptions
                  && t.subscriptions[t.deliveries[step.id].subscriptionId].owner == step.owner then
                 && u.deliveries.Keys == t.deliveries.Keys
                 && (forall other :: other in t.deliveries && other != step.id ==>
                                       u.deliveries[other] == t.deliveries[other])
                 && var d, e := t.deliveries[step.id], u.deliveries[step.id];
                 && SameOrigin(d, e) && e.status == Failed && e.attemptCount == d.attemptCount
                 && e.maxAttempts == d.maxAttempts + step.additional && e.nextAttemptAt == Some(step.now)
                 && e.leaseOwner == d.leaseOwner && e.leaseExpiresAt == d.leaseExpiresAt
                 && e.deliveredAt == d.deliveredAt
               else u.deliveries == t.deliveries
  {
    RunStep(states, steps, i);
    S.RunInv(states, steps, i);
    if steps[i].id in states[i].tables.deliveries {
      assert RowOk(states[i].tables, steps[i].id);
    }
  }
}
