/**
 * The delivery tables and the row guards and updates of
 * packages/db/src/repositories/deliveries.ts, one function per database statement.
 * A table is a map from primary key to row; times are milliseconds.
 */
module Deliveries {
  import opened Wrappers
  import opened Arithmetic
  import opened Backoff

  datatype Kind = Webhook | Browser | Telegram

  datatype Status = Pending | Delivering | Delivered | Failed | Dead

  datatype Delivery = Delivery(
    subscriptionId: string,
    eventId: string,
    status: Status,
    attemptCount: nat,
    maxAttempts: nat,
    leaseOwner: Option<string>,
    leaseExpiresAt: Option<int>,
    nextAttemptAt: Option<int>,
    deliveredAt: Option<int>,
    createdAt: int)

  datatype AttemptStatus = InFlight | Succeeded | Rejected

  datatype Attempt = Attempt(status: AttemptStatus, startedAt: int, finishedAt: Option<int>)

  /** The unique key of delivery_attempts. */
  datatype AttemptKey = AttemptKey(deliveryId: string, number: nat)

  datatype Subscription = Subscription(
    owner: string,
    kind: Kind,
    eventTypes: set<string>,
    active: bool,
    verified: bool,
    hasSecret: bool)

  datatype Event = Event(eventType: string, aggregateId: string, occurredAt: int)

  const TEST_EVENT := "notification.test"

  datatype Tables = Tables(
    deliveries: map<string, Delivery>,
    attempts: map<AttemptKey, Attempt>,
    subscriptions: map<string, Subscription>,
    events: map<string, Event>)

  const DEFAULT_MAX_ATTEMPTS: nat := 8
  const DEFAULT_BASE_BACKOFF_MS: nat := 1000
  const DEFAULT_MAX_BACKOFF_MS: nat := 300000

  // ---- leaseNext ----

  function Due(d: Delivery): int {
    d.nextAttemptAt.GetOr(d.createdAt)
  }

  predicate Deliverable(s: Subscription) {
    s.active && s.verified && s.hasSecret
  }

  /** The where clause of the lease: a ready row, or one whose lease has run out. */
  predicate Eligible(t: Tables, id: string, kinds: set<Kind>, now: int) {
    && id in t.deliveries
    && var d := t.deliveries[id];
    && d.subscriptionId in t.subscriptions
    && Deliverable(t.subscriptions[d.subscriptionId])
    && t.subscriptions[d.subscriptionId].kind in kinds
    && d.attemptCount < d.maxAttempts
    && Due(d) <= now
    && (d.status == Pending || d.status == Failed
        || (d.status == Delivering && d.leaseExpiresAt.Some? && d.leaseExpiresAt.value <= now))
  }

  function LeasedRow(d: Delivery, worker: string, leaseMs: int, now: int): Delivery {
    d.(status := Delivering,
       leaseOwner := Some(worker),
       leaseExpiresAt := Some(now + leaseMs),
       attemptCount := d.attemptCount + 1)
  }

  /** The lease transaction: take the row and open the attempt row, unless that number exists. */
  function Lease(t: Tables, id: string, worker: string, leaseMs: int, now: int): Tables
    requires id in t.deliveries
  {
    var row := LeasedRow(t.deliveries[id], worker, leaseMs, now);
    var key := AttemptKey(id, row.attemptCount);
    t.(deliveries := t.deliveries[id := row],
       attempts := if key in t.attempts then t.attempts
                   else t.attempts[key := Attempt(InFlight, now, None)])
  }

  // ---- complete and fail ----

  /** The guard of every write that ends an attempt: fenced by worker and attempt number. */
  predicate Holds(t: Tables, id: string, worker: string, attempt: nat) {
    && id in t.deliveries
    && t.deliveries[id].status == Delivering
    && t.deliveries[id].leaseOwner == Some(worker)
    && t.deliveries[id].attemptCount == attempt
  }

  function CloseAttempt(
    t: Tables, id: string, attempt: nat, status: AttemptStatus, now: int): map<AttemptKey, Attempt> {
    var key := AttemptKey(id, attempt);
    if key in t.attempts
    then t.attempts[key := t.attempts[key].(status := status, finishedAt := Some(now))]
    else t.attempts
  }

  function DeliveredRow(d: Delivery, now: int): Delivery {
    d.(status := Delivered, deliveredAt := Some(now), nextAttemptAt := None,
       leaseOwner := None, leaseExpiresAt := None)
  }

  function Complete(t: Tables, id: string, worker: string, attempt: nat, now: int): Tables {
    if Holds(t, id, worker, attempt) then
      t.(deliveries := t.deliveries[id := DeliveredRow(t.deliveries[id], now)],
         attempts := CloseAttempt(t, id, attempt, Succeeded, now))
    else t
  }

  /** What the first statement of `fail` reads. */
  datatype FailSnapshot = FailSnapshot(attemptCount: nat, maxAttempts: nat, subscriptionId: string)

  /** The arguments of one `fail` call. */
  datatype FailCall = FailCall(
    id: string, worker: string, attempt: nat, terminal: bool, now: int, base: nat, cap: nat)

  datatype FailOutcome = MarkedFailed | MarkedDead | NotOwned

  /** The unlocked select of `fail`, fenced by the worker only. */
  function FailRead(t: Tables, id: string, worker: string): Option<FailSnapshot> {
    if id in t.deliveries && t.deliveries[id].status == Delivering && t.deliveries[id].leaseOwner == Some(worker)
    then Some(FailSnapshot(t.deliveries[id].attemptCount, t.deliveries[id].maxAttempts,
                           t.deliveries[id].subscriptionId))
    else None
  }

  predicate Kills(call: FailCall, snapshot: FailSnapshot) {
    call.terminal || snapshot.attemptCount >= snapshot.maxAttempts
  }

  function FailedRow(d: Delivery, call: FailCall, snapshot: FailSnapshot): Delivery {
    d.(status := if Kills(call, snapshot) then Dead else Failed,
       nextAttemptAt := if Kills(call, snapshot) then None
                        else Some(call.now + Delay(snapshot.attemptCount, call.base, call.cap)),
       leaseOwner := None,
       leaseExpiresAt := None)
  }

  function Deactivated(t: Tables, subscriptionId: string): map<string, Subscription> {
    if subscriptionId in t.subscriptions
    then t.subscriptions[subscriptionId := t.subscriptions[subscriptionId].(active := false)]
    else t.subscriptions
  }

  /** The write transaction of `fail`, decided from an earlier snapshot. */
  function FailWrite(t: Tables, call: FailCall, snapshot: FailSnapshot): Tables {
    if Holds(t, call.id, call.worker, call.attempt) then
      t.(deliveries := t.deliveries[call.id := FailedRow(t.deliveries[call.id], call, snapshot)],
         attempts := CloseAttempt(t, call.id, call.attempt, Rejected, call.now),
         subscriptions := if call.terminal then Deactivated(t, snapshot.subscriptionId) else t.subscriptions)
    else t
  }

  function FailWriteOutcome(t: Tables, call: FailCall, snapshot: FailSnapshot): FailOutcome {
    if !Holds(t, call.id, call.worker, call.attempt) then NotOwned
    else if Kills(call, snapshot) then MarkedDead
    else MarkedFailed
  }

  /** `fail` as one indivisible step: read and write on the same tables. */
  function FailAtOnce(t: Tables, call: FailCall): (Tables, FailOutcome) {
    match FailRead(t, call.id, call.worker)
    case None => (t, NotOwned)
    case Some(snapshot) => (FailWrite(t, call, snapshot), FailWriteOutcome(t, call, snapshot))
  }

  // ---- replayDead ----

  predicate Replayable(t: Tables, id: string, owner: string) {
    && id in t.deliveries
    && t.deliveries[id].status == Dead
    && t.deliveries[id].subscriptionId in t.subscriptions
    && t.subscriptions[t.deliveries[id].subscriptionId].owner == owner
  }

  function ReplayedRow(d: Delivery, additional: nat, now: int): Delivery {
    d.(status := Failed,
       maxAttempts := Max(d.maxAttempts, d.attemptCount) + additional,
       nextAttemptAt := Some(now))
  }

  function Replay(t: Tables, id: string, owner: string, additional: nat, now: int): Tables {
    if Replayable(t, id, owner)
    then t.(deliveries := t.deliveries[id := ReplayedRow(t.deliveries[id], additional, now)])
    else t
  }

  // ---- materializeEvent and enqueueTestNotification ----

  /** Every live, verified, sealed route of an owner. */
  function Routes(t: Tables, owner: string): set<string> {
    set s | s in t.subscriptions && t.subscriptions[s].owner == owner && Deliverable(t.subscriptions[s])
  }

  /** The routes that also subscribe to the event's type. */
  function MatchingRoutes(t: Tables, owner: string, eventType: string): set<string> {
    set s | s in t.subscriptions && t.subscriptions[s].owner == owner
            && Deliverable(t.subscriptions[s]) && eventType in t.subscriptions[s].eventTypes
  }

  predicate Routed(t: Tables, subscriptionId: string, eventId: string) {
    exists id :: id in t.deliveries && t.deliveries[id].subscriptionId == subscriptionId
                 && t.deliveries[id].eventId == eventId
  }

  /** The routes for which `insert ... on conflict do nothing` creates a row. */
  function Unrouted(t: Tables, routes: set<string>, eventId: string): set<string> {
    set s | s in routes && !Routed(t, s, eventId)
  }

  function NewDelivery(subscriptionId: string, eventId: string, now: int): Delivery {
    Delivery(subscriptionId, eventId, Pending, 0, DEFAULT_MAX_ATTEMPTS, None, None, Some(now), None, now)
  }

  /** Generated primary keys: unused, and one for each route that gets a row. */
  ghost predicate FreshKeys(t: Tables, keys: map<string, string>, routes: set<string>) {
    && keys.Keys !! t.deliveries.Keys
    && keys.Values == routes
    && (forall k1, k2 :: k1 in keys && k2 in keys && keys[k1] == keys[k2] ==> k1 == k2)
  }

  function InsertDeliveries(t: Tables, keys: map<string, string>, eventId: string, now: int): Tables {
    t.(deliveries := t.deliveries + map k | k in keys :: NewDelivery(keys[k], eventId, now))
  }

  /** A test event of this owner younger than the cooldown. */
  predicate CoolingDown(t: Tables, owner: string, now: int, cooldownMs: nat) {
    exists e :: e in t.events && t.events[e].eventType == TEST_EVENT && t.events[e].aggregateId == owner
                && t.events[e].occurredAt > now - cooldownMs
  }

  function TestNotification(t: Tables, eventId: string, owner: string, keys: map<string, string>, now: int): Tables {
    InsertDeliveries(t.(events := t.events[eventId := Event(TEST_EVENT, owner, now)]), keys, eventId, now)
  }

  // ---- who gets a row, in fields ----

  /** A live route of the owner: active, verified and with a sealed secret. */
  predicate LiveRoute(t: Tables, s: string, owner: string) {
    && s in t.subscriptions && t.subscriptions[s].owner == owner
    && t.subscriptions[s].active && t.subscriptions[s].verified && t.subscriptions[s].hasSecret
  }

  /** The tables have a row of this route and event. */
  predicate HasRow(t: Tables, s: string, eventId: string) {
    exists id :: id in t.deliveries && t.deliveries[id].subscriptionId == s && t.deliveries[id].eventId == eventId
  }

  /** The step made a row of this route and event. */
  predicate Creates(t: Tables, u: Tables, s: string, eventId: string) {
    exists id :: id !in t.deliveries && id in u.deliveries
                 && u.deliveries[id].subscriptionId == s && u.deliveries[id].eventId == eventId
  }

  /** A row as it is created: pending, due at once, no attempt made, eight allowed. */
  predicate JustCreated(d: Delivery, eventId: string, now: int) {
    && d.eventId == eventId && d.status == Pending && d.attemptCount == 0 && d.maxAttempts == 8
    && d.leaseOwner.None? && d.leaseExpiresAt.None? && d.deliveredAt.None?
    && d.nextAttemptAt == Some(now) && d.createdAt == now
  }

  lemma InsertCreates(t: Tables, keys: map<string, string>, routes: set<string>, eventId: string, now: int, s: string)
    requires FreshKeys(t, keys, Unrouted(t, routes, eventId))
    ensures Creates(t, InsertDeliveries(t, keys, eventId, now), s, eventId)
            <==> s in routes && !HasRow(t, s, eventId)
  {
    var u := InsertDeliveries(t, keys, eventId, now);
    if s in routes && !HasRow(t, s, eventId) {
      assert s in keys.Values;
      var k :| k in keys && keys[k] == s;
      assert u.deliveries[k].subscriptionId == s;
    }
    if Creates(t, u, s, eventId) {
      var id :| id !in t.deliveries && id in u.deliveries && u.deliveries[id].subscriptionId == s;
      assert keys[id] in keys.Values;
    }
  }
}
