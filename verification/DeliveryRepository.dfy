/** The repository class of packages/db/src/repositories/deliveries.ts over its four tables. */
module DeliveryRepository {
  import opened Wrappers
  import opened Arithmetic
  import opened Backoff
  import D = Deliveries
  import Ordering

  datatype Error = BlankWorker | NotPositive(name: string) | EventNotFound | BadOwner

  datatype LeasedDelivery = LeasedDelivery(
    id: string, subscriptionId: string, attempt: nat, maxAttempts: nat, leaseOwner: string)

  datatype TestOutcome =
    | Queued(routeCount: nat, deliveryCount: nat, nextAllowedAt: int)
    | CoolingDown(eventId: string, routeCount: nat, nextAllowedAt: int)

  datatype Replay = Replay(nextAttemptAt: int, attemptsRemaining: nat)

  /** `^0x[0-9a-f]{40}$` */
  predicate IsAddress(s: string) { IsHex(s, 40) && Lower(s) == s }

  /** An address is 0x and forty digits or small letters a to f; lowering any spelling of one gives an address. */
  lemma AddressInFields(s: string)
    ensures IsAddress(s)
            <==> |s| == 42 && s[..2] == "0x"
                 && forall i :: 2 <= i < 42 ==> '0' <= s[i] <= '9' || 'a' <= s[i] <= 'f'
    ensures IsHex(s, 40) ==> IsAddress(Lower(s))
  {
    if |s| == 42 {
      assert s[..2] == [s[0], s[1]];
      if IsAddress(s) {
        forall i | 2 <= i < 42 ensures '0' <= s[i] <= '9' || 'a' <= s[i] <= 'f' {
          assert Lower(s)[i] == LowerChar(s[i]);
        }
      }
    }
  }

  /** What an event says of its wallet, and whom the tables name for its aggregate id. */
  datatype Origin = Origin(
    aggregateType: string, payloadWallet: Option<string>, payloadOwner: Option<string>, claimOwner: Option<string>,
    positionOwner: Option<string>)

  function AddressIn(s: Option<string>): Option<string> {
    if s.Some? && IsHex(s.value, 40) then Some(Lower(s.value)) else None
  }

  function Lowered(s: Option<string>): Option<string> {
    match s case None => None case Some(owner) => Some(Lower(owner))
  }

  /** The wallet an event belongs to: a wallet event's own address, else the payload's, else the tables'. */
  function OwnerOf(aggregateId: string, origin: Origin): Option<string> {
    if origin.aggregateType == "wallet" && IsHex(aggregateId, 40) then Some(Lower(aggregateId))
    else if AddressIn(origin.payloadWallet).Some? then AddressIn(origin.payloadWallet)
    else if AddressIn(origin.payloadOwner).Some? then AddressIn(origin.payloadOwner)
    else if origin.aggregateType == "claim" then Lowered(origin.claimOwner)
    else if origin.aggregateType == "position" then Lowered(origin.positionOwner)
    else None
  }

  /**
   * Whose event it is, in fields: a wallet event's own address first, then the first address the payload has, and only
   * then the owner the tables name; an address counts in any case and is lowered, and no other text counts.
   */
  lemma OwnerInFields(aggregateId: string, o: Origin)
    ensures o.aggregateType == "wallet" && IsHex(aggregateId, 40) ==>
              OwnerOf(aggregateId, o) == Some(Lower(aggregateId))
    ensures !(o.aggregateType == "wallet" && IsHex(aggregateId, 40)) ==>
              && (o.payloadWallet.Some? && IsHex(o.payloadWallet.value, 40) ==>
                    OwnerOf(aggregateId, o) == Some(Lower(o.payloadWallet.value)))
              && (!(o.payloadWallet.Some? && IsHex(o.payloadWallet.value, 40)) ==>
                    && (o.payloadOwner.Some? && IsHex(o.payloadOwner.value, 40) ==>
                          OwnerOf(aggregateId, o) == Some(Lower(o.payloadOwner.value)))
                    && (!(o.payloadOwner.Some? && IsHex(o.payloadOwner.value, 40)) ==>
                          && (o.aggregateType == "claim" && o.claimOwner.Some? ==>
                                OwnerOf(aggregateId, o) == Some(Lower(o.claimOwner.value)))
                          && (o.aggregateType == "position" && o.positionOwner.Some? ==>
                                OwnerOf(aggregateId, o) == Some(Lower(o.positionOwner.value)))
                          && (OwnerOf(aggregateId, o).Some? ==>
                                || (o.aggregateType == "claim" && o.claimOwner.Some?)
                                || (o.aggregateType == "position" && o.positionOwner.Some?))))
  {}

  /** `order by coalesce(next_attempt_at, created_at), created_at`. */
  predicate NotLater(t: D.Tables, a: string, b: string) {
    b in t.deliveries ==>
      && a in t.deliveries
      && var da, db := t.deliveries[a], t.deliveries[b];
         D.Due(da) < D.Due(db) || (D.Due(da) == D.Due(db) && da.createdAt <= db.createdAt)
  }

  ghost predicate IsFirst(t: D.Tables, candidates: set<string>, id: string) {
    id in candidates && forall c :: c in candidates ==> NotLater(t, id, c)
  }

  lemma SomeIsFirst(t: D.Tables, candidates: set<string>)
    requires candidates != {}
    ensures exists id :: IsFirst(t, candidates, id)
  {
    var leq := (a: string, b: string) => NotLater(t, a, b);
    Ordering.SomeFirst(candidates, leq);
    var id :| Ordering.First(candidates, leq, id);
    assert forall c :: c in candidates ==> leq(id, c);
    assert IsFirst(t, candidates, id);
  }

  /** The rows a lease may return: eligible and not locked by another transaction. */
  function Ready(t: D.Tables, kinds: set<D.Kind>, now: int, locked: set<string>): set<string> {
    set id | id in t.deliveries && id !in locked && D.Eligible(t, id, kinds, now)
  }

  /** The wallet's test events that are still inside the cooldown. */
  function RecentTests(t: D.Tables, owner: string, now: int, cooldownMs: nat): (recent: set<string>)
    ensures recent == {} <==> !D.CoolingDown(t, owner, now, cooldownMs)
  {
    var recent := set e | e in t.events && t.events[e].eventType == D.TEST_EVENT && t.events[e].aggregateId == owner
                          && t.events[e].occurredAt > now - cooldownMs;
    assert D.CoolingDown(t, owner, now, cooldownMs) ==> recent != {} by {
      if D.CoolingDown(t, owner, now, cooldownMs) {
        var e :| e in t.events && t.events[e].eventType == D.TEST_EVENT && t.events[e].aggregateId == owner
                 && t.events[e].occurredAt > now - cooldownMs;
        assert e in recent;
      }
    }
    recent
  }

  /** `order by occurred_at desc`. */
  predicate NotEarlier(t: D.Tables, a: string, b: string) {
    b in t.events ==> a in t.events && t.events[b].occurredAt <= t.events[a].occurredAt
  }

  ghost predicate IsLatest(t: D.Tables, ids: set<string>, id: string) {
    id in ids && forall e :: e in ids ==> NotEarlier(t, id, e)
  }

  lemma SomeIsLatest(t: D.Tables, ids: set<string>)
    requires ids != {}
    ensures exists id :: IsLatest(t, ids, id)
  {
    var leq := (a: string, b: string) => NotEarlier(t, a, b);
    Ordering.SomeFirst(ids, leq);
    var id :| Ordering.First(ids, leq, id);
    assert forall e :: e in ids ==> leq(id, e);
    assert IsLatest(t, ids, id);
  }

  /** The latest of the recent test events is the latest of all of the wallet's. */
  lemma LatestOfAll(t: D.Tables, owner: string, now: int, cooldownMs: nat, latest: string)
    requires latest in RecentTests(t, owner, now, cooldownMs)
    requires forall e :: e in RecentTests(t, owner, now, cooldownMs) ==> NotEarlier(t, latest, e)
    ensures latest in t.events
    ensures forall e :: e in t.events && t.events[e].eventType == D.TEST_EVENT && t.events[e].aggregateId == owner ==>
                          t.events[e].occurredAt <= t.events[latest].occurredAt
  {
    forall e | e in t.events && t.events[e].eventType == D.TEST_EVENT && t.events[e].aggregateId == owner
      ensures t.events[e].occurredAt <= t.events[latest].occurredAt
    {
      if t.events[e].occurredAt > now - cooldownMs {
        assert e in RecentTests(t, owner, now, cooldownMs);
      }
    }
  }

  class DeliveryRepository {
    var deliveries: map<string, D.Delivery>
    var attempts: map<D.AttemptKey, D.Attempt>
    var subscriptions: map<string, D.Subscription>
    var events: map<string, D.Event>

    function Tables(): D.Tables
      reads this
    {
      D.Tables(deliveries, attempts, subscriptions, events)
    }

    /** A repository works on the tables as it finds them. */
    constructor (tables: D.Tables)
      ensures Tables() == tables
    {
      deliveries, attempts := tables.deliveries, tables.attempts;
      subscriptions, events := tables.subscriptions, tables.events;
    }

    /** Leases the first ready row, or none when no row is ready. `locked` rows belong to other transactions. */
    method LeaseNext(workerId: string, leaseMs: int, kinds: set<D.Kind>, now: int, locked: set<string>)
      returns (result: Result<Option<LeasedDelivery>, Error>)
      modifies this`deliveries, this`attempts
      ensures IsBlank(workerId) ==> result == Err(BlankWorker)
      ensures !IsBlank(workerId) && leaseMs <= 0 ==> result == Err(NotPositive("leaseMs"))
      ensures result.Err? ==> (IsBlank(workerId) || leaseMs <= 0) && Tables() == old(Tables())
      ensures result.Ok? ==>
                (result.value.None? <==>
                   forall id :: id in old(deliveries) && old(D.Eligible(Tables(), id, kinds, now)) ==> id in locked)
      ensures result.Ok? && result.value.None? ==> Tables() == old(Tables())
      ensures result.Ok? && result.value.Some? ==>
                var leased := result.value.value;
                && old(D.Eligible(Tables(), leased.id, kinds, now)) && leased.id !in locked
                && (forall other ::
                      other in old(deliveries) && old(D.Eligible(Tables(), other, kinds, now)) && other !in locked ==>
                        var first, second := old(deliveries)[leased.id], old(deliveries)[other];
                        || D.Due(first) < D.Due(second)
                        || (D.Due(first) == D.Due(second) && first.createdAt <= second.createdAt))
                && Tables() == D.Lease(old(Tables()), leased.id, workerId, leaseMs, now)
                && D.Holds(Tables(), leased.id, workerId, leased.attempt)
                && leased.maxAttempts == deliveries[leased.id].maxAttempts && leased.leaseOwner == workerId
                && leased.subscriptionId == deliveries[leased.id].subscriptionId
    {
      if IsBlank(workerId) {
        return Err(BlankWorker);
      }
      if leaseMs <= 0 {
        return Err(NotPositive("leaseMs"));
      }
      var candidates := Ready(Tables(), kinds, now, locked);
      assert forall id :: id in deliveries && D.Eligible(Tables(), id, kinds, now) && id !in locked ==>
                            id in candidates;
      if kinds == {} || candidates == {} {
        assert kinds == {} ==> candidates == {};
        return Ok(None);
      }
      SomeIsFirst(Tables(), candidates);
      var id :| id in candidates && forall c :: c in candidates ==> NotLater(Tables(), id, c);
      assert forall c :: c in deliveries && D.Eligible(Tables(), c, kinds, now) && c !in locked ==>
                           NotLater(Tables(), id, c);
      var row := deliveries[id];
      deliveries := deliveries[id := row.(status := D.Delivering,
                                          leaseOwner := Some(workerId),
                                          leaseExpiresAt := Some(now + leaseMs),
                                          attemptCount := row.attemptCount + 1)];
      var key := D.AttemptKey(id, deliveries[id].attemptCount);
      if key !in attempts {
        attempts := attempts[key := D.Attempt(D.InFlight, now, None)];
      }
      return Ok(Some(LeasedDelivery(id, row.subscriptionId, key.number, row.maxAttempts, workerId)));
    }

    /** True, and the row delivered, exactly when the caller still holds the lease it was granted. */
    method Complete(id: string, workerId: string, attempt: nat, now: int) returns (completed: bool)
      modifies this`deliveries, this`attempts
      ensures completed == old(D.Holds(Tables(), id, workerId, attempt))
      ensures Tables() == D.Complete(old(Tables()), id, workerId, attempt, now)
    {
      if !D.Holds(Tables(), id, workerId, attempt) {
        return false;
      }
      deliveries := deliveries[id := deliveries[id].(status := D.Delivered, deliveredAt := Some(now),
                                                     nextAttemptAt := None, leaseOwner := None,
                                                     leaseExpiresAt := None)];
      var key := D.AttemptKey(id, attempt);
      if key in attempts {
        attempts := attempts[key := attempts[key].(status := D.Succeeded, finishedAt := Some(now))];
      }
      completed := true;
    }

    /** The select of `fail`. */
    method ReadForFail(id: string, workerId: string) returns (snapshot: Option<D.FailSnapshot>)
      ensures snapshot == D.FailRead(Tables(), id, workerId)
    {
      if id in deliveries && deliveries[id].status == D.Delivering && deliveries[id].leaseOwner == Some(workerId) {
        var row := deliveries[id];
        snapshot := Some(D.FailSnapshot(row.attemptCount, row.maxAttempts, row.subscriptionId));
      } else {
        snapshot := None;
      }
    }

    /** The guarded update of `fail`, decided from what the select returned. */
    method WriteFail(call: D.FailCall, snapshot: D.FailSnapshot) returns (outcome: D.FailOutcome)
      modifies this`deliveries, this`attempts, this`subscriptions
      ensures outcome == D.FailWriteOutcome(old(Tables()), call, snapshot)
      ensures Tables() == D.FailWrite(old(Tables()), call, snapshot)
    {
      var dead := call.terminal || snapshot.attemptCount >= snapshot.maxAttempts;
      if !D.Holds(Tables(), call.id, call.worker, call.attempt) {
        return D.NotOwned;
      }
      var delay := Delay(snapshot.attemptCount, call.base, call.cap);
      deliveries := deliveries[call.id := deliveries[call.id].(
        status := if dead then D.Dead else D.Failed,
        nextAttemptAt := if dead then None else Some(call.now + delay),
        leaseOwner := None,
        leaseExpiresAt := None)];
      var key := D.AttemptKey(call.id, call.attempt);
      if key in attempts {
        attempts := attempts[key := attempts[key].(status := D.Rejected, finishedAt := Some(call.now))];
      }
      if call.terminal && snapshot.subscriptionId in subscriptions {
        var route := subscriptions[snapshot.subscriptionId];
        subscriptions := subscriptions[snapshot.subscriptionId := route.(active := false)];
      }
      outcome := if dead then D.MarkedDead else D.MarkedFailed;
    }

    /**
     * The whole call, undisturbed; DeliverySafety.FailIsAtomic covers the disturbed ones. The back-off options are
     * looked at only once the select has found the row.
     */
    method Fail(id: string, workerId: string, attempt: nat, terminal: bool, base: int, cap: int, now: int)
      returns (result: Result<D.FailOutcome, Error>)
      modifies this`deliveries, this`attempts, this`subscriptions
      ensures result.Err? <==> old(D.FailRead(Tables(), id, workerId)).Some? && (base <= 0 || cap <= 0)
      ensures result.Err? ==> result.error == NotPositive(if base <= 0 then "baseBackoffMs" else "maxBackoffMs")
      ensures result.Err? ==> Tables() == old(Tables())
      ensures result.Ok? && old(D.FailRead(Tables(), id, workerId)).None? ==>
                Tables() == old(Tables()) && result.value == D.NotOwned
      ensures result.Ok? && base > 0 && cap > 0 ==>
                (Tables(), result.value)
                == D.FailAtOnce(old(Tables()), D.FailCall(id, workerId, attempt, terminal, now, base, cap))
    {
      var snapshot := ReadForFail(id, workerId);
      if snapshot.None? {
        return Ok(D.NotOwned);
      }
      if base <= 0 {
        return Err(NotPositive("baseBackoffMs"));
      }
      if cap <= 0 {
        return Err(NotPositive("maxBackoffMs"));
      }
      var outcome := WriteFail(D.FailCall(id, workerId, attempt, terminal, now, base, cap), snapshot.value);
      return Ok(outcome);
    }

    /** A dead delivery of this owner becomes retryable with at least `additional` attempts left. */
    method ReplayDead(id: string, owner: string, additional: int, now: int)
      returns (result: Result<Option<Replay>, Error>)
      modifies this`deliveries
      ensures additional <= 0 <==> result.Err?
      ensures result.Err? ==> result == Err(NotPositive("additionalAttempts")) && Tables() == old(Tables())
      ensures result.Ok? ==> Tables() == D.Replay(old(Tables()), id, owner, additional, now)
      ensures result.Ok? ==> (result.value.Some? <==> old(D.Replayable(Tables(), id, owner)))
      ensures result.Ok? && result.value.Some? ==>
                && result.value.value.nextAttemptAt == now
                && result.value.value.attemptsRemaining >= additional
                && deliveries[id].attemptCount + result.value.value.attemptsRemaining == deliveries[id].maxAttempts
    {
      if additional <= 0 {
        return Err(NotPositive("additionalAttempts"));
      }
      if !D.Replayable(Tables(), id, owner) {
        return Ok(None);
      }
      var row := deliveries[id];
      var maxAttempts := Max(row.maxAttempts, row.attemptCount) + additional;
      deliveries := deliveries[id := row.(status := D.Failed, maxAttempts := maxAttempts, nextAttemptAt := Some(now))];
      return Ok(Some(Replay(now, maxAttempts - row.attemptCount)));
    }

    /** Resolves the event's wallet, creates the missing deliveries and counts them. */
    method MaterializeEvent(eventId: string, origin: Origin, keys: map<string, string>, now: int)
      returns (result: Result<nat, Error>)
      requires eventId in events ==>
                 var owner := OwnerOf(events[eventId].aggregateId, origin);
                 owner.Some? ==> D.FreshKeys(Tables(), keys, Missing(eventId, owner.value))
      modifies this`deliveries
      ensures result.Err? <==> eventId !in events
      ensures eventId !in events ==> result == Err(EventNotFound) && Tables() == old(Tables())
      ensures eventId in events ==>
                match OwnerOf(events[eventId].aggregateId, origin)
                case None => result == Ok(0) && Tables() == old(Tables())
                case Some(owner) =>
                  && result.Ok? && |deliveries| == |old(deliveries)| + result.value
                  && Tables() == D.InsertDeliveries(old(Tables()), keys, eventId, now)
                  && (forall s :: s in old(D.MatchingRoutes(Tables(), owner, events[eventId].eventType)) ==>
                                    D.Routed(Tables(), s, eventId))
                  && (forall s :: D.Creates(old(Tables()), Tables(), s, eventId)
                                  <==> old(D.LiveRoute(Tables(), s, owner)
                                           && events[eventId].eventType in subscriptions[s].eventTypes
                                           && !D.HasRow(Tables(), s, eventId)))
    {
      if eventId !in events {
        return Err(EventNotFound);
      }
      var owner := OwnerOf(events[eventId].aggregateId, origin);
      if owner.None? {
        return Ok(0);
      }
      InsertRoutesAll(Tables(), keys, D.MatchingRoutes(Tables(), owner.value, events[eventId].eventType), eventId, now);
      InsertCount(Tables(), keys, eventId, now);
      InsertCreatesAll(Tables(), keys, owner.value, events[eventId].eventType, eventId, now);
      deliveries := deliveries + map k | k in keys :: D.NewDelivery(keys[k], eventId, now);
      return Ok(|keys|);
    }

    /** The routes that match the event and have no delivery of it yet. */
    function Missing(eventId: string, owner: string): set<string>
      requires eventId in events
      reads this
    {
      D.Unrouted(Tables(), D.MatchingRoutes(Tables(), owner, events[eventId].eventType), eventId)
    }

    /** Queues a test notification to every live route of the wallet, in any spelling, at most once per cooldown. */
    method EnqueueTestNotification(
      eventId: string, ownerAddress: string, cooldownMs: int, keys: map<string, string>, now: int)
      returns (result: Result<Option<TestOutcome>, Error>)
      requires IsAddress(Lower(ownerAddress)) && cooldownMs > 0 && D.Routes(Tables(), Lower(ownerAddress)) != {}
               && !D.CoolingDown(Tables(), Lower(ownerAddress), now, cooldownMs) ==>
                 && eventId !in events
                 && D.FreshKeys(Tables(), keys, D.Unrouted(Tables(), D.Routes(Tables(), Lower(ownerAddress)), eventId))
      modifies this`deliveries, this`events
      ensures result.Err? <==> !IsAddress(Lower(ownerAddress)) || cooldownMs <= 0
      ensures result.Err? ==>
                result.error == if IsAddress(Lower(ownerAddress)) then NotPositive("cooldownMs") else BadOwner
      ensures result.Ok? ==> (result.value.None? <==> old(D.Routes(Tables(), Lower(ownerAddress))) == {})
      ensures result.Ok? && result.value.Some? ==>
                (result.value.value.CoolingDown?
                 <==> exists e :: e in old(events) && old(events)[e].eventType == D.TEST_EVENT
                                  && old(events)[e].aggregateId == Lower(ownerAddress)
                                  && now < old(events)[e].occurredAt + cooldownMs)
      ensures result.Ok? && result.value.Some? && result.value.value.CoolingDown? ==>
                var c := result.value.value;
                && c.eventId in old(events) && old(events)[c.eventId].eventType == D.TEST_EVENT
                && old(events)[c.eventId].aggregateId == Lower(ownerAddress)
                && (forall e :: e in old(events) && old(events)[e].eventType == D.TEST_EVENT
                                && old(events)[e].aggregateId == Lower(ownerAddress) ==>
                                  old(events)[e].occurredAt <= old(events)[c.eventId].occurredAt)
                && c.nextAllowedAt == old(events)[c.eventId].occurredAt + cooldownMs && now < c.nextAllowedAt
                && c.routeCount == |old(D.Routes(Tables(), Lower(ownerAddress)))|
      ensures result.Ok? && result.value.Some? && result.value.value.Queued? ==>
                Tables() == D.TestNotification(old(Tables()), eventId, Lower(ownerAddress), keys, now)
                && result.value.value
                   == Queued(|old(D.Routes(Tables(), Lower(ownerAddress)))|, |keys|, now + cooldownMs)
      ensures !(result.Ok? && result.value.Some? && result.value.value.Queued?) ==> Tables() == old(Tables())
    {
      var owner := Lower(ownerAddress);
      if !IsAddress(owner) {
        return Err(BadOwner);
      }
      if cooldownMs <= 0 {
        return Err(NotPositive("cooldownMs"));
      }
      var routes := D.Routes(Tables(), owner);
      if routes == {} {
        return Ok(None);
      }
      var recent := RecentTests(Tables(), owner, now, cooldownMs);
      if recent != {} {
        SomeIsLatest(Tables(), recent);
        var previous :| previous in recent && forall e :: e in recent ==> NotEarlier(Tables(), previous, e);
        LatestOfAll(Tables(), owner, now, cooldownMs, previous);
        return Ok(Some(CoolingDown(previous, |routes|, events[previous].occurredAt + cooldownMs)));
      }
      events := events[eventId := D.Event(D.TEST_EVENT, owner, now)];
      deliveries := deliveries + map k | k in keys :: D.NewDelivery(keys[k], eventId, now);
      return Ok(Some(Queued(|routes|, |keys|, now + cooldownMs)));
    }
  }

  /** The routes that get a row, in the fields of their subscriptions. */
  lemma InsertCreatesAll(
    t: D.Tables, keys: map<string, string>, owner: string, eventType: string, eventId: string, now: int)
    requires D.FreshKeys(t, keys, D.Unrouted(t, D.MatchingRoutes(t, owner, eventType), eventId))
    ensures forall s :: D.Creates(t, D.InsertDeliveries(t, keys, eventId, now), s, eventId)
                        <==> D.LiveRoute(t, s, owner) && eventType in t.subscriptions[s].eventTypes
                             && !D.HasRow(t, s, eventId)
  {
    forall s ensures D.Creates(t, D.InsertDeliveries(t, keys, eventId, now), s, eventId)
                     <==> D.LiveRoute(t, s, owner) && eventType in t.subscriptions[s].eventTypes
                          && !D.HasRow(t, s, eventId) {
      D.InsertCreates(t, keys, D.MatchingRoutes(t, owner, eventType), eventId, now, s);
    }
  }

  lemma InsertCount(t: D.Tables, keys: map<string, string>, eventId: string, now: int)
    requires keys.Keys !! t.deliveries.Keys
    ensures |D.InsertDeliveries(t, keys, eventId, now).deliveries| == |t.deliveries| + |keys|
  {
    var u := D.InsertDeliveries(t, keys, eventId, now);
    assert u.deliveries.Keys == t.deliveries.Keys + keys.Keys;
    assert |u.deliveries.Keys| == |t.deliveries.Keys| + |keys.Keys|;
  }

  /** After the insert every one of the routes has its delivery, so inserting again would create nothing. */
  lemma InsertRoutesAll(t: D.Tables, keys: map<string, string>, routes: set<string>, eventId: string, now: int)
    requires D.FreshKeys(t, keys, D.Unrouted(t, routes, eventId))
    ensures forall s :: s in routes ==> D.Routed(D.InsertDeliveries(t, keys, eventId, now), s, eventId)
    ensures D.Unrouted(D.InsertDeliveries(t, keys, eventId, now), routes, eventId) == {}
  {
    var u := D.InsertDeliveries(t, keys, eventId, now);
    forall s | s in routes ensures D.Routed(u, s, eventId) {
      if D.Routed(t, s, eventId) {
        var id :| id in t.deliveries && t.deliveries[id].subscriptionId == s && t.deliveries[id].eventId == eventId;
        assert id !in keys && id in u.deliveries && u.deliveries[id] == t.deliveries[id];
      } else {
        assert s in keys.Values;
        var k :| k in keys && keys[k] == s;
        assert u.deliveries[k].subscriptionId == s;
      }
    }
  }
}
