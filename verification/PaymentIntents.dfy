/** The payment-intent services: confirm, cancel and expire. */
module PaymentIntents {
  import opened Common
  import opened Store
  import opened Database
  import R = Ranking

  /** How a service call ends; the last three are the exceptions it raises. */
  datatype Reply = Changed | Unchanged | InvalidTransition | CancellationConflict | IntegrityError

  // -------------------------------------------------------- single intents

  function Settle(s: Store, id: IntentId, row: Intent, occurredAt: int, dbNow: int, ids: seq<DeliveryId>)
    : (Store, Reply)
    requires IsTerminal(row.status)
  {
    match Terminate(s, id, row, occurredAt, dbNow, ids)
    case None => (s, IntegrityError)
    case Some(t) => (t, Changed)
  }

  function Confirm(s: Store, id: IntentId, hash: string, now: int, dbNow: int, ids: seq<DeliveryId>): (Store, Reply)
    requires id in s.intents
  {
    var row := s.intents[id];
    if !CanTransition(row.status, Confirmed) then (s, InvalidTransition)
    else Settle(s, id, row.(status := Confirmed, hash := Some(hash)), now, dbNow, ids)
  }

  function Cancel(s: Store, id: IntentId, reason: Option<string>, now: int, dbNow: int, ids: seq<DeliveryId>)
    : (Store, Reply)
    requires id in s.intents
  {
    var row := s.intents[id];
    if row.status == Cancelled then
      (s, if row.reason != reason then CancellationConflict else Unchanged)
    else if !CanTransition(row.status, Cancelled) then (s, InvalidTransition)
    else Settle(s, id, row.(status := Cancelled, cancelledAt := Some(now), reason := reason), now, dbNow, ids)
  }

  method ConfirmPaymentIntent(db: Session, id: IntentId, hash: string, now: int, dbNow: int, ids: seq<DeliveryId>)
    returns (reply: Reply)
    requires db.Clean() && id in db.committed.intents
    modifies db
    ensures db.Clean()
    ensures (db.committed, reply) == Confirm(old(db.committed), id, hash, now, dbNow, ids)
  {
    var row := db.working.intents[id];
    if !CanTransition(row.status, Confirmed) {
      return InvalidTransition;
    }
    row := row.(status := Confirmed, hash := Some(hash));
    reply := SettleInSession(db, id, row, now, dbNow, ids);
  }

  method CancelPaymentIntent(db: Session, id: IntentId, reason: Option<string>, now: int, dbNow: int,
                             ids: seq<DeliveryId>)
    returns (reply: Reply)
    requires db.Clean() && id in db.committed.intents
    modifies db
    ensures db.Clean()
    ensures (db.committed, reply) == Cancel(old(db.committed), id, reason, now, dbNow, ids)
  {
    var row := db.working.intents[id];
    if row.status == Cancelled {
      if row.reason != reason {
        return CancellationConflict;
      }
      return Unchanged;
    }
    if !CanTransition(row.status, Cancelled) {
      return InvalidTransition;
    }
    row := row.(status := Cancelled, cancelledAt := Some(now), reason := reason);
    reply := SettleInSession(db, id, row, now, dbNow, ids);
  }

  /** The shared tail of the services above: write the row, fan out, commit or roll back. */
  method SettleInSession(db: Session, id: IntentId, row: Intent, occurredAt: int, dbNow: int, ids: seq<DeliveryId>)
    returns (reply: Reply)
    requires db.Clean() && IsTerminal(row.status)
    modifies db
    ensures db.Clean()
    ensures (db.committed, reply) == Settle(old(db.committed), id, row, occurredAt, dbNow, ids)
  {
    var ok := Stage(db, id, row, occurredAt, dbNow, ids);
    if ok {
      db.Commit();
      return Changed;
    }
    db.Rollback();
    return IntegrityError;
  }

  /** Writes a settled row and its deliveries to the session, uncommitted. */
  method Stage(db: Session, id: IntentId, row: Intent, occurredAt: int, dbNow: int, ids: seq<DeliveryId>)
    returns (ok: bool)
    requires IsTerminal(row.status)
    modifies db`working
    ensures
      var after := Terminate(old(db.working), id, row, occurredAt, dbNow, ids);
      ok == after.Some? && (ok ==> db.working == after.value)
  {
    ghost var s := db.working;
    db.working := db.working.(
      intents := db.working.intents[id := row],
      fanout := db.working.fanout[id := EnabledEndpoints(db.working, row.merchant)]);
    assert ListEnabledEndpoints(db.working, row.merchant) == ListEnabledEndpoints(s, row.merchant) by {
      SameEndpoints(s, db.working, row.merchant);
    }
    ok := db.EnqueueDeliveries(id, EventOf(row.status), occurredAt, dbNow, ids);
  }

  lemma SameEndpoints(s: Store, t: Store, m: MerchantId)
    requires s.endpoints == t.endpoints
    ensures ListEnabledEndpoints(s, m) == ListEnabledEndpoints(t, m)
  {
    assert EndpointKeys(s, m) == EndpointKeys(t, m);
  }

  /** The reply to a confirmation, from the columns, and the one column it settles with the status. */
  lemma ConfirmReplies(s: Store, id: IntentId, hash: string, now: int, dbNow: int, ids: seq<DeliveryId>)
    requires id in s.intents
    ensures
      var (t, reply) := Confirm(s, id, hash, now, dbNow, ids);
      && reply == (if s.intents[id].status != Pending then InvalidTransition
                   else if FreshIds(s, ids, EnabledCount(s, s.intents[id].merchant)) then Changed
                   else IntegrityError)
      && (reply != Changed ==> t == s)
      && (reply == Changed ==>
            t.intents == s.intents[id := s.intents[id].(status := Confirmed, hash := Some(hash))])
  {
    hide Terminate, FreshIds, EnabledCount;
    var row := s.intents[id].(status := Confirmed, hash := Some(hash));
    TerminateSucceedsIff(s, id, row, now, dbNow, ids);
    EnqueueKeepsEndpoints(s, id, row, now, dbNow, ids);
  }

  /** The reply to a cancellation, from the columns, and the columns it settles. */
  lemma CancelReplies(s: Store, id: IntentId, reason: Option<string>, now: int, dbNow: int, ids: seq<DeliveryId>)
    requires id in s.intents
    ensures
      var (t, reply) := Cancel(s, id, reason, now, dbNow, ids);
      && reply == (match s.intents[id].status
                   case Cancelled => if s.intents[id].reason == reason then Unchanged else CancellationConflict
                   case Confirmed => InvalidTransition
                   case Expired => InvalidTransition
                   case Pending =>
                     if FreshIds(s, ids, EnabledCount(s, s.intents[id].merchant)) then Changed else IntegrityError)
      && (reply != Changed ==> t == s)
      && (reply == Changed ==>
            t.intents
            == s.intents[id := s.intents[id].(status := Cancelled, cancelledAt := Some(now), reason := reason)])
  {
    hide Terminate, FreshIds, EnabledCount;
    var row := s.intents[id].(status := Cancelled, cancelledAt := Some(now), reason := reason);
    TerminateSucceedsIff(s, id, row, now, dbNow, ids);
    EnqueueKeepsEndpoints(s, id, row, now, dbNow, ids);
  }

  // ---------------------------------------------------------------- expiry

  function ExpiryKey(id: IntentId, i: Intent): R.Key {
    R.Key(i.expiresAt, 0, 0, id)
  }

  function DueKeys(s: Store, now: int): set<R.Key> {
    set i <- s.intents | s.intents[i].status == Pending && s.intents[i].expiresAt <= now
      :: ExpiryKey(i, s.intents[i])
  }

  /** The pending intents past their time, earliest first, at most `limit`. */
  function ExpiredPending(s: Store, now: int, limit: nat): (batch: seq<R.Key>)
    ensures forall k :: k in batch ==> k.id in s.intents && k in DueKeys(s, now)
  {
    R.First(DueKeys(s, now), limit)
  }

  datatype Expiring = Expiring(store: Store, expired: nat, drawn: nat)

  function Rest<T>(s: seq<T>, n: nat): seq<T> {
    if n <= |s| then s[n..] else []
  }

  /** The session after the loop has handled the first `n` rows of the batch. */
  function ExpireFirst(s: Store, batch: seq<R.Key>, n: nat, now: int, dbNow: int,
                       ids: seq<DeliveryId>): (r: Option<Expiring>)
    requires n <= |batch| && forall k :: k in batch ==> k.id in s.intents
    ensures r.Some? ==> r.value.store.intents.Keys == s.intents.Keys && r.value.store.endpoints == s.endpoints
  {
    if n == 0 then Some(Expiring(s, 0, 0)) else
      match ExpireFirst(s, batch, n - 1, now, dbNow, ids)
      case None => None
      case Some(e) => ExpireNext(e, batch[n - 1].id, now, dbNow, ids)
  }

  /** One turn of the loop. */
  function ExpireNext(e: Expiring, id: IntentId, now: int, dbNow: int, ids: seq<DeliveryId>): (r: Option<Expiring>)
    requires id in e.store.intents
    ensures r.Some? ==>
              r.value.store.intents.Keys == e.store.intents.Keys && r.value.store.endpoints == e.store.endpoints
  {
    var row := e.store.intents[id];
    if !CanTransition(row.status, Expired) then Some(e)
    else
      match Terminate(e.store, id, row.(status := Expired), now, dbNow, Rest(ids, e.drawn))
      case None => None
      case Some(t) =>
        EnqueueKeepsEndpoints(e.store, id, row.(status := Expired), now, dbNow, Rest(ids, e.drawn));
        Some(Expiring(t, e.expired + 1, e.drawn + |ListEnabledEndpoints(e.store, row.merchant)|))
  }

  lemma EnqueueKeepsEndpoints(s: Store, id: IntentId, row: Intent, occurredAt: int, dbNow: int, ids: seq<DeliveryId>)
    requires IsTerminal(row.status)
    ensures
      var r := Terminate(s, id, row, occurredAt, dbNow, ids);
      r.Some? ==> r.value.endpoints == s.endpoints && r.value.intents == s.intents[id := row]
  {
    var s1 := s.(intents := s.intents[id := row],
                 fanout := s.fanout[id := EnabledEndpoints(s, row.merchant)]);
    EnqueueEndpoints(s1, id, EventOf(row.status), occurredAt, dbNow, ListEnabledEndpoints(s, row.merchant), ids);
  }

  lemma EnqueueEndpoints(s: Store, id: IntentId, event: EventType, occurredAt: int, dbNow: int,
                         targets: seq<EndpointId>, ids: seq<DeliveryId>)
    requires id in s.intents
    ensures
      var r := Enqueue(s, id, event, occurredAt, dbNow, targets, ids);
      r.Some? ==> r.value.endpoints == s.endpoints
  {
  }

  /** One run of the expirer's service: the new rows and how many it expired. */
  function ExpirePending(s: Store, limit: nat, now: int, dbNow: int, ids: seq<DeliveryId>): Option<Expiring> {
    var batch := ExpiredPending(s, now, limit);
    ExpireFirst(s, batch, |batch|, now, dbNow, ids)
  }

  /** The body of the loop: the new count of expired intents and of drawn ids. */
  method ExpireOne(db: Session, id: IntentId, count: nat, drawn: nat, now: int, dbNow: int, ids: seq<DeliveryId>)
    returns (next: Option<(nat, nat)>)
    requires id in db.working.intents
    modifies db`working
    ensures
      match ExpireNext(Expiring(old(db.working), count, drawn), id, now, dbNow, ids)
      case None => next == None
      case Some(e) => next == Some((e.expired, e.drawn)) && db.working == e.store
  {
    hide ListEnabledEndpoints, Terminate;
    var row := db.working.intents[id];
    if !CanTransition(row.status, Expired) {
      return Some((count, drawn));
    }
    var fanned := |ListEnabledEndpoints(db.working, row.merchant)|;
    var ok := Stage(db, id, row.(status := Expired), now, dbNow, Rest(ids, drawn));
    return if ok then Some((count + 1, drawn + fanned)) else None;
  }

  /** None is an exception, in the loop or of the commit: the session is left for the caller to roll back. */
  method ExpirePendingPaymentIntents(db: Session, limit: nat, now: int, dbNow: int, ids: seq<DeliveryId>,
                                     commitFails: bool)
    returns (expired: Option<nat>)
    requires db.Clean()
    modifies db
    ensures
      match ExpirePending(old(db.committed), limit, now, dbNow, ids)
      case None => expired == None && db.committed == old(db.committed)
      case Some(e) =>
        if commitFails then expired == None && db.committed == old(db.committed)
        else expired == Some(e.expired) && db.committed == e.store && db.Clean()
  {
    hide ListEnabledEndpoints, Terminate, ExpireNext, ExpiredPending;
    var batch := ExpiredPending(db.working, now, limit);
    var count: nat := 0;
    var drawn: nat := 0;
    var n := 0;
    while n < |batch|
      invariant 0 <= n <= |batch|
      invariant db.committed == old(db.committed)
      invariant ExpireFirst(old(db.committed), batch, n, now, dbNow, ids) == Some(Expiring(db.working, count, drawn))
    {
      var next := ExpireOne(db, batch[n].id, count, drawn, now, dbNow, ids);
      n := n + 1;
      if next.None? {
        ExpireStuck(old(db.committed), batch, n, |batch|, now, dbNow, ids);
        return None;
      }
      count, drawn := next.value.0, next.value.1;
    }
    if commitFails {
      return None;
    }
    db.Commit();
    return Some(count);
  }

  lemma {:induction false} ExpireStuck(s: Store, batch: seq<R.Key>, n: nat, m: nat, now: int, dbNow: int,
                                       ids: seq<DeliveryId>)
    requires n <= m <= |batch| && forall k :: k in batch ==> k.id in s.intents
    requires ExpireFirst(s, batch, n, now, dbNow, ids).None?
    ensures ExpireFirst(s, batch, m, now, dbNow, ids).None?
  {
    hide ListEnabledEndpoints, Terminate, ExpireNext;
    if n < m { ExpireStuck(s, batch, n, m - 1, now, dbNow, ids); }
  }
}
