/** What confirming, cancelling and expiring intents keep. */
module IntentFacts {
  import opened Common
  import opened Store
  import opened PaymentIntents
  import opened WebhookDelivery
  import opened DeliveryFacts
  import R = Ranking

  /** The invariant of the tables and of the send log behind them. */
  ghost predicate TablesOk(s: Store, maxAttempts: nat, log: seq<Sent>) {
    StoreOk(s) && SchedulesOk(s, maxAttempts) && ReceiptsOk(s, log)
  }

  lemma FannedTables(s: Store, id: IntentId, row: Intent, occurredAt: int, dbNow: int, t: Store,
                     maxAttempts: nat, log: seq<Sent>)
    requires TablesOk(s, maxAttempts, log) && StoreOk(t)
    requires IsTerminal(row.status) && Fanned(s, id, row, occurredAt, dbNow, t)
    ensures TablesOk(t, maxAttempts, log)
  {
    forall d <- t.deliveries
      ensures d in t.trail && ScheduleOk(t.deliveries[d], t.trail[d].attempts, maxAttempts)
              && ReceiptOk(t.deliveries[d], d, t.trail[d].receipt, log)
    {
      if d !in s.deliveries { assert NewFor(s, id, row, occurredAt, dbNow, t, d); }
    }
  }

  /** What a settled intent may differ in from its pending row. */
  ghost predicate Settles(a: Intent, b: Intent) {
    a.status == Pending && IsTerminal(b.status) && SameIdentity(a, b) && IntentOk(b)
  }

  /** A service call that settles one intent, or changes nothing. */
  lemma SettleFacts(s: Store, id: IntentId, row: Intent, occurredAt: int, dbNow: int, ids: seq<DeliveryId>,
                    maxAttempts: nat, log: seq<Sent>)
    requires TablesOk(s, maxAttempts, log)
    requires id in s.intents && Settles(s.intents[id], row)
    ensures
      var (t, reply) := Settle(s, id, row, occurredAt, dbNow, ids);
      && TablesOk(t, maxAttempts, log) && Evolves(s, t)
      && (reply == Changed ==> Fanned(s, id, row, occurredAt, dbNow, t))
      && (reply != Changed ==> t == s)
  {
    hide ListEnabledEndpoints, Terminate, TablesOk, Fanned, StoreOk, Evolves;
    SelfEvolves(s);
    match Terminate(s, id, row, occurredAt, dbNow, ids)
    case None =>
    case Some(t) =>
      TerminateTables(s, id, row, occurredAt, dbNow, ids, t, maxAttempts, log);
  }

  lemma SelfEvolves(s: Store)
    ensures Evolves(s, s)
  {
  }

  lemma TerminateTables(s: Store, id: IntentId, row: Intent, occurredAt: int, dbNow: int, ids: seq<DeliveryId>,
                        t: Store, maxAttempts: nat, log: seq<Sent>)
    requires TablesOk(s, maxAttempts, log)
    requires id in s.intents && Settles(s.intents[id], row)
    requires Terminate(s, id, row, occurredAt, dbNow, ids) == Some(t)
    ensures TablesOk(t, maxAttempts, log) && Evolves(s, t) && Fanned(s, id, row, occurredAt, dbNow, t)
  {
    hide ListEnabledEndpoints, Terminate, Fanned;
    TerminateFacts(s, id, row, occurredAt, dbNow, ids, t);
    FannedTables(s, id, row, occurredAt, dbNow, t, maxAttempts, log);
  }

  lemma ConfirmFacts(s: Store, id: IntentId, hash: string, now: int, dbNow: int, ids: seq<DeliveryId>,
                     maxAttempts: nat, log: seq<Sent>)
    requires TablesOk(s, maxAttempts, log) && id in s.intents
    ensures
      var (t, reply) := Confirm(s, id, hash, now, dbNow, ids);
      && TablesOk(t, maxAttempts, log) && Evolves(s, t)
      && (reply == Changed ==>
            && s.intents[id].status == Pending
            && Fanned(s, id, s.intents[id].(status := Confirmed, hash := Some(hash)), now, dbNow, t))
      && (reply != Changed ==> t == s)
  {
    hide Settle, Fanned;
    SelfEvolves(s);
    if s.intents[id].status == Pending {
      assert IntentOk(s.intents[id]);
      SettleFacts(s, id, s.intents[id].(status := Confirmed, hash := Some(hash)), now, dbNow, ids, maxAttempts, log);
    }
  }

  lemma CancelFacts(s: Store, id: IntentId, reason: Option<string>, now: int, dbNow: int, ids: seq<DeliveryId>,
                    maxAttempts: nat, log: seq<Sent>)
    requires TablesOk(s, maxAttempts, log) && id in s.intents
    ensures
      var (t, reply) := Cancel(s, id, reason, now, dbNow, ids);
      && TablesOk(t, maxAttempts, log) && Evolves(s, t)
      && (reply == Changed ==>
            && s.intents[id].status == Pending
            && Fanned(s, id, s.intents[id].(status := Cancelled, cancelledAt := Some(now), reason := reason), now,
                      dbNow, t))
      && (reply != Changed ==> t == s)
  {
    hide Settle, Fanned;
    SelfEvolves(s);
    if s.intents[id].status == Pending {
      assert IntentOk(s.intents[id]);
      SettleFacts(s, id, s.intents[id].(status := Cancelled, cancelledAt := Some(now), reason := reason), now, dbNow,
                  ids,
                  maxAttempts, log);
    }
  }

  /** In any later store a cancellation is absorbed when repeated and refused when its reason differs. */
  lemma CancellationIsIdempotent(s: Store, id: IntentId, reason: Option<string>, now: int, dbNow: int,
                                 ids: seq<DeliveryId>,
                                 u: Store, again: Option<string>, now': int, dbNow': int, ids': seq<DeliveryId>)
    requires StoreOk(s) && id in s.intents
    requires Cancel(s, id, reason, now, dbNow, ids).1 in {Changed, Unchanged}
    requires Evolves(Cancel(s, id, reason, now, dbNow, ids).0, u)
    ensures id in u.intents
    ensures Cancel(u, id, again, now', dbNow', ids') == (u, if again == reason then Unchanged else CancellationConflict)
  {
    if s.intents[id].status != Cancelled {
      var row := s.intents[id].(status := Cancelled, cancelledAt := Some(now), reason := reason);
      EnqueueKeepsEndpoints(s, id, row, now, dbNow, ids);
    }
  }

  // ---------------------------------------------------------------- expiry

  ghost predicate ExpiryBatch(s: Store, batch: seq<R.Key>) {
    && (forall k <- batch :: k.id in s.intents && s.intents[k.id].status == Pending)
    && (forall i, j :: 0 <= i < j < |batch| ==> batch[i].id != batch[j].id)
  }

  lemma ExpiredPendingBatch(s: Store, now: int, limit: nat)
    ensures ExpiryBatch(s, ExpiredPending(s, now, limit))
  {
    var batch := ExpiredPending(s, now, limit);
    forall i, j | 0 <= i < j < |batch| ensures batch[i].id != batch[j].id {
      assert batch[i] in batch && batch[j] in batch;
    }
  }

  /** The intents after the first `n` of the batch have expired. */
  ghost predicate ExpiredExactly(s: Store, t: Store, batch: seq<R.Key>, n: nat)
    requires n <= |batch|
  {
    && t.intents.Keys == s.intents.Keys
    && forall i <- s.intents ::
         t.intents[i] == if i in Ids(batch, n) then s.intents[i].(status := Expired) else s.intents[i]
  }

  /** A delivery as an event at `now` queues it. */
  ghost predicate Queued(row: Delivery, origin: EndpointId, now: int) {
    && row.status == Waiting && row.attemptCount == 0 && row.lastAttemptAt == None
    && row.nextAttemptAt == Some(now) && row.payload.occurredAt == now
    && row.endpoint == Some(origin)
  }

  /** The deliveries of `s` with new ones, due from `now` on. */
  ghost predicate QueueExtended(s: Store, t: Store, now: int) {
    && (forall d <- s.deliveries :: d in t.deliveries && t.deliveries[d] == s.deliveries[d])
    && (forall d <- t.deliveries ::
          d in s.deliveries || (d in t.trail && Queued(t.deliveries[d], t.trail[d].origin, now)))
  }

  lemma FannedExtendsQueue(s: Store, id: IntentId, row: Intent, now: int, dbNow: int, t: Store)
    requires IsTerminal(row.status) && Fanned(s, id, row, now, dbNow, t)
    ensures QueueExtended(s, t, now)
  {
    forall d <- t.deliveries
      ensures d in s.deliveries || (d in t.trail && Queued(t.deliveries[d], t.trail[d].origin, now))
    {
      if d !in s.deliveries { assert NewFor(s, id, row, now, dbNow, t, d); }
    }
  }

  /** The state of the expirer's loop after `n` turns. */
  ghost predicate ExpiringOk(s: Store, batch: seq<R.Key>, n: nat, e: Expiring, now: int, maxAttempts: nat,
                             log: seq<Sent>)
    requires n <= |batch|
  {
    && TablesOk(e.store, maxAttempts, log) && Evolves(s, e.store)
    && e.expired == n && ExpiredExactly(s, e.store, batch, n)
    && QueueExtended(s, e.store, now)
    && e.store.endpoints == s.endpoints && FansSettled(s, e.store)
  }

  /** Every intent settled between `s` and `t` was fanned out to the endpoints enabled in `s`. */
  ghost predicate FansSettled(s: Store, t: Store) {
    forall i <- s.intents ::
      s.intents[i].status == Pending && i in t.intents && IsTerminal(t.intents[i].status) ==>
        i in t.fanout && t.fanout[i] == EnabledEndpoints(s, s.intents[i].merchant)
  }

  lemma {:induction false} ExpireFirstFacts(s: Store, batch: seq<R.Key>, n: nat, now: int, dbNow: int,
                                            ids: seq<DeliveryId>,
                                            maxAttempts: nat, log: seq<Sent>)
    requires TablesOk(s, maxAttempts, log) && n <= |batch| && ExpiryBatch(s, batch)
    requires ExpireFirst(s, batch, n, now, dbNow, ids).Some?
    ensures ExpiringOk(s, batch, n, ExpireFirst(s, batch, n, now, dbNow, ids).value, now, maxAttempts, log)
  {
    hide ListEnabledEndpoints, Terminate, TablesOk, Fanned, StoreOk;
    if n == 0 {
      SelfEvolves(s);
    } else {
      ExpireFirstFacts(s, batch, n - 1, now, dbNow, ids, maxAttempts, log);
      var e := ExpireFirst(s, batch, n - 1, now, dbNow, ids).value;
      ExpireNextFacts(s, batch, n, e, now, dbNow, ids, maxAttempts, log);
    }
  }

  lemma ExpireNextFacts(s: Store, batch: seq<R.Key>, n: nat, e: Expiring, now: int, dbNow: int, ids: seq<DeliveryId>,
                        maxAttempts: nat, log: seq<Sent>)
    requires 0 < n <= |batch| && ExpiryBatch(s, batch)
    requires ExpiringOk(s, batch, n - 1, e, now, maxAttempts, log)
    requires batch[n - 1].id in e.store.intents
    requires ExpireNext(e, batch[n - 1].id, now, dbNow, ids).Some?
    ensures ExpiringOk(s, batch, n, ExpireNext(e, batch[n - 1].id, now, dbNow, ids).value, now, maxAttempts, log)
  {
    hide ListEnabledEndpoints, Terminate, SchedulesOk, ReceiptsOk, OutboxOk, Evolves;
    var id := batch[n - 1].id;
    assert batch[n - 1] in batch;
    assert id !in Ids(batch, n - 1);
    assert e.store.intents[id] == s.intents[id];
    var row := e.store.intents[id].(status := Expired);
    assert IntentOk(e.store.intents[id]);
    var rest := Rest(ids, e.drawn);
    var t := Terminate(e.store, id, row, now, dbNow, rest).value;
    TerminateTables(e.store, id, row, now, dbNow, rest, t, maxAttempts, log);
    EvolvesTransitive(s, e.store, t);
    FannedExtendsQueue(e.store, id, row, now, dbNow, t);
    assert Ids(batch, n) == Ids(batch, n - 1) + {id} by {
      assert batch[..n] == batch[..n - 1] + [batch[n - 1]];
    }
  }

  // ------------------------------------------------- when an expiry succeeds

  /** The deliveries that the first `n` of the batch need. */
  ghost function Needed(s: Store, batch: seq<R.Key>, n: nat): nat
    requires n <= |batch| && ExpiryBatch(s, batch)
  {
    if n == 0 then 0 else
      assert batch[n - 1] in batch;
      Needed(s, batch, n - 1) + EnabledCount(s, s.intents[batch[n - 1].id].merchant)
  }

  /** Drawing `a` ids and then `b` more is drawing them all. */
  lemma FreshInTurn(s: Store, t: Store, ids: seq<DeliveryId>, a: nat, b: nat)
    requires FreshIds(s, ids, a) && forall d :: d in t.deliveries <==> d in s.deliveries || d in ids[..a]
    ensures FreshIds(t, Rest(ids, a), b) <==> FreshIds(s, ids, a + b)
    ensures FreshIds(s, ids, a + b) ==> forall d :: d in ids[..a + b] <==> d in ids[..a] || d in Rest(ids, a)[..b]
  {
    var rest := Rest(ids, a);
    if a + b <= |ids| {
      assert ids[..a + b] == ids[..a] + rest[..b];
      assert forall k :: 0 <= k < b ==> rest[k] == ids[a + k];
      if FreshIds(t, rest, b) { FreshTogether(s, t, ids, a, b); }
      if FreshIds(s, ids, a + b) { FreshApart(s, t, ids, a, b); }
    }
  }

  lemma FreshTogether(s: Store, t: Store, ids: seq<DeliveryId>, a: nat, b: nat)
    requires a + b <= |ids| && FreshIds(s, ids, a) && FreshIds(t, ids[a..], b)
    requires forall d :: d in t.deliveries <==> d in s.deliveries || d in ids[..a]
    ensures FreshIds(s, ids, a + b)
  {
    forall k, j | 0 <= j < k < a + b ensures ids[j] != ids[k] {
      if a <= k {
        assert ids[a..][k - a] == ids[k];
        if j < a { assert ids[..a][j] == ids[j]; } else { assert ids[a..][j - a] == ids[j]; }
      }
    }
    forall k | 0 <= k < a + b ensures ids[k] !in s.deliveries {
      if a <= k { assert ids[a..][k - a] == ids[k]; }
    }
  }

  lemma FreshApart(s: Store, t: Store, ids: seq<DeliveryId>, a: nat, b: nat)
    requires FreshIds(s, ids, a + b) && forall d :: d in t.deliveries <==> d in s.deliveries || d in ids[..a]
    ensures FreshIds(t, ids[a..], b)
  {
    forall k | 0 <= k < b ensures ids[a..][k] !in t.deliveries {
      assert ids[a..][k] == ids[a + k];
      assert forall j :: 0 <= j < a ==> ids[..a][j] == ids[j] != ids[a + k];
    }
    forall j, k | 0 <= j < k < b ensures ids[a..][j] != ids[a..][k] {
      assert ids[a..][j] == ids[a + j] && ids[a..][k] == ids[a + k];
    }
  }

  /** The expiry of a batch fails exactly when an id that its deliveries need is missing or taken. */
  lemma {:induction false} ExpireSucceedsIff(s: Store, batch: seq<R.Key>, n: nat, now: int, dbNow: int,
                                             ids: seq<DeliveryId>)
    requires n <= |batch| && ExpiryBatch(s, batch)
    ensures
      var r := ExpireFirst(s, batch, n, now, dbNow, ids);
      && (r.Some? <==> FreshIds(s, ids, Needed(s, batch, n)))
      && (r.Some? ==>
            && r.value.drawn == Needed(s, batch, n)
            && (forall d :: d in r.value.store.deliveries <==> d in s.deliveries || d in ids[..Needed(s, batch, n)])
            && (forall k :: n <= k < |batch| ==>
                  batch[k].id in s.intents && r.value.store.intents[batch[k].id] == s.intents[batch[k].id]))
  {
    hide ExpireNext, EnabledCount;
    assert forall k :: 0 <= k < |batch| ==> batch[k] in batch;
    if n > 0 {
      ExpireSucceedsIff(s, batch, n - 1, now, dbNow, ids);
      var r := ExpireFirst(s, batch, n - 1, now, dbNow, ids);
      if r.Some? {
        ExpireNextSucceedsIff(s, batch, n, r.value, now, dbNow, ids);
      } else {
        FewerFail(s, ids, Needed(s, batch, n - 1), Needed(s, batch, n));
      }
    }
  }

  lemma FewerFail(s: Store, ids: seq<DeliveryId>, m: nat, n: nat)
    requires m <= n && !FreshIds(s, ids, m)
    ensures !FreshIds(s, ids, n)
  {
  }

  lemma ExpireNextSucceedsIff(s: Store, batch: seq<R.Key>, n: nat, e: Expiring, now: int, dbNow: int,
                              ids: seq<DeliveryId>)
    requires 0 < n <= |batch| && ExpiryBatch(s, batch)
    requires ExpireFirst(s, batch, n - 1, now, dbNow, ids) == Some(e)
    requires FreshIds(s, ids, Needed(s, batch, n - 1)) && e.drawn == Needed(s, batch, n - 1)
    requires forall d :: d in e.store.deliveries <==> d in s.deliveries || d in ids[..Needed(s, batch, n - 1)]
    requires forall k :: n - 1 <= k < |batch| ==>
               && batch[k].id in s.intents && batch[k].id in e.store.intents
               && e.store.intents[batch[k].id] == s.intents[batch[k].id]
    ensures
      var r := ExpireNext(e, batch[n - 1].id, now, dbNow, ids);
      && (r.Some? <==> FreshIds(s, ids, Needed(s, batch, n)))
      && (r.Some? ==>
            && r.value.drawn == Needed(s, batch, n)
            && (forall d :: d in r.value.store.deliveries <==> d in s.deliveries || d in ids[..Needed(s, batch, n)])
            && (forall k :: n <= k < |batch| ==> r.value.store.intents[batch[k].id] == s.intents[batch[k].id]))
  {
    hide ExpireFirst, Terminate, ListEnabledEndpoints, FreshIds, EnabledCount;
    assert batch[n - 1] in batch;
    var id := batch[n - 1].id;
    var row := e.store.intents[id].(status := Expired);
    var a, b := Needed(s, batch, n - 1), EnabledCount(s, s.intents[id].merchant);
    SameEndpoints(s, e.store, row.merchant);
    ListedCount(s, row.merchant);
    ListedCount(e.store, row.merchant);
    TerminateSucceedsIff(e.store, id, row, now, dbNow, Rest(ids, a));
    EnqueueKeepsEndpoints(e.store, id, row, now, dbNow, Rest(ids, a));
    FreshInTurn(s, e.store, ids, a, b);
  }
}
