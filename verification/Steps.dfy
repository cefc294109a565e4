/** What an event of a run does, on the columns of the tables and on the orders. */
module Steps {
  import opened Common
  import opened Store
  import opened PaymentIntents
  import opened Receiver
  import opened WebhookDelivery
  import opened World
  import L = DeliveryLog
  import M = Money
  import X = XrplPayments

  /** The merchant's own pending intent is settled as `row`, unless a delivery cannot be stored. */
  ghost predicate SettlesOwn(s: Store, t: Store, m: MerchantId, i: IntentId, row: Intent, ids: seq<DeliveryId>) {
    t.intents ==
      if && i in s.intents && s.intents[i].merchant == m && s.intents[i].status == Pending
         && FreshIds(s, ids, EnabledCount(s, m))
      then s.intents[i := row] else s.intents
  }

  ghost predicate ConfirmsOwn(s: Store, t: Store, m: MerchantId, i: IntentId, hash: string, ids: seq<DeliveryId>) {
    i in s.intents ==> SettlesOwn(s, t, m, i, s.intents[i].(status := Confirmed, hash := Some(hash)), ids)
  }

  ghost predicate CancelsOwn(s: Store, t: Store, m: MerchantId, i: IntentId, reason: Option<string>, now: int,
                             ids: seq<DeliveryId>) {
    i in s.intents ==>
      SettlesOwn(s, t, m, i, s.intents[i].(status := Cancelled, cancelledAt := Some(now), reason := reason), ids)
  }

  /** No row that was there changes, and no delivery goes. */
  ghost predicate KeepsDeliveries(s: Store, t: Store) {
    forall d <- s.deliveries :: d in t.deliveries && t.deliveries[d] == s.deliveries[d]
  }

  lemma ConfirmEvent(s: Store, now: int, m: MerchantId, i: IntentId, hash: string, dbNow: int, ids: seq<DeliveryId>)
    requires s.deliveries.Keys == s.trail.Keys
    ensures
      var t := IntentStep(s, now, ConfirmIntent(m, i, hash, dbNow, ids));
      ConfirmsOwn(s, t, m, i, hash, ids) && t.endpoints == s.endpoints && KeepsDeliveries(s, t)
      && (t.intents == s.intents ==> t == s)
  {
    hide Terminate, FreshIds, EnabledCount;
    if i in s.intents {
      var row := s.intents[i].(status := Confirmed, hash := Some(hash));
      ConfirmReplies(s, i, hash, now, dbNow, ids);
      TerminateKeeps(s, i, row, now, dbNow, ids);
    }
  }

  lemma CancelEvent(s: Store, now: int, m: MerchantId, i: IntentId, reason: Option<string>, dbNow: int,
                    ids: seq<DeliveryId>)
    requires s.deliveries.Keys == s.trail.Keys
    ensures
      var t := IntentStep(s, now, CancelIntent(m, i, reason, dbNow, ids));
      CancelsOwn(s, t, m, i, reason, now, ids) && t.endpoints == s.endpoints && KeepsDeliveries(s, t)
      && (t.intents == s.intents ==> t == s)
  {
    hide Terminate, FreshIds, EnabledCount;
    if i in s.intents {
      var row := s.intents[i].(status := Cancelled, cancelledAt := Some(now), reason := reason);
      CancelReplies(s, i, reason, now, dbNow, ids);
      TerminateKeeps(s, i, row, now, dbNow, ids);
    }
  }

  lemma TerminateKeeps(s: Store, id: IntentId, row: Intent, occurredAt: int, dbNow: int, ids: seq<DeliveryId>)
    requires IsTerminal(row.status) && s.deliveries.Keys == s.trail.Keys
    ensures
      var r := Terminate(s, id, row, occurredAt, dbNow, ids);
      r.Some? ==> KeepsDeliveries(s, r.value) && r.value.endpoints == s.endpoints
  {
    hide Terminate;
    if Terminate(s, id, row, occurredAt, dbNow, ids).Some? {
      TerminateFans(s, id, row, occurredAt, dbNow, ids, Terminate(s, id, row, occurredAt, dbNow, ids).value);
    }
  }

  /** Registering, changing and deleting an endpoint; deleting it unlinks its deliveries and no others. */
  lemma EndpointEvents(s: Store, a: EndpointAction)
    ensures
      var t := EndpointStep(s, a);
      && t.intents == s.intents && t.fanout == s.fanout && t.trail == s.trail
      && t.deliveries.Keys == s.deliveries.Keys
      && (forall e :: e != a.endpoint ==>
            (e in t.endpoints <==> e in s.endpoints) && (e in s.endpoints ==> t.endpoints[e] == s.endpoints[e]))
      && (forall d <- s.deliveries ::
            && t.deliveries[d] == s.deliveries[d].(endpoint := t.deliveries[d].endpoint)
            && (a.DeleteEndpoint? && s.deliveries[d].endpoint == Some(a.endpoint) ==> t.deliveries[d].endpoint == None)
            && (!(a.DeleteEndpoint? && s.deliveries[d].endpoint == Some(a.endpoint)) ==>
                  t.deliveries[d].endpoint == s.deliveries[d].endpoint))
      && match a
         case AddEndpoint(e, row) =>
           e in t.endpoints && t.endpoints[e] == if e in s.endpoints then s.endpoints[e] else row
         case PatchEndpoint(e, url, enabled) =>
           && (e in t.endpoints <==> e in s.endpoints)
           && (e in s.endpoints ==>
                 t.endpoints[e] == Endpoint(s.endpoints[e].merchant, url, enabled, s.endpoints[e].createdAt))
         case DeleteEndpoint(e) => e !in t.endpoints
  {
  }

  ghost predicate Retriable(s: Store, m: MerchantId, d: DeliveryId) {
    d in s.deliveries && s.deliveries[d].merchant == m && s.deliveries[d].status != Delivered
  }

  /** A retry is the merchant's own; it reopens the row, or is refused because the row is delivered. */
  lemma RetryEvent(cfg: Config, w: World, now: int, m: MerchantId, d: DeliveryId)
    requires Keyed(w.store)
    ensures
      var v := Act(cfg, w, now, RetryHook(m, d));
      && v == w.(store := v.store)
      && (!Retriable(w.store, m, d) ==> v == w)
      && (Retriable(w.store, m, d) ==>
            && d in v.store.deliveries && v.store.deliveries - {d} == w.store.deliveries - {d}
            && v.store.deliveries[d].status == Waiting && v.store.deliveries[d].attemptCount == 0
            && v.store.deliveries[d].nextAttemptAt == Some(now))
  {
    hide RetryDelivery;
    if d in w.store.deliveries && w.store.deliveries[d].merchant == m { L.RetryReopens(w.store, d, now); }
  }

  /**
   * A POST is answered as the server likes, except that a shop without the
   * order answers 404.  It changes no order but the one it is about, and that
   * only when a shop accepts it.
   */
  lemma PostReaches(net: Net, shops: set<Url>, url: Url, d: DeliveryId, p: Payload, post: Post)
    ensures
      var (after, answer) := Transmit(net, shops, url, d, p, post);
      var place := (url, p.data.id);
      && answer == (if Success(post) && url in shops && place !in net.orders then Answer(404) else post)
      && after.log == net.log + [Sent(url, d, p, Success(answer))]
      && after.orders.Keys == net.orders.Keys && after.orders - {place} == net.orders - {place}
      && (place in net.orders ==>
            after.orders[place] == if Success(answer) && url in shops then Handle(net.orders[place], p)
                                   else net.orders[place])
  {
  }

  /** A shop that handles an entry of the log once more changes the order of the entry, and nothing else. */
  lemma RedeliveryHandles(cfg: Config, w: World, k: nat)
    ensures
      var net := ShopStep(cfg, w, Redeliver(k));
      && net.log == w.net.log
      && (if k < |w.net.log| && w.net.log[k].url in cfg.shops
             && (w.net.log[k].url, w.net.log[k].payload.data.id) in w.net.orders then
            var place := (w.net.log[k].url, w.net.log[k].payload.data.id);
            && place in net.orders && net.orders - {place} == w.net.orders - {place}
            && net.orders[place] == Handle(w.net.orders[place], w.net.log[k].payload)
          else net == w.net)
  {
  }

  /** A detected payment reaches the tables exactly when it passes the schema and matches a pending intent. */
  lemma DetectEvent(s: Store, now: int, d: X.Detected, dbNow: int, ids: seq<DeliveryId>, i: IntentId)
    requires X.UniqueReferences(s) && i in s.intents && s.intents[i].reference == Upper(d.reference)
    ensures
      var t := IntentStep(s, now, DetectPayment(d, dbNow, ids));
      var row := s.intents[i];
      && (t == s <==> !(&& X.SchemaAccepts(d) && row.status == Pending && d.amount.Finite?
                        && M.SameValue(d.amount.value, M.Decimal(row.cents, 2))
                        && Upper(d.currency) == Upper(row.currency)
                        && (row.destination.Some? ==> d.destination == row.destination)
                        && FreshIds(s, ids, EnabledCount(s, row.merchant))))
      && (t != s ==> t.intents == s.intents[i := row.(status := Confirmed, hash := Some(d.hash))])
  {
    hide X.Detect, FreshIds, EnabledCount, M.SameValue;
    if X.SchemaAccepts(d) {
      X.DetectIff(s, d, i, now, dbNow, ids);
      NoOtherMatches(s, d, i, now, dbNow, ids);
    }
  }

  lemma NoOtherMatches(s: Store, d: X.Detected, i: IntentId, now: int, dbNow: int, ids: seq<DeliveryId>)
    requires X.UniqueReferences(s) && i in s.intents && s.intents[i].reference == Upper(d.reference)
    requires X.SchemaAccepts(d)
    ensures
      var reply := X.Detect(s, d, now, dbNow, ids).1;
      reply.Matched? ==> reply.intent == i
  {
    hide X.Detect, FreshIds, EnabledCount, M.SameValue;
    var reply := X.Detect(s, d, now, dbNow, ids).1;
    if reply.Matched? { X.DetectIff(s, d, reply.intent, now, dbNow, ids); }
  }

  /** A checkout links an order on hold, once for an intent and a shop. */
  lemma CheckoutLinks(cfg: Config, w: World, u: Url, i: IntentId)
    ensures
      var net := ShopStep(cfg, w, Checkout(u, i));
      && net.log == w.net.log && net.orders - {(u, i)} == w.net.orders - {(u, i)}
      && ((u, i) in net.orders <==> (u, i) in w.net.orders || (u in cfg.shops && i in w.store.intents))
      && ((u, i) in w.net.orders ==> net == w.net)
      && ((u, i) in net.orders && (u, i) !in w.net.orders ==>
            && net.orders[(u, i)].status == OnHold && net.orders[(u, i)].notes == []
            && net.orders[(u, i)].metaStatus == w.store.intents[i].status && net.orders[(u, i)].metaHash == None)
  {
  }
}
