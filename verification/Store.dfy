/**
 * The committed rows of the database, the payment-intent lifecycle and the
 * outbox that fans a terminal event out to the merchant's endpoints.
 */
module Store {
  import opened Common
  import R = Ranking

  type MerchantId = int
  type IntentId = int
  type EndpointId = int
  type DeliveryId = int
  type Url = int

  // ------------------------------------------------------------------ rows

  datatype Status = Pending | Confirmed | Expired | Cancelled

  predicate IsTerminal(s: Status) {
    s in {Confirmed, Expired, Cancelled}
  }

  function ValidTransitions(s: Status): set<Status> {
    match s
    case Pending => {Confirmed, Expired, Cancelled}
    case Confirmed => {}
    case Expired => {}
    case Cancelled => {}
  }

  predicate CanTransition(current: Status, target: Status) {
    target in ValidTransitions(current)
  }

  /** A row of payment_intents.  Times are microseconds, amounts are cents. */
  datatype Intent = Intent(
    merchant: MerchantId,
    reference: string,
    cents: int,
    currency: string,
    description: Option<string>,
    destination: Option<string>,
    status: Status,
    hash: Option<string>,
    expiresAt: int,
    cancelledAt: Option<int>,
    reason: Option<string>,
    key: Option<string>,
    fingerprint: Option<string>,
    createdAt: int)

  datatype Endpoint = Endpoint(merchant: MerchantId, url: Url, enabled: bool, createdAt: int)

  datatype EventType = ConfirmedEvent | ExpiredEvent | CancelledEvent

  /** The body of a webhook: an event and a copy of the intent's public fields. */
  datatype Payload = Payload(event: EventType, occurredAt: int, data: PublicIntent)

  datatype PublicIntent = PublicIntent(
    id: IntentId,
    merchant: MerchantId,
    reference: string,
    cents: int,
    currency: string,
    status: Status,
    description: Option<string>,
    destination: Option<string>,
    hash: Option<string>,
    expiresAt: int,
    cancelledAt: Option<int>,
    reason: Option<string>,
    createdAt: int)

  datatype DeliveryStatus = Waiting | Delivered | Failed | Discarded

  /** A row of webhook_deliveries; Waiting is the status the code calls pending. */
  datatype Delivery = Delivery(
    merchant: MerchantId,
    endpoint: Option<EndpointId>,
    event: EventType,
    intent: IntentId,
    payload: Payload,
    status: DeliveryStatus,
    attemptCount: nat,
    nextAttemptAt: Option<int>,
    lastAttemptAt: Option<int>,
    createdAt: int)

  /**
   * What an observer notes beside a delivery: the endpoint it was made for,
   * the committed attempts since its creation or last manual retry, and the
   * entry of the send log whose answer marked it delivered.
   */
  datatype Trail = Trail(origin: EndpointId, attempts: seq<int>, receipt: Option<nat>)

  /**
   * The tables, with the observer's notes: `trail` for each delivery and, for
   * each terminal intent, the endpoints its event was fanned out to.
   */
  datatype Store = Store(
    intents: map<IntentId, Intent>,
    endpoints: map<EndpointId, Endpoint>,
    deliveries: map<DeliveryId, Delivery>,
    trail: map<DeliveryId, Trail>,
    fanout: map<IntentId, set<EndpointId>>)

  const EMPTY := Store(map[], map[], map[], map[], map[])

  // ---------------------------------------------------------------- outbox

  function EventOf(s: Status): EventType
    requires IsTerminal(s)
  {
    match s
    case Confirmed => ConfirmedEvent
    case Expired => ExpiredEvent
    case Cancelled => CancelledEvent
  }

  function Public(id: IntentId, i: Intent): PublicIntent {
    PublicIntent(id, i.merchant, i.reference, i.cents, i.currency, i.status, i.description,
                 i.destination, i.hash, i.expiresAt, i.cancelledAt, i.reason, i.createdAt)
  }

  function EnabledEndpoints(s: Store, m: MerchantId): set<EndpointId> {
    set e <- s.endpoints | s.endpoints[e].merchant == m && s.endpoints[e].enabled
  }

  /** The enabled endpoints of a merchant, ordered by creation and then id. */
  function ListEnabledEndpoints(s: Store, m: MerchantId): (es: seq<EndpointId>)
    ensures Distinct(es)
    ensures forall e :: e in es <==> e in EnabledEndpoints(s, m)
  {
    var sorted := R.Sorted(EndpointKeys(s, m));
    var es := seq(|sorted|, i requires 0 <= i < |sorted| => sorted[i].id);
    assert forall e :: e in es <==> e in EnabledEndpoints(s, m) by {
      forall e | e in EnabledEndpoints(s, m) ensures e in es {
        var k := EndpointKey(e, s.endpoints[e]);
        assert k in EndpointKeys(s, m);
        var i :| 0 <= i < |sorted| && sorted[i] == k;
        assert es[i] == e;
      }
      forall i | 0 <= i < |es| ensures es[i] in EnabledEndpoints(s, m) {
        assert sorted[i] in sorted;
      }
    }
    assert Distinct(es) by {
      forall i, j | 0 <= i < j < |es| ensures es[i] != es[j] {
        assert sorted[i] in EndpointKeys(s, m) && sorted[j] in EndpointKeys(s, m);
      }
    }
    es
  }

  /** The listing goes by creation and then id. */
  lemma EndpointsInOrder(s: Store, m: MerchantId)
    ensures
      var es := ListEnabledEndpoints(s, m);
      && (forall e :: e in es <==> e in s.endpoints && s.endpoints[e].merchant == m && s.endpoints[e].enabled)
      && forall i, j :: 0 <= i < j < |es| ==>
           && es[i] in s.endpoints && es[j] in s.endpoints
           && var (a, b) := (s.endpoints[es[i]], s.endpoints[es[j]]);
              a.createdAt < b.createdAt || (a.createdAt == b.createdAt && es[i] < es[j])
  {
    var es, sorted := ListEnabledEndpoints(s, m), R.Sorted(EndpointKeys(s, m));
    forall i | 0 <= i < |es| ensures es[i] in s.endpoints && sorted[i] == EndpointKey(es[i], s.endpoints[es[i]]) {
      assert sorted[i] in sorted;
    }
  }

  function EndpointKeys(s: Store, m: MerchantId): set<R.Key> {
    set e <- EnabledEndpoints(s, m) :: EndpointKey(e, s.endpoints[e])
  }

  function EndpointKey(id: EndpointId, e: Endpoint): R.Key {
    R.Key(e.createdAt, 0, 0, id)
  }

  function NewDelivery(id: IntentId, i: Intent, event: EventType, occurredAt: int, dbNow: int,
                       endpoint: EndpointId): Delivery
  {
    Delivery(i.merchant, Some(endpoint), event, id, Payload(event, occurredAt, Public(id, i)),
             Waiting, 0, Some(occurredAt), None, dbNow)
  }

  /**
   * Adds one delivery for each target.  The ids are the uuids the database
   * draws; None stands for the integrity error of a repeated one.
   */
  function Enqueue(s: Store, id: IntentId, event: EventType, occurredAt: int, dbNow: int,
                   targets: seq<EndpointId>, ids: seq<DeliveryId>): (r: Option<Store>)
    requires id in s.intents
    ensures r.Some? ==> r.value.intents == s.intents
  {
    if targets == [] then Some(s) else
      var n := |targets| - 1;
      match Enqueue(s, id, event, occurredAt, dbNow, targets[..n], ids)
      case None => None
      case Some(t) =>
        if n < |ids| && ids[n] !in t.deliveries then
          Some(AddDelivery(t, ids[n], NewDelivery(id, s.intents[id], event, occurredAt, dbNow, targets[n]), targets[n]))
        else None
  }

  function AddDelivery(s: Store, d: DeliveryId, row: Delivery, origin: EndpointId): Store {
    s.(deliveries := s.deliveries[d := row], trail := s.trail[d := Trail(origin, [], None)])
  }

  /** A terminal transition and its fan-out, as one transaction. */
  function Terminate(s: Store, id: IntentId, row: Intent, occurredAt: int, dbNow: int,
                     ids: seq<DeliveryId>): (r: Option<Store>)
    requires IsTerminal(row.status)
  {
    var targets := ListEnabledEndpoints(s, row.merchant);
    var s1 := s.(intents := s.intents[id := row],
                 fanout := s.fanout[id := EnabledEndpoints(s, row.merchant)]);
    Enqueue(s1, id, EventOf(row.status), occurredAt, dbNow, targets, ids)
  }

  // ------------------------------------------------------------ invariants

  ghost predicate IntentOk(i: Intent) {
    && (i.hash.Some? <==> i.status == Confirmed)
    && (i.cancelledAt.Some? <==> i.status == Cancelled)
    && (i.reason.Some? ==> i.status == Cancelled)
    && (i.key.Some? <==> i.fingerprint.Some?)
  }

  /** A delivery tells what its intent, which can no longer change, says. */
  ghost predicate FaithfulTo(s: Store, row: Delivery) {
    && row.intent in s.intents
    && var i := s.intents[row.intent];
    && IsTerminal(i.status)
    && row.event == EventOf(i.status)
    && row.payload.event == row.event
    && row.payload.data == Public(row.intent, i)
    && row.merchant == i.merchant
  }

  /** The event type and the payload of a delivery, field by field, say what the columns of the intent say. */
  ghost predicate Tells(row: Delivery, id: IntentId, i: Intent) {
    && row.intent == id && row.merchant == i.merchant
    && (row.event == ConfirmedEvent <==> i.status == Confirmed)
    && (row.event == ExpiredEvent <==> i.status == Expired)
    && (row.event == CancelledEvent <==> i.status == Cancelled)
    && row.payload.event == row.event
    && var p := row.payload.data;
    && p.id == id && p.merchant == i.merchant && p.reference == i.reference && p.cents == i.cents
    && p.currency == i.currency && p.status == i.status && p.description == i.description
    && p.destination == i.destination && p.hash == i.hash && p.expiresAt == i.expiresAt
    && p.cancelledAt == i.cancelledAt && p.reason == i.reason && p.createdAt == i.createdAt
  }

  lemma FaithfulTells(s: Store, row: Delivery)
    requires FaithfulTo(s, row)
    ensures row.intent in s.intents && Tells(row, row.intent, s.intents[row.intent])
  {
  }

  ghost predicate DeliveryOk(s: Store, d: DeliveryId)
    requires d in s.deliveries
  {
    && d in s.trail
    && var row := s.deliveries[d];
    && FaithfulTo(s, row)
    && row.intent in s.fanout
    && s.trail[d].origin in s.fanout[row.intent]
    && (row.endpoint.Some? ==> row.endpoint.value == s.trail[d].origin)
  }

  /** The delivery made for an intent and an endpoint. */
  predicate IsFor(s: Store, d: DeliveryId, i: IntentId, e: EndpointId) {
    d in s.deliveries && d in s.trail && s.deliveries[d].intent == i && s.trail[d].origin == e
  }

  ghost predicate Served(s: Store, i: IntentId, e: EndpointId) {
    exists d :: IsFor(s, d, i, e)
  }

  ghost predicate OutboxOk(s: Store) {
    && s.trail.Keys == s.deliveries.Keys
    && s.fanout.Keys == (set i <- s.intents | IsTerminal(s.intents[i].status))
    && (forall d <- s.deliveries :: DeliveryOk(s, d))
    && (forall i <- s.fanout, e :: e in s.fanout[i] ==> Served(s, i, e))
    && (forall d, d', i, e :: IsFor(s, d, i, e) && IsFor(s, d', i, e) ==> d == d')
  }

  ghost predicate StoreOk(s: Store) {
    && (forall i <- s.intents :: IntentOk(s.intents[i]))
    && OutboxOk(s)
  }

  /** Everything about an intent that no step may change. */
  predicate SameIdentity(a: Intent, b: Intent) {
    && a.merchant == b.merchant && a.reference == b.reference && a.cents == b.cents
    && a.currency == b.currency && a.description == b.description
    && a.destination == b.destination && a.expiresAt == b.expiresAt
    && a.key == b.key && a.fingerprint == b.fingerprint && a.createdAt == b.createdAt
  }

  ghost predicate IntentEvolves(a: Intent, b: Intent) {
    SameIdentity(a, b) && (IsTerminal(a.status) ==> a == b)
  }

  ghost predicate DeliveryEvolves(a: Delivery, b: Delivery) {
    && a.intent == b.intent && a.payload == b.payload && a.event == b.event
    && a.merchant == b.merchant && a.createdAt == b.createdAt
    && (a.status == Delivered ==> b.status == Delivered)
  }

  /** What every step of every process keeps between an earlier and a later store. */
  ghost predicate Evolves(s: Store, t: Store) {
    && (forall i <- s.intents :: i in t.intents && IntentEvolves(s.intents[i], t.intents[i]))
    && (forall i <- s.fanout :: i in t.fanout && t.fanout[i] == s.fanout[i])
    && (forall d <- s.deliveries :: d in t.deliveries && DeliveryEvolves(s.deliveries[d], t.deliveries[d]))
    && (forall d <- s.trail :: d in t.trail && t.trail[d].origin == s.trail[d].origin)
  }

  // ----------------------------------------------------- facts on the outbox

  lemma {:induction false} EnqueueFacts(s: Store, id: IntentId, event: EventType, occurredAt: int, dbNow: int,
                       targets: seq<EndpointId>, ids: seq<DeliveryId>, t: Store)
    requires id in s.intents
    requires Distinct(targets)
    requires s.deliveries.Keys == s.trail.Keys
    requires Enqueue(s, id, event, occurredAt, dbNow, targets, ids) == Some(t)
    ensures t.intents == s.intents && t.endpoints == s.endpoints && t.fanout == s.fanout
    ensures t.deliveries.Keys == t.trail.Keys
    ensures forall d <- s.deliveries ::
              d in t.deliveries && t.deliveries[d] == s.deliveries[d] && t.trail[d] == s.trail[d]
    ensures forall d <- t.deliveries :: d !in s.deliveries ==>
              && t.trail[d].origin in targets && t.trail[d] == Trail(t.trail[d].origin, [], None)
              && t.deliveries[d] == NewDelivery(id, s.intents[id], event, occurredAt, dbNow, t.trail[d].origin)
    ensures forall e :: e in targets ==> exists d :: IsFor(t, d, id, e) && d !in s.deliveries
    ensures forall d, d' :: d in t.deliveries && d' in t.deliveries && d !in s.deliveries && d' !in s.deliveries
              && t.trail[d].origin == t.trail[d'].origin
              ==> d == d'
  {
    if targets != [] {
      var n := |targets| - 1;
      var u := Enqueue(s, id, event, occurredAt, dbNow, targets[..n], ids).value;
      EnqueueFacts(s, id, event, occurredAt, dbNow, targets[..n], ids, u);
      assert targets == targets[..n] + [targets[n]];
      assert targets[n] !in targets[..n];
      forall e | e in targets ensures exists d :: IsFor(t, d, id, e) && d !in s.deliveries {
        if e == targets[n] {
          assert IsFor(t, ids[n], id, e);
        } else {
          var d :| IsFor(u, d, id, e) && d !in s.deliveries;
          assert IsFor(t, d, id, e);
        }
      }
    }
  }

  /** How many endpoints a merchant has enabled. */
  ghost function EnabledCount(s: Store, m: MerchantId): nat {
    |set e <- s.endpoints | s.endpoints[e].merchant == m && s.endpoints[e].enabled|
  }

  /** The first `n` ids drawn are there, different, and not in use. */
  ghost predicate FreshIds(s: Store, ids: seq<DeliveryId>, n: nat) {
    n <= |ids| && forall k :: 0 <= k < n ==> ids[k] !in s.deliveries && forall j :: 0 <= j < k ==> ids[j] != ids[k]
  }

  lemma {:induction false} DistinctCount(es: seq<EndpointId>, all: set<EndpointId>)
    requires Distinct(es) && forall e :: e in es <==> e in all
    ensures |es| == |all|
  {
    if es == [] {
      HasMember(es);
      if all != {} { var e := Pick(all); }
    } else {
      var n := |es| - 1;
      assert es == es[..n] + [es[n]];
      DistinctCount(es[..n], all - {es[n]});
    }
  }

  lemma ListedCount(s: Store, m: MerchantId)
    ensures |ListEnabledEndpoints(s, m)| == EnabledCount(s, m)
  {
    DistinctCount(ListEnabledEndpoints(s, m), EnabledEndpoints(s, m));
  }

  /** A fan-out is refused exactly when an id it needs is missing or taken. */
  lemma {:induction false} EnqueueSucceedsIff(s: Store, id: IntentId, event: EventType, occurredAt: int, dbNow: int,
                                              targets: seq<EndpointId>, ids: seq<DeliveryId>)
    requires id in s.intents
    ensures
      var r := Enqueue(s, id, event, occurredAt, dbNow, targets, ids);
      && (r.Some? <==> FreshIds(s, ids, |targets|))
      && (r.Some? ==> forall d :: d in r.value.deliveries <==> d in s.deliveries || d in ids[..|targets|])
  {
    if targets != [] {
      var n := |targets| - 1;
      EnqueueSucceedsIff(s, id, event, occurredAt, dbNow, targets[..n], ids);
      var r := Enqueue(s, id, event, occurredAt, dbNow, targets[..n], ids);
      if r.Some? && n < |ids| {
        assert ids[..n + 1] == ids[..n] + [ids[n]];
        assert ids[n] in ids[..n] <==> exists j :: 0 <= j < n && ids[j] == ids[n];
      }
    }
  }

  /** A transition fails exactly when an id that its deliveries need is missing or taken. */
  lemma TerminateSucceedsIff(s: Store, id: IntentId, row: Intent, occurredAt: int, dbNow: int, ids: seq<DeliveryId>)
    requires IsTerminal(row.status)
    ensures
      var r := Terminate(s, id, row, occurredAt, dbNow, ids);
      && (r.Some? <==> FreshIds(s, ids, EnabledCount(s, row.merchant)))
      && (r.Some? ==> forall d :: d in r.value.deliveries
                                  <==> d in s.deliveries || d in ids[..EnabledCount(s, row.merchant)])
  {
    hide Enqueue, ListEnabledEndpoints;
    var s1 := s.(intents := s.intents[id := row], fanout := s.fanout[id := EnabledEndpoints(s, row.merchant)]);
    ListedCount(s, row.merchant);
    EnqueueSucceedsIff(s1, id, EventOf(row.status), occurredAt, dbNow, ListEnabledEndpoints(s, row.merchant), ids);
  }

  /** The new store `t` is `s` with intent `id` settled as `row` and its event fanned out. */
  ghost predicate Fanned(s: Store, id: IntentId, row: Intent, occurredAt: int, dbNow: int, t: Store)
    requires IsTerminal(row.status)
  {
    && t.intents == s.intents[id := row] && t.endpoints == s.endpoints
    && t.fanout == s.fanout[id := EnabledEndpoints(s, row.merchant)]
    && t.deliveries.Keys == t.trail.Keys
    && (forall d <- s.deliveries ::
          d in t.deliveries && d in s.trail && t.deliveries[d] == s.deliveries[d] && t.trail[d] == s.trail[d])
    && (forall d <- t.deliveries :: d !in s.deliveries ==> NewFor(s, id, row, occurredAt, dbNow, t, d))
    && (forall e <- EnabledEndpoints(s, row.merchant) :: Served(t, id, e))
    && (forall d, d' :: d in t.deliveries && d' in t.deliveries && d !in s.deliveries && d' !in s.deliveries
            && t.trail[d].origin == t.trail[d'].origin
            ==> d == d')
  }

  ghost predicate NewFor(s: Store, id: IntentId, row: Intent, occurredAt: int, dbNow: int, t: Store, d: DeliveryId)
    requires IsTerminal(row.status) && d in t.deliveries && d in t.trail
  {
    && t.trail[d].origin in EnabledEndpoints(s, row.merchant)
    && t.trail[d] == Trail(t.trail[d].origin, [], None)
    && t.deliveries[d] == NewDelivery(id, row, EventOf(row.status), occurredAt, dbNow, t.trail[d].origin)
  }

  lemma TerminateFans(s: Store, id: IntentId, row: Intent, occurredAt: int, dbNow: int,
                      ids: seq<DeliveryId>, t: Store)
    requires s.deliveries.Keys == s.trail.Keys && IsTerminal(row.status)
    requires Terminate(s, id, row, occurredAt, dbNow, ids) == Some(t)
    ensures Fanned(s, id, row, occurredAt, dbNow, t)
  {
    var targets := ListEnabledEndpoints(s, row.merchant);
    var s1 := s.(intents := s.intents[id := row],
                 fanout := s.fanout[id := EnabledEndpoints(s, row.merchant)]);
    EnqueueFacts(s1, id, EventOf(row.status), occurredAt, dbNow, targets, ids, t);
    forall e <- EnabledEndpoints(s, row.merchant) ensures Served(t, id, e) {
      assert e in targets;
    }
  }

  /** Each new delivery, column by column: for an enabled endpoint, due from the event on, telling the settled row. */
  lemma TerminateQueues(s: Store, id: IntentId, row: Intent, occurredAt: int, dbNow: int, ids: seq<DeliveryId>,
                        t: Store)
    requires s.deliveries.Keys == s.trail.Keys && IsTerminal(row.status)
    requires Terminate(s, id, row, occurredAt, dbNow, ids) == Some(t)
    ensures forall d <- t.deliveries :: d !in s.deliveries ==>
              && d in t.trail && t.trail[d].origin in s.endpoints && t.trail[d].attempts == []
              && s.endpoints[t.trail[d].origin].merchant == row.merchant && s.endpoints[t.trail[d].origin].enabled
              && var made := t.deliveries[d];
                 && Tells(made, id, row) && made.endpoint == Some(t.trail[d].origin)
                 && made.status == Waiting && made.attemptCount == 0 && made.lastAttemptAt == None
                 && made.nextAttemptAt == Some(occurredAt) && made.payload.occurredAt == occurredAt
                 && made.createdAt == dbNow
  {
    hide Terminate, Fanned;
    TerminateFans(s, id, row, occurredAt, dbNow, ids, t);
    forall d <- t.deliveries | d !in s.deliveries ensures d in t.trail && NewFor(s, id, row, occurredAt, dbNow, t, d) {
      FannedNew(s, id, row, occurredAt, dbNow, t, d);
    }
  }

  lemma FannedNew(s: Store, id: IntentId, row: Intent, occurredAt: int, dbNow: int, t: Store, d: DeliveryId)
    requires IsTerminal(row.status) && Fanned(s, id, row, occurredAt, dbNow, t)
    requires d in t.deliveries && d !in s.deliveries
    ensures d in t.trail && NewFor(s, id, row, occurredAt, dbNow, t, d)
  {
    hide NewFor;
  }

  lemma FannedDeliveries(s: Store, id: IntentId, row: Intent, occurredAt: int, dbNow: int, t: Store)
    requires StoreOk(s) && id in s.intents && s.intents[id].status == Pending
    requires IsTerminal(row.status) && Fanned(s, id, row, occurredAt, dbNow, t)
    ensures forall d <- s.deliveries :: s.deliveries[d].intent != id
    ensures forall d <- t.deliveries :: DeliveryOk(t, d)
  {
    forall d <- t.deliveries ensures DeliveryOk(t, d) && (d in s.deliveries ==> s.deliveries[d].intent != id) {
      if d in s.deliveries { assert DeliveryOk(s, d); } else { assert NewFor(s, id, row, occurredAt, dbNow, t, d); }
    }
  }

  lemma FannedServed(s: Store, id: IntentId, row: Intent, occurredAt: int, dbNow: int, t: Store,
                     i: IntentId, e: EndpointId)
    requires OutboxOk(s) && IsTerminal(row.status) && Fanned(s, id, row, occurredAt, dbNow, t)
    requires i in t.fanout && e in t.fanout[i]
    ensures Served(t, i, e)
  {
    if i != id {
      assert Served(s, i, e);
      var d :| IsFor(s, d, i, e);
      assert IsFor(t, d, i, e);
    }
  }

  lemma FannedUnique(s: Store, id: IntentId, row: Intent, occurredAt: int, dbNow: int, t: Store,
                     d: DeliveryId, d': DeliveryId, i: IntentId, e: EndpointId)
    requires StoreOk(s) && id in s.intents && s.intents[id].status == Pending
    requires IsTerminal(row.status) && Fanned(s, id, row, occurredAt, dbNow, t)
    requires IsFor(t, d, i, e) && IsFor(t, d', i, e)
    ensures d == d'
  {
    FannedDeliveries(s, id, row, occurredAt, dbNow, t);
    assert d in s.deliveries <==> i != id by {
      if d !in s.deliveries { assert NewFor(s, id, row, occurredAt, dbNow, t, d); }
    }
    assert d' in s.deliveries <==> i != id by {
      if d' !in s.deliveries { assert NewFor(s, id, row, occurredAt, dbNow, t, d'); }
    }
    if i != id { assert IsFor(s, d, i, e) && IsFor(s, d', i, e); }
  }

  lemma FannedOutbox(s: Store, id: IntentId, row: Intent, occurredAt: int, dbNow: int, t: Store)
    requires StoreOk(s) && id in s.intents && s.intents[id].status == Pending
    requires IsTerminal(row.status) && Fanned(s, id, row, occurredAt, dbNow, t)
    ensures OutboxOk(t)
  {
    hide Served, DeliveryOk, NewFor, FaithfulTo, IntentOk;
    FannedDeliveries(s, id, row, occurredAt, dbNow, t);
    forall i <- t.fanout, e | e in t.fanout[i] ensures Served(t, i, e) {
      FannedServed(s, id, row, occurredAt, dbNow, t, i, e);
    }
    forall d, d', i, e | IsFor(t, d, i, e) && IsFor(t, d', i, e) ensures d == d' {
      FannedUnique(s, id, row, occurredAt, dbNow, t, d, d', i, e);
    }
  }

  lemma FannedEvolves(s: Store, id: IntentId, row: Intent, occurredAt: int, dbNow: int, t: Store)
    requires StoreOk(s) && id in s.intents && s.intents[id].status == Pending
    requires IsTerminal(row.status) && SameIdentity(s.intents[id], row) && Fanned(s, id, row, occurredAt, dbNow, t)
    ensures Evolves(s, t)
  {
    hide Served, DeliveryOk, NewFor, FaithfulTo, SameIdentity, IntentOk;
    SelfIdentity(s);
  }

  lemma SelfIdentity(s: Store)
    ensures forall i <- s.intents :: SameIdentity(s.intents[i], s.intents[i])
  {
  }

  /** A terminal transition keeps the invariant and changes no settled row. */
  lemma TerminateFacts(s: Store, id: IntentId, row: Intent, occurredAt: int, dbNow: int,
                       ids: seq<DeliveryId>, t: Store)
    requires StoreOk(s)
    requires id in s.intents && s.intents[id].status == Pending
    requires IsTerminal(row.status) && SameIdentity(s.intents[id], row) && IntentOk(row)
    requires Terminate(s, id, row, occurredAt, dbNow, ids) == Some(t)
    ensures StoreOk(t) && Evolves(s, t) && Fanned(s, id, row, occurredAt, dbNow, t)
  {
    hide Terminate, IntentOk, SameIdentity, Evolves, Served, DeliveryOk, NewFor;
    TerminateFans(s, id, row, occurredAt, dbNow, ids, t);
    FannedOutbox(s, id, row, occurredAt, dbNow, t);
    FannedEvolves(s, id, row, occurredAt, dbNow, t);
  }

  lemma EvolvesTransitive(s: Store, t: Store, u: Store)
    requires Evolves(s, t) && Evolves(t, u)
    ensures Evolves(s, u)
  {
    forall i <- s.intents ensures i in u.intents && IntentEvolves(s.intents[i], u.intents[i]) {
      assert IntentEvolves(s.intents[i], t.intents[i]);
      assert IntentEvolves(t.intents[i], u.intents[i]);
    }
    forall d <- s.deliveries ensures d in u.deliveries && DeliveryEvolves(s.deliveries[d], u.deliveries[d]) {
      assert DeliveryEvolves(s.deliveries[d], t.deliveries[d]);
      assert DeliveryEvolves(t.deliveries[d], u.deliveries[d]);
    }
  }
}
