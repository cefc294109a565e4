/** What holds on every run from the empty database. */
module Results {
  import opened Common
  import opened Store
  import opened PaymentIntents
  import opened Receiver
  import opened WebhookDelivery
  import opened DeliveryFacts
  import opened IntentFacts
  import opened Workers
  import opened Creation
  import opened World
  import F = Fingerprint
  import M = Money

  /** The world after a run from the start. */
  ghost function Reached(cfg: Config, events: seq<Event>): (w: World)
    requires Sound(cfg)
    ensures WorldOk(cfg, w)
  {
    StartOk(cfg);
    Exec(cfg, START, events)
  }

  lemma LaterEvolves(cfg: Config, a: seq<Event>, b: seq<Event>)
    requires Sound(cfg)
    ensures WorldEvolves(Reached(cfg, a), Reached(cfg, a + b))
  {
    hide WorldOk, Evolves;
    StartOk(cfg);
    ExecSplits(cfg, START, a, b);
    ExecEvolves(cfg, Reached(cfg, a), b);
  }

  // -------------------------------------------------------------- lifecycle

  /** The columns of an intent agree with its status, and a settled intent never changes again. */
  lemma LifecycleHolds(cfg: Config, a: seq<Event>, b: seq<Event>, i: IntentId)
    requires Sound(cfg) && i in Reached(cfg, a).store.intents
    ensures
      var x := Reached(cfg, a).store.intents[i];
      && (x.hash.Some? <==> x.status == Confirmed)
      && (x.cancelledAt.Some? <==> x.status == Cancelled)
      && (x.reason.Some? ==> x.status == Cancelled)
      && (x.key.Some? <==> x.fingerprint.Some?)
    ensures i in Reached(cfg, a + b).store.intents
    ensures SameIdentity(Reached(cfg, a).store.intents[i], Reached(cfg, a + b).store.intents[i])
    ensures
      var (s, t) := (Reached(cfg, a).store, Reached(cfg, a + b).store);
      IsTerminal(s.intents[i].status) ==> t.intents[i] == s.intents[i]
  {
    hide NetEvolves, NetOk, CallsOk, TotalsOk;
    var s, t := Reached(cfg, a).store, Reached(cfg, a + b).store;
    assert IntentOk(s.intents[i]);
    LaterEvolves(cfg, a, b);
    assert IntentEvolves(s.intents[i], t.intents[i]);
  }

  // ----------------------------------------------------------------- outbox

  lemma PendingIntentsHaveNoDelivery(cfg: Config, events: seq<Event>, d: DeliveryId)
    requires Sound(cfg) && d in Reached(cfg, events).store.deliveries
    ensures
      var s := Reached(cfg, events).store;
      s.deliveries[d].intent in s.intents && s.intents[s.deliveries[d].intent].status != Pending
  {
    hide NetOk, CallsOk, TotalsOk;
    assert DeliveryOk(Reached(cfg, events).store, d);
  }

  /** The endpoints a merchant has enabled. */
  ghost predicate Enabled(s: Store, m: MerchantId, p: EndpointId) {
    p in s.endpoints && s.endpoints[p].merchant == m && s.endpoints[p].enabled
  }

  /** Intent `i` has one delivery in `s` for each endpoint enabled in `before`, and they tell what it says. */
  ghost predicate OutboxOf(before: Store, m: MerchantId, s: Store, i: IntentId) {
    && i in s.intents
    && (forall p :: Enabled(before, m, p) <==> exists d :: IsFor(s, d, i, p))
    && (forall d, d', p :: IsFor(s, d, i, p) && IsFor(s, d', i, p) ==> d == d')
    && (forall d <- s.deliveries :: s.deliveries[d].intent == i ==>
          && d in s.trail && IsFor(s, d, i, s.trail[d].origin)
          && s.deliveries[d].endpoint in {None, Some(s.trail[d].origin)}
          && Tells(s.deliveries[d], i, s.intents[i]))
  }

  lemma FannedOutboxIsExact(before: Store, m: MerchantId, s: Store, i: IntentId)
    requires OutboxOk(s) && i in s.intents && i in s.fanout && s.fanout[i] == EnabledEndpoints(before, m)
    ensures OutboxOf(before, m, s, i)
  {
    hide Tells, FaithfulTo;
    forall d <- s.deliveries | s.deliveries[d].intent == i
      ensures && d in s.trail && s.trail[d].origin in s.fanout[i]
              && s.deliveries[d].endpoint in {None, Some(s.trail[d].origin)} && Tells(s.deliveries[d], i, s.intents[i])
    {
      assert DeliveryOk(s, d);
      FaithfulTells(s, s.deliveries[d]);
    }
    forall p ensures Enabled(before, m, p) <==> exists d :: IsFor(s, d, i, p) {
      assert Enabled(before, m, p) <==> p in s.fanout[i];
      assert p in s.fanout[i] ==> Served(s, i, p);
    }
  }

  /**
   * An event settles an intent.  In every later world its deliveries are
   * exactly one for each endpoint that its merchant had enabled just before
   * that event, and each still tells, field by field, what the intent says.
   */
  lemma OutboxIsExact(cfg: Config, a: seq<Event>, e: Event, b: seq<Event>, i: IntentId)
    requires Sound(cfg) && i in Reached(cfg, a).store.intents
    requires Reached(cfg, a).store.intents[i].status == Pending
    requires i in Reached(cfg, a + [e]).store.intents && Reached(cfg, a + [e]).store.intents[i].status != Pending
    ensures
      var before := Reached(cfg, a).store;
      OutboxOf(before, before.intents[i].merchant, Reached(cfg, a + [e] + b).store, i)
  {
    hide NetOk, CallsOk, TotalsOk, NetEvolves, Next, Reached, OutboxOf, EnabledEndpoints, OutboxOk;
    var before, s := Reached(cfg, a).store, Reached(cfg, a + [e] + b).store;
    SettlingEvent(cfg, a, e);
    LaterEvolves(cfg, a + [e], b);
    FannedOutboxIsExact(before, before.intents[i].merchant, s, i);
  }

  /** The deliveries that are new in `t` wait for the endpoint they were made for, due from `now` on. */
  ghost predicate NewAreQueued(s: Store, t: Store, now: int) {
    forall d <- t.deliveries :: d !in s.deliveries ==> d in t.trail && Queued(t.deliveries[d], t.trail[d].origin, now)
  }

  /** On every run a delivery is queued by the event that creates it, and due from that moment on. */
  lemma NewDeliveriesAreQueued(cfg: Config, a: seq<Event>, e: Event)
    requires Sound(cfg)
    ensures NewAreQueued(Reached(cfg, a).store, Reached(cfg, a + [e]).store, Now(Reached(cfg, a), e))
  {
    hide WorldOk, Next, NewAreQueued;
    StartOk(cfg);
    assert (a + [e])[..|a + [e]| - 1] == a;
    NextQueues(cfg, Reached(cfg, a), e);
  }

  lemma NextQueues(cfg: Config, w: World, e: Event)
    requires WorldOk(cfg, w)
    ensures NewAreQueued(w.store, Next(cfg, w, e).store, Now(w, e))
  {
    hide RunExpiryCycle, RunHookCycle, IntentStep, CallStep, RetryDelivery, ShopStep, TablesOk, Evolves, CallsOk, NetOk,
         QueueExtended, WorldOk, FansSettled, NoneExpired, HookCycleOk, NetEvolves, ExpiredExactly, ExpiredRows, Queued,
         NewAreQueued;
    KeyedTables(cfg, w);
    var s, t, now := w.store, Next(cfg, w, e).store, Now(w, e);
    match e.action {
      case OnEndpoints(x) => SameDeliveries(s, t, now);
      case OnCalls(c) =>
        CallRows(cfg, w, now, c);
        SameDeliveries(s, t, now);
      case OnIntents(i) =>
        IntentTables(cfg, w);
        IntentStepFacts(s, now, i, cfg.maxAttempts, w.net.log);
        ExtendedAreQueued(s, t, now);
      case OnShops(o) => SameDeliveries(s, t, now);
      case ExpireDue(dbNow, ids, ending) =>
        ExpiryCycleFacts(cfg, w, now, dbNow, ids, ending);
        ExtendedAreQueued(s, t, now);
      case DeliverDue(posts, ending) =>
        HookCycleFacts(cfg, w, now, posts, ending);
        HookCycleKeepsKeys(cfg, w, now,
                           RunHookCycle(s, w.net, w.hooks, now, cfg.hookLimit, cfg.maxAttempts, cfg.shops, posts,
                                        ending),
                           ending);
        SameDeliveries(s, t, now);
      case RetryHook(m, d) =>
        RetryKeepsKeys(s, t, d, now);
        SameDeliveries(s, t, now);
    }
  }

  lemma SameDeliveries(s: Store, t: Store, now: int)
    requires t.deliveries.Keys <= s.deliveries.Keys
    ensures NewAreQueued(s, t, now)
  {
  }

  lemma ExtendedAreQueued(s: Store, t: Store, now: int)
    requires QueueExtended(s, t, now)
    ensures NewAreQueued(s, t, now)
  {
    hide Queued;
  }

  lemma RetryKeepsKeys(s: Store, t: Store, d: DeliveryId, now: int)
    requires Keyed(s) && (t == s || (d in s.deliveries && t == RetryDelivery(s, d, now).0))
    ensures t.deliveries.Keys == s.deliveries.Keys
  {
  }

  lemma HookCycleKeepsKeys(cfg: Config, w: World, now: int, c: HookCycle, ending: Ending)
    requires Keyed(w.store) && HookCycleOk(cfg, w, now, c, ending)
    ensures c.store.deliveries.Keys == w.store.deliveries.Keys
  {
    hide Evolves, NetEvolves, DueBatch, Ids, DeliveredRows;
  }

  lemma SettlingEvent(cfg: Config, a: seq<Event>, e: Event)
    requires Sound(cfg)
    ensures FansSettled(Reached(cfg, a).store, Reached(cfg, a + [e]).store)
  {
    hide WorldOk, Next, FansSettled;
    StartOk(cfg);
    assert (a + [e])[..|a + [e]| - 1] == a;
    NextFansSettled(cfg, Reached(cfg, a), e);
  }

  // ------------------------------------------------------------- deliveries

  /** Open deliveries have attempts left and a time; closed ones have none. */
  lemma AttemptsAreBounded(cfg: Config, events: seq<Event>, d: DeliveryId)
    requires Sound(cfg) && d in Reached(cfg, events).store.deliveries
    ensures
      var row := Reached(cfg, events).store.deliveries[d];
      && row.attemptCount <= cfg.maxAttempts
      && (Open(row) <==> row.nextAttemptAt.Some?)
      && (Open(row) ==> row.attemptCount < cfg.maxAttempts)
  {
    hide NetOk, CallsOk, TotalsOk, StoreOk, ReceiptsOk;
    var s := Reached(cfg, events).store;
    assert ScheduleOk(s.deliveries[d], s.trail[d].attempts, cfg.maxAttempts);
  }

  /** The k-th attempt since creation or the last manual retry waits for the whole backoff. */
  lemma AttemptsAreSpaced(cfg: Config, events: seq<Event>, d: DeliveryId, k: nat)
    requires Sound(cfg) && d in Reached(cfg, events).store.deliveries
    requires 1 <= k <= Reached(cfg, events).store.deliveries[d].attemptCount
    ensures d in Reached(cfg, events).store.trail
    ensures
      var attempts := Reached(cfg, events).store.trail[d].attempts;
      && |attempts| == Reached(cfg, events).store.deliveries[d].attemptCount
      && attempts[k - 1] - attempts[0] >= SECOND * if k <= 7 then 60 * (Pow2(k - 1) - 1) else 3780 + 3600 * (k - 7)
  {
    hide NetOk, CallsOk, TotalsOk, StoreOk, ReceiptsOk;
    var s := Reached(cfg, events).store;
    assert ScheduleOk(s.deliveries[d], s.trail[d].attempts, cfg.maxAttempts);
    SpacedAttemptsSpan(s.trail[d].attempts, k);
  }

  // ----------------------------------------------------------------- orders

  /** Orders agree with their intents, and an order that has left on-hold stays where it is. */
  lemma OrdersAgree(cfg: Config, a: seq<Event>, b: seq<Event>, place: (Url, IntentId))
    requires Sound(cfg) && place in Reached(cfg, a).net.orders
    ensures
      var w := Reached(cfg, a);
      && place.1 in w.store.intents
      && match w.net.orders[place].status
         case OnHold => true
         case Processing => w.store.intents[place.1].status == Confirmed
         case CancelledOrder => w.store.intents[place.1].status in {Expired, Cancelled}
    ensures
      var w := Reached(cfg, a);
      var (i, order) := (w.store.intents[place.1], w.net.orders[place]);
      && (order.status == OnHold ==> order.notes == [] && order.metaHash == None)
      && (order.status != OnHold ==>
            && order.notes == [i.status] && order.metaStatus == i.status
            && (order.metaHash == i.hash || (i.hash == Some("") && order.metaHash == None)))
    ensures place in Reached(cfg, a + b).net.orders
    ensures
      var (net, later) := (Reached(cfg, a).net, Reached(cfg, a + b).net);
      net.orders[place].status != OnHold ==> later.orders[place].status == net.orders[place].status
  {
    hide CallsOk, TotalsOk, Evolves, SchedulesOk, ReceiptsOk, OutboxOk;
    var w := Reached(cfg, a);
    assert OrderOk(w.store, place.1, w.net.orders[place]);
    assert IntentOk(w.store.intents[place.1]);
    LaterEvolves(cfg, a, b);
  }

  /**
   * A delivered row was accepted somewhere with its own payload; when that was
   * a shop, the order there has left on-hold and says what the intent says.
   */
  lemma DeliveredMeansSettled(cfg: Config, events: seq<Event>, d: DeliveryId) returns (k: nat)
    requires Sound(cfg) && d in Reached(cfg, events).store.deliveries
    requires Reached(cfg, events).store.deliveries[d].status == Delivered
    ensures
      var w := Reached(cfg, events);
      var row := w.store.deliveries[d];
      && k < |w.net.log| && w.net.log[k].delivery == d && w.net.log[k].payload == row.payload && w.net.log[k].accepted
      && row.intent in w.store.intents && IsTerminal(w.store.intents[row.intent].status)
      && (w.net.log[k].url in cfg.shops ==>
            && (w.net.log[k].url, row.intent) in w.net.orders
            && w.net.orders[(w.net.log[k].url, row.intent)].status == Outcome(w.store.intents[row.intent].status))
  {
    hide CallsOk, TotalsOk, SchedulesOk;
    var w := Reached(cfg, events);
    var row := w.store.deliveries[d];
    assert ReceiptOk(row, d, w.store.trail[d].receipt, w.net.log);
    assert DeliveryOk(w.store, d);
    k := w.store.trail[d].receipt.value;
    assert SentOk(w.store, w.net, cfg.shops, w.net.log[k]);
    if w.net.log[k].url in cfg.shops {
      assert OrderOk(w.store, row.intent, w.net.orders[(w.net.log[k].url, row.intent)]);
    }
  }

  // --------------------------------------------------------------- counters

  /** A cycle that died between its commit and its success mark. */
  predicate Lost(e: Event) {
    || (e.action.DeliverDue? && e.action.ending == Killed)
    || (e.action.ExpireDue? && e.action.ending == Killed)
  }

  ghost predicate Exact(w: World) {
    w.hooks.delivered == |DeliveredRows(w.store)| && w.expiry.expired == |ExpiredRows(w.store)|
  }

  /** Processed deliveries are delivered, failed or discarded, and nothing is counted that did not happen. */
  lemma CountersAddUp(cfg: Config, events: seq<Event>)
    requires Sound(cfg)
    ensures
      var w := Reached(cfg, events);
      && w.hooks.processed == w.hooks.delivered + w.hooks.failed + w.hooks.discarded
      && w.hooks.delivered <= |DeliveredRows(w.store)|
      && w.expiry.expired <= |ExpiredRows(w.store)|
  {
    hide TablesOk, CallsOk, NetOk;
    var w := Reached(cfg, events);
  }

  /** With every committed batch marked, the totals are the numbers of delivered and of expired rows. */
  lemma {:induction false} CountersAreExact(cfg: Config, events: seq<Event>)
    requires Sound(cfg) && forall e <- events :: !Lost(e)
    ensures Exact(Reached(cfg, events))
    decreases |events|
  {
    hide WorldOk, Exact, Next;
    StartOk(cfg);
    if events == [] {
      StartExact();
    } else {
      var init, e := events[..|events| - 1], events[|events| - 1];
      CountersAreExact(cfg, init);
      NextExact(cfg, Reached(cfg, init), e);
    }
  }

  lemma StartExact()
    ensures Exact(START)
  {
  }

  lemma NextExact(cfg: Config, w: World, e: Event)
    requires WorldOk(cfg, w) && Exact(w) && !Lost(e)
    ensures Exact(Next(cfg, w, e))
  {
    hide RunExpiryCycle, RunHookCycle, IntentStep, EndpointStep, RetryDelivery, CallStep, TablesOk, Evolves, CallsOk,
         NetOk, BatchRowsOk, WorldOk, NetEvolves, DeliveredRows, ExpiredRows, FansSettled;
    KeyedTables(cfg, w);
    var now := Now(w, e);
    var v := Act(cfg, w, now, e.action);
    match e.action {
      case OnEndpoints(a) => UnlinkedRows(w.store, a);
      case OnCalls(c) => CallRows(cfg, w, now, c);
      case OnIntents(i) =>
        IntentTables(cfg, w);
        IntentStepFacts(w.store, now, i, cfg.maxAttempts, w.net.log);
        UnexpiredRows(w.store, v.store, now);
      case OnShops(o) =>
      case ExpireDue(dbNow, ids, ending) =>
        ExpiryCycleFacts(cfg, w, now, dbNow, ids, ending);
        QueuedRows(w.store, v.store, now);
        UncommittedExpiry(cfg, w, now, dbNow, ids, ending);
      case DeliverDue(posts, ending) =>
        HookCycleFacts(cfg, w, now, posts, ending);
        SameExpired(cfg, w, now,
                    RunHookCycle(w.store, w.net, w.hooks, now, cfg.hookLimit, cfg.maxAttempts, cfg.shops, posts,
                                 ending), ending);
      case RetryHook(m, d) =>
        if d in w.store.deliveries { RequeuedRows(w.store, d, now); }
    }
  }

  lemma UnlinkedRows(s: Store, a: EndpointAction)
    ensures DeliveredRows(EndpointStep(s, a)) == DeliveredRows(s) && ExpiredRows(EndpointStep(s, a)) == ExpiredRows(s)
  {
    var t := EndpointStep(s, a);
    forall d ensures d in DeliveredRows(t) <==> d in DeliveredRows(s) {
    }
    assert DeliveredRows(t) == DeliveredRows(s);
  }

  lemma CallRows(cfg: Config, w: World, now: int, a: CallAction)
    requires WorldOk(cfg, w)
    ensures
      var v := CallStep(w, now, a);
      && DeliveredRows(v.store) == DeliveredRows(w.store) && ExpiredRows(v.store) == ExpiredRows(w.store)
      && v.store.deliveries == w.store.deliveries && v.hooks == w.hooks && v.expiry == w.expiry
  {
    hide Lookup, CallsOk, NetOk, TablesOk, KeyTaken, FingerprintOf;
  }

  lemma QueuedRows(s: Store, t: Store, now: int)
    requires QueueExtended(s, t, now)
    ensures DeliveredRows(t) == DeliveredRows(s)
  {
    forall d ensures d in DeliveredRows(t) <==> d in DeliveredRows(s) {
      assert d in t.deliveries ==> d in s.deliveries || t.deliveries[d].status == Waiting;
    }
    assert DeliveredRows(t) == DeliveredRows(s);
  }

  lemma UnexpiredRows(s: Store, t: Store, now: int)
    requires QueueExtended(s, t, now) && NoneExpired(s, t) && Evolves(s, t)
    ensures DeliveredRows(t) == DeliveredRows(s) && ExpiredRows(t) == ExpiredRows(s)
  {
    QueuedRows(s, t, now);
    forall i ensures i in ExpiredRows(t) <==> i in ExpiredRows(s) {
      if i in ExpiredRows(s) { assert IntentEvolves(s.intents[i], t.intents[i]); }
    }
    assert ExpiredRows(t) == ExpiredRows(s);
  }

  lemma UncommittedExpiry(cfg: Config, w: World, now: int, dbNow: int, ids: seq<DeliveryId>, ending: Ending)
    ensures
      var c := RunExpiryCycle(w.store, w.expiry, cfg.expiryLimit, now, dbNow, ids, ending);
      !c.committed ==> c.totals.expired == w.expiry.expired
  {
    hide ExpirePending;
  }

  lemma SameExpired(cfg: Config, w: World, now: int, c: HookCycle, ending: Ending)
    requires Keyed(w.store) && HookCycleOk(cfg, w, now, c, ending)
    ensures ExpiredRows(c.store) == ExpiredRows(w.store)
  {
    hide DueBatch, Evolves, NetEvolves;
  }

  lemma RequeuedRows(s: Store, d: DeliveryId, now: int)
    requires d in s.deliveries && Keyed(s)
    ensures DeliveredRows(RetryDelivery(s, d, now).0) == DeliveredRows(s)
    ensures ExpiredRows(RetryDelivery(s, d, now).0) == ExpiredRows(s)
  {
  }

  // --------------------------------------------------------------- creation

  /** However the calls interleave: one key of one merchant, one intent, one maker, one order. */
  lemma CreationIsIdempotent(cfg: Config, events: seq<Event>, c: CallId, d: CallId) returns (maker: CallId)
    requires Sound(cfg) && c in Reached(cfg, events).calls && d in Reached(cfg, events).calls
    requires Reached(cfg, events).calls[c].stage.Returned? && Reached(cfg, events).calls[c].key.Some?
    requires Reached(cfg, events).calls[d].merchant == Reached(cfg, events).calls[c].merchant
    requires Reached(cfg, events).calls[d].key == Reached(cfg, events).calls[c].key
    ensures
      var calls := Reached(cfg, events).calls;
      var i := calls[c].stage.intent;
      && Made(calls, maker, i) && (forall x :: Made(calls, x, i) ==> x == maker)
      && (calls[d].stage.Returned? ==> calls[d].stage.intent == i && F.SameOrder(calls[c].request, calls[d].request)
                                       && (calls[d].stage.created <==> d == maker))
      && (calls[d].stage == Conflicted ==> !F.SameOrder(calls[d].request, calls[c].request))
  {
    hide TablesOk, NetOk, TotalsOk, CallsOk, Made, F.SameOrder;
    var w := Reached(cfg, events);
    maker := AnswersHaveOneMaker(w.store, w.calls, c);
    if w.calls[d].stage.Returned? {
      AnswersAgree(w.store, w.calls, c, d);
      MadeStage(w.calls, maker, d, w.calls[c].stage.intent);
    }
    if w.calls[d].stage == Conflicted { ConflictsAreReal(w.store, w.calls, d, c); }
  }

  /** On every run the intent a creation call returned is worth what the call asked for. */
  lemma CreationReturnsTheOrder(cfg: Config, events: seq<Event>, c: CallId)
    requires Sound(cfg) && c in Reached(cfg, events).calls && Reached(cfg, events).calls[c].stage.Returned?
    ensures
      var (s, call) := (Reached(cfg, events).store, Reached(cfg, events).calls[c]);
      && call.stage.intent in s.intents
      && var row := s.intents[call.stage.intent];
      && M.SameValue(M.Decimal(row.cents, 2), call.request.amount) && row.currency == Upper(call.request.currency)
      && row.description == call.request.description && row.destination == call.request.destination
      && (call.stage.created ==> row.expiresAt == ExpiresAt(call))
  {
    hide TablesOk, NetOk, TotalsOk, CallsOk, M.SameValue;
    var w := Reached(cfg, events);
    AnswersMatchTheOrder(w.store, w.calls, c);
  }

  lemma MadeStage(calls: map<CallId, Call>, maker: CallId, d: CallId, i: IntentId)
    requires Made(calls, maker, i) && d in calls && calls[d].stage.Returned? && calls[d].stage.intent == i
    ensures Made(calls, d, i) <==> calls[d].stage.created
    ensures calls[maker].stage.created
  {
  }

  /**
   * On every run the insert of a call creates its row exactly when no row has
   * its merchant and key, its id or its reference; the row stays for ever.
   */
  lemma InsertOnRunsCreatesIff(cfg: Config, a: seq<Event>, e: Event, b: seq<Event>, c: CallId, id: IntentId,
                               reference: string, dbNow: int)
    requires Sound(cfg) && c in Reached(cfg, a).calls && Reached(cfg, a).calls[c].stage == Inserting
    requires e.action == OnCalls(InsertRow(c, id, reference, dbNow))
    ensures
      var (w, v) := (Reached(cfg, a), Reached(cfg, a + [e]));
      && c in v.calls && F.Accepted(w.calls[c].request)
      && (v.calls[c].stage == Returned(id, true) <==> RoomFor(w.store, w.calls[c], id, reference))
      && (v.calls[c].stage == Returned(id, true) ==>
            && id in v.store.intents && AsOrdered(v.store.intents[id], w.calls[c], reference, dbNow)
            && id in Reached(cfg, a + [e] + b).store.intents
            && SameIdentity(v.store.intents[id], Reached(cfg, a + [e] + b).store.intents[id]))
  {
    hide WorldOk, CallStep, Next, RoomFor, AsOrdered, Evolves, Insert, SameIdentity, IsTerminal;
    StartOk(cfg);
    var w := Reached(cfg, a);
    assert (a + [e])[..|a + [e]| - 1] == a;
    CallEvent(cfg, w, e);
    InsertStep(cfg, w, Now(w, e), c, id, reference, dbNow);
    InsertCreatesIff(w.store, w.calls[c], id, reference, dbNow);
    LaterEvolves(cfg, a + [e], b);
    KeptIntent(Reached(cfg, a + [e]).store, Reached(cfg, a + [e] + b).store, id);
  }

  lemma KeptIntent(s: Store, t: Store, id: IntentId)
    requires Evolves(s, t)
    ensures id in s.intents ==> id in t.intents && SameIdentity(s.intents[id], t.intents[id])
  {
  }

  lemma InsertStep(cfg: Config, w: World, now: int, c: CallId, id: IntentId, reference: string, dbNow: int)
    requires WorldOk(cfg, w) && c in w.calls && w.calls[c].stage == Inserting
    ensures F.Accepted(w.calls[c].request)
    ensures
      var v := CallStep(w, now, InsertRow(c, id, reference, dbNow));
      && c in v.calls && (v.store, v.calls[c].stage) == Insert(w.store, w.calls[c], id, reference, dbNow)
  {
    hide TablesOk, NetOk, TotalsOk, Insert, CallsOk;
    CallIsOk(w.store, w.calls, c);
  }

  /** The lookup that a call is at: the first, or the one after a refused insert. */
  ghost predicate LooksUp(call: Call, c: CallId, a: CallAction) {
    (call.stage == Looking && a == FirstLookup(c)) || (call.stage.Rechecking? && a == SecondLookup(c))
  }

  /**
   * On every run a lookup answers by the row that has the key of the call; when
   * no row has it, the first goes on to the insert and the second raises.
   */
  lemma LookupOnRuns(cfg: Config, a: seq<Event>, e: Event, c: CallId, i: IntentId)
    requires Sound(cfg) && c in Reached(cfg, a).calls
    requires e.action.OnCalls? && LooksUp(Reached(cfg, a).calls[c], c, e.action.callAction)
    ensures F.Accepted(Reached(cfg, a).calls[c].request) && c in Reached(cfg, a + [e]).calls
    ensures
      var (w, v) := (Reached(cfg, a), Reached(cfg, a + [e]));
      var missing := if w.calls[c].stage == Looking then Inserting else Raised;
      && v.store == w.store
      && (v.calls[c].stage == missing <==> KeyUnused(w.store, w.calls[c]))
      && (HasKey(w.store, w.calls[c], i) ==> v.calls[c].stage == KeyAnswer(w.store, w.calls[c], i))
  {
    hide WorldOk, CallStep, Next, KeyUnused, Lookup, F.CanonicalText;
    StartOk(cfg);
    var w := Reached(cfg, a);
    assert (a + [e])[..|a + [e]| - 1] == a;
    CallEvent(cfg, w, e);
    LookupStep(cfg, w, Now(w, e), c, e.action.callAction);
    LookupMissesIff(w.store, w.calls[c], if w.calls[c].stage == Looking then Inserting else Raised);
  }

  lemma LookupStep(cfg: Config, w: World, now: int, c: CallId, a: CallAction)
    requires WorldOk(cfg, w) && c in w.calls && LooksUp(w.calls[c], c, a)
    ensures F.Accepted(w.calls[c].request) && w.calls[c].key.Some? && UniqueKeys(w.store)
    ensures
      var v := CallStep(w, now, a);
      && c in v.calls && v.store == w.store
      && v.calls[c].stage
         == Lookup(w.store, w.calls[c], if w.calls[c].stage == Looking then Inserting else Raised)
  {
    hide TablesOk, NetOk, TotalsOk, Lookup, CallsOk, UniqueKeys;
    CallIsOk(w.store, w.calls, c);
    KeysAreUnique(w.store, w.calls);
  }

  lemma KeysAreUnique(s: Store, calls: map<CallId, Call>)
    requires CallsOk(s, calls)
    ensures UniqueKeys(s)
  {
  }

  /** A call begins with its lookup when it has a key, and with its insert when it has none. */
  lemma CallsBegin(cfg: Config, a: seq<Event>, e: Event, c: CallId, m: MerchantId, key: Option<string>, r: F.Request)
    requires Sound(cfg) && c !in Reached(cfg, a).calls && F.Accepted(r)
    requires e.action == OnCalls(BeginCreate(c, m, key, r))
    ensures
      var v := Reached(cfg, a + [e]);
      c in v.calls && v.calls[c] == Call(m, key, r, v.clock, if key.Some? then Looking else Inserting)
  {
    hide WorldOk, Next;
    StartOk(cfg);
    assert (a + [e])[..|a + [e]| - 1] == a;
    CallEvent(cfg, Reached(cfg, a), e);
  }

  /** After a collision on the key the second lookup finds the row. */
  lemma CollisionFindsTheRow(cfg: Config, events: seq<Event>, c: CallId, e: Event)
    requires Sound(cfg) && c in Reached(cfg, events).calls
    requires Reached(cfg, events).calls[c].stage == Rechecking(true)
    requires e.action == OnCalls(SecondLookup(c))
    ensures c in Reached(cfg, events + [e]).calls && Reached(cfg, events + [e]).calls[c].stage != Raised
  {
    hide WorldOk, CallStep, Next;
    StartOk(cfg);
    assert (events + [e])[..|events + [e]| - 1] == events;
    CallEvent(cfg, Reached(cfg, events), e);
    RecheckFindsTheRow(cfg, Reached(cfg, events), Now(Reached(cfg, events), e), c);
  }

  lemma CallEvent(cfg: Config, w: World, e: Event)
    requires WorldOk(cfg, w) && e.action.OnCalls?
    ensures Next(cfg, w, e) == CallStep(w, Now(w, e), e.action.callAction).(clock := Now(w, e))
  {
    hide WorldOk, CallStep;
  }

  lemma RecheckFindsTheRow(cfg: Config, w: World, now: int, c: CallId)
    requires WorldOk(cfg, w) && c in w.calls && w.calls[c].stage == Rechecking(true)
    ensures c in CallStep(w, now, SecondLookup(c)).calls && CallStep(w, now, SecondLookup(c)).calls[c].stage != Raised
  {
    hide TablesOk, NetOk, TotalsOk, Lookup, CallsOk;
    CallIsOk(w.store, w.calls, c);
    LookupFacts(w.store, w.calls[c], Raised);
  }

  lemma CallIsOk(s: Store, calls: map<CallId, Call>, c: CallId)
    requires CallsOk(s, calls) && c in calls
    ensures CallOk(s, calls[c])
  {
    hide CallOk;
  }
}
