/**
 * All processes at work on one database: the API, the creation calls in
 * flight, the ledger scanner, the expirer, the webhook worker and the shops.
 * An event is one committed or rolled-back service call, or one stage of a
 * creation call; every event takes place later than the one before it.
 */
module World {
  import opened Common
  import opened Fingerprint
  import opened Store
  import opened PaymentIntents
  import opened Receiver
  import opened WebhookDelivery
  import opened DeliveryFacts
  import opened IntentFacts
  import opened Workers
  import opened Creation
  import R = Ranking
  import X = XrplPayments

  datatype Config = Config(maxAttempts: nat, hookLimit: nat, expiryLimit: nat, shops: set<Url>)

  predicate Sound(cfg: Config) {
    cfg.maxAttempts >= 1 && cfg.hookLimit >= 1 && cfg.expiryLimit >= 1
  }

  datatype World = World(clock: int, store: Store, calls: map<CallId, Call>, net: Net, hooks: HookTotals,
                         expiry: ExpiryTotals)

  const START := World(0, EMPTY, map[], Net(map[], []), HookTotals(0, 0, 0, 0, 0, 0), ExpiryTotals(0, 0, 0))

  datatype EndpointAction =
    | AddEndpoint(endpoint: EndpointId, row: Endpoint)
    | PatchEndpoint(endpoint: EndpointId, url: Url, enabled: bool)
    | DeleteEndpoint(endpoint: EndpointId)

  datatype CallAction =
    | BeginCreate(call: CallId, merchant: MerchantId, key: Option<string>, request: Request)
    | FirstLookup(call: CallId)
    | InsertRow(call: CallId, id: IntentId, reference: string, dbNow: int)
    | SecondLookup(call: CallId)

  datatype IntentAction =
    | ConfirmIntent(merchant: MerchantId, intent: IntentId, hash: string, dbNow: int, ids: seq<DeliveryId>)
    | CancelIntent(merchant: MerchantId, intent: IntentId, reason: Option<string>, dbNow: int, ids: seq<DeliveryId>)
    | DetectPayment(payment: X.Detected, dbNow: int, ids: seq<DeliveryId>)
    | ScanTransaction(tx: X.Tx, dbNow: int, ids: seq<DeliveryId>)

  /** A checkout, or a shop handling once more, or late, something that was sent to it. */
  datatype ShopAction = Checkout(shop: Url, intent: IntentId) | Redeliver(entry: nat)

  datatype Action =
    | OnEndpoints(endpointAction: EndpointAction)
    | OnCalls(callAction: CallAction)
    | OnIntents(intentAction: IntentAction)
    | OnShops(shopAction: ShopAction)
    | ExpireDue(dbNow: int, ids: seq<DeliveryId>, ending: Ending)
    | DeliverDue(posts: seq<Post>, ending: Ending)
    | RetryHook(merchant: MerchantId, delivery: DeliveryId)

  datatype Event = Event(wait: nat, action: Action)

  function Now(w: World, e: Event): int {
    w.clock + 1 + e.wait
  }

  // ----------------------------------------------------------------- steps

  function Unlink(row: Delivery, e: EndpointId): Delivery {
    if row.endpoint == Some(e) then row.(endpoint := None) else row
  }

  function EndpointStep(s: Store, a: EndpointAction): Store {
    match a
    case AddEndpoint(e, row) => if e in s.endpoints then s else s.(endpoints := s.endpoints[e := row])
    case PatchEndpoint(e, url, enabled) =>
      if e !in s.endpoints then s
      else s.(endpoints := s.endpoints[e := s.endpoints[e].(url := url, enabled := enabled)])
    case DeleteEndpoint(e) =>
      s.(endpoints := s.endpoints - {e}, deliveries := map d <- s.deliveries :: Unlink(s.deliveries[d], e))
  }

  predicate CallAt(w: World, c: CallId, looking: bool, inserting: bool, rechecking: bool) {
    && c in w.calls && Accepted(w.calls[c].request)
    && (w.calls[c].key.Some? || inserting)
    && ((looking && w.calls[c].stage == Looking) || (inserting && w.calls[c].stage == Inserting)
        || (rechecking && w.calls[c].stage.Rechecking?))
  }

  function CallStep(w: World, now: int, a: CallAction): World {
    match a
    case BeginCreate(c, m, key, r) =>
      if c in w.calls || !Accepted(r) then w else w.(calls := w.calls[c := Begin(m, key, r, now)])
    case FirstLookup(c) =>
      if !CallAt(w, c, true, false, false) then w
      else w.(calls := w.calls[c := w.calls[c].(stage := Lookup(w.store, w.calls[c], Inserting))])
    case InsertRow(c, id, reference, dbNow) =>
      if !CallAt(w, c, false, true, false) then w
      else
        var (t, stage) := Insert(w.store, w.calls[c], id, reference, dbNow);
        w.(store := t, calls := w.calls[c := w.calls[c].(stage := stage)])
    case SecondLookup(c) =>
      if !CallAt(w, c, false, false, true) then w
      else w.(calls := w.calls[c := w.calls[c].(stage := Lookup(w.store, w.calls[c], Raised))])
  }

  predicate Owns(s: Store, m: MerchantId, i: IntentId) {
    i in s.intents && s.intents[i].merchant == m
  }

  function IntentStep(s: Store, now: int, a: IntentAction): Store {
    match a
    case ConfirmIntent(m, i, hash, dbNow, ids) => if Owns(s, m, i) then Confirm(s, i, hash, now, dbNow, ids).0 else s
    case CancelIntent(m, i, reason, dbNow, ids) => if Owns(s, m, i) then Cancel(s, i, reason, now, dbNow, ids).0 else s
    case DetectPayment(d, dbNow, ids) => if X.SchemaAccepts(d) then X.Detect(s, d, now, dbNow, ids).0 else s
    case ScanTransaction(tx, dbNow, ids) => X.Process(s, tx, now, dbNow, ids).0
  }

  function ShopStep(cfg: Config, w: World, a: ShopAction): Net {
    match a
    case Checkout(u, i) =>
      if u in cfg.shops && i in w.store.intents && (u, i) !in w.net.orders then
        w.net.(orders := w.net.orders[(u, i) := Order(OnHold, w.store.intents[i].status, None, [])])
      else w.net
    case Redeliver(k) =>
      if k >= |w.net.log| then w.net
      else
        var e := w.net.log[k];
        var place := (e.url, e.payload.data.id);
        if e.url in cfg.shops && place in w.net.orders then
          w.net.(orders := w.net.orders[place := Handle(w.net.orders[place], e.payload)])
        else w.net
  }

  ghost predicate Keyed(s: Store) {
    s.trail.Keys == s.deliveries.Keys
  }

  function Act(cfg: Config, w: World, now: int, a: Action): World
    requires Keyed(w.store)
  {
    match a
    case OnEndpoints(e) => w.(store := EndpointStep(w.store, e))
    case OnCalls(c) => CallStep(w, now, c)
    case OnIntents(i) => w.(store := IntentStep(w.store, now, i))
    case OnShops(o) => w.(net := ShopStep(cfg, w, o))
    case ExpireDue(dbNow, ids, ending) =>
      var c := RunExpiryCycle(w.store, w.expiry, cfg.expiryLimit, now, dbNow, ids, ending);
      w.(store := c.store, expiry := c.totals)
    case DeliverDue(posts, ending) =>
      var c := RunHookCycle(w.store, w.net, w.hooks, now, cfg.hookLimit, cfg.maxAttempts, cfg.shops, posts, ending);
      w.(store := c.store, net := c.net, hooks := c.totals)
    case RetryHook(m, d) =>
      if d in w.store.deliveries && w.store.deliveries[d].merchant == m then
        w.(store := RetryDelivery(w.store, d, now).0)
      else w
  }

  // ------------------------------------------------------------- invariant

  function DeliveredRows(s: Store): set<DeliveryId> {
    set d <- s.deliveries | s.deliveries[d].status == Delivered
  }

  function ExpiredRows(s: Store): set<IntentId> {
    set i <- s.intents | s.intents[i].status == Expired
  }

  ghost predicate TotalsOk(w: World) {
    && w.hooks.processed == w.hooks.delivered + w.hooks.failed + w.hooks.discarded
    && w.hooks.delivered <= |DeliveredRows(w.store)|
    && w.expiry.expired <= |ExpiredRows(w.store)|
  }

  ghost predicate WorldOk(cfg: Config, w: World) {
    && Sound(cfg)
    && TablesOk(w.store, cfg.maxAttempts, w.net.log)
    && NetOk(w.store, w.net, cfg.shops)
    && CallsOk(w.store, w.calls)
    && TotalsOk(w)
  }

  ghost predicate WorldEvolves(w: World, v: World) {
    w.clock <= v.clock && Evolves(w.store, v.store) && NetEvolves(w.net, v.net)
  }

  lemma StartOk(cfg: Config)
    requires Sound(cfg)
    ensures WorldOk(cfg, START)
  {
  }

  lemma Subsets<T>(a: set<T>, b: set<T>)
    requires a <= b
    ensures |a| <= |b|
  {
    assert b == a + (b - a);
  }

  lemma EvolvesKeepsTotals(s: Store, t: Store)
    requires Evolves(s, t)
    ensures |DeliveredRows(s)| <= |DeliveredRows(t)| && |ExpiredRows(s)| <= |ExpiredRows(t)|
  {
    forall d <- DeliveredRows(s) ensures d in DeliveredRows(t) {
      assert DeliveryEvolves(s.deliveries[d], t.deliveries[d]);
    }
    forall i <- ExpiredRows(s) ensures i in ExpiredRows(t) {
      assert IntentEvolves(s.intents[i], t.intents[i]);
    }
    Subsets(DeliveredRows(s), DeliveredRows(t));
    Subsets(ExpiredRows(s), ExpiredRows(t));
  }

  lemma EvolvesKeepsNet(s: Store, t: Store, net: Net, shops: set<Url>)
    requires Evolves(s, t) && NetOk(s, net, shops)
    ensures NetOk(t, net, shops)
  {
    forall k | 0 <= k < |net.log| ensures SentOk(t, net, shops, net.log[k]) {
      assert SentOk(s, net, shops, net.log[k]);
      assert IntentEvolves(s.intents[net.log[k].payload.data.id], t.intents[net.log[k].payload.data.id]);
    }
    forall place <- net.orders ensures OrderOk(t, place.1, net.orders[place]) {
      assert OrderOk(s, place.1, net.orders[place]);
      assert IntentEvolves(s.intents[place.1], t.intents[place.1]);
    }
  }

  /** A step that changes only the tables, and adds no intent. */
  lemma StoreStepOk(cfg: Config, w: World, t: Store)
    requires WorldOk(cfg, w) && TablesOk(t, cfg.maxAttempts, w.net.log)
    requires Evolves(w.store, t) && t.intents.Keys == w.store.intents.Keys
    ensures WorldOk(cfg, w.(store := t))
  {
    hide TablesOk, Evolves, CallsOk, NetOk, DeliveredRows, ExpiredRows;
    EvolvesKeepsTotals(w.store, t);
    EvolvesKeepsNet(w.store, t, w.net, cfg.shops);
    CallsOkEvolves(w.store, t, w.calls);
  }

  // ------------------------------------------------------------- step facts

  lemma EndpointStepFacts(s: Store, a: EndpointAction, maxAttempts: nat, log: seq<Sent>)
    requires TablesOk(s, maxAttempts, log)
    ensures
      var t := EndpointStep(s, a);
      TablesOk(t, maxAttempts, log) && Evolves(s, t) && t.intents == s.intents
  {
    hide StoreOk, Evolves, ScheduleOk;
    var t := EndpointStep(s, a);
    forall d <- t.deliveries
      ensures d in t.trail && ScheduleOk(t.deliveries[d], t.trail[d].attempts, maxAttempts)
              && ReceiptOk(t.deliveries[d], d, t.trail[d].receipt, log)
    {
      UnlinkedSchedule(s.deliveries[d], t.deliveries[d], s.trail[d].attempts, maxAttempts);
    }
    assert RowsReworked(s, t);
    ReworkedFacts(s, t);
  }

  lemma UnlinkedSchedule(a: Delivery, b: Delivery, attempts: seq<int>, maxAttempts: nat)
    requires b == a || b == a.(endpoint := None)
    ensures ScheduleOk(a, attempts, maxAttempts) <==> ScheduleOk(b, attempts, maxAttempts)
  {
  }

  /** No intent expires between `s` and `t`. */
  ghost predicate NoneExpired(s: Store, t: Store) {
    forall i <- t.intents :: t.intents[i].status == Expired ==> i in s.intents && s.intents[i].status == Expired
  }

  lemma IntentStepFacts(s: Store, now: int, a: IntentAction, maxAttempts: nat, log: seq<Sent>)
    requires TablesOk(s, maxAttempts, log)
    ensures
      var t := IntentStep(s, now, a);
      && TablesOk(t, maxAttempts, log) && Evolves(s, t) && t.intents.Keys == s.intents.Keys
      && QueueExtended(s, t, now) && FansSettled(s, t) && NoneExpired(s, t)
  {
    hide Confirm, Cancel, TablesOk, Evolves, Fanned, X.Parse, X.SchemaAccepts, X.Matches, X.ByReference,
         QueueExtended, FansSettled, NoneExpired;
    SelfEvolves(s);
    NothingQueued(s, now);
    match a
    case ConfirmIntent(m, i, hash, dbNow, ids) =>
      if i in s.intents { ConfirmStep(s, i, hash, now, dbNow, ids, maxAttempts, log); }
    case CancelIntent(m, i, reason, dbNow, ids) =>
      if i in s.intents { CancelStep(s, i, reason, now, dbNow, ids, maxAttempts, log); }
    case DetectPayment(d, dbNow, ids) =>
      if X.SchemaAccepts(d) { DetectStep(s, d, now, dbNow, ids, maxAttempts, log); }
    case ScanTransaction(tx, dbNow, ids) =>
      if X.Parse(tx).Payment? {
        X.ParsedFacts(tx);
        DetectStep(s, X.Parse(tx).detected, now, dbNow, ids, maxAttempts, log);
      }
  }

  lemma NothingQueued(s: Store, now: int)
    ensures QueueExtended(s, s, now) && FansSettled(s, s) && NoneExpired(s, s)
  {
  }

  lemma FannedStep(s: Store, i: IntentId, row: Intent, now: int, dbNow: int, t: Store)
    requires i in s.intents && IsTerminal(row.status) && row.status != Expired && row.merchant == s.intents[i].merchant
    requires Fanned(s, i, row, now, dbNow, t)
    ensures QueueExtended(s, t, now) && FansSettled(s, t) && NoneExpired(s, t) && t.intents.Keys == s.intents.Keys
  {
    FannedExtendsQueue(s, i, row, now, dbNow, t);
  }

  lemma ConfirmStep(s: Store, i: IntentId, hash: string, now: int, dbNow: int, ids: seq<DeliveryId>, maxAttempts: nat,
                    log: seq<Sent>)
    requires TablesOk(s, maxAttempts, log) && i in s.intents
    ensures
      var t := Confirm(s, i, hash, now, dbNow, ids).0;
      && TablesOk(t, maxAttempts, log) && Evolves(s, t) && t.intents.Keys == s.intents.Keys && QueueExtended(s, t, now)
      && FansSettled(s, t) && NoneExpired(s, t)
  {
    hide TablesOk, Evolves, Fanned, QueueExtended, FansSettled, NoneExpired;
    NothingQueued(s, now);
    ConfirmFacts(s, i, hash, now, dbNow, ids, maxAttempts, log);
    var (t, reply) := Confirm(s, i, hash, now, dbNow, ids);
    if reply == Changed {
      FannedStep(s, i, s.intents[i].(status := Confirmed, hash := Some(hash)), now, dbNow, t);
    }
  }

  lemma CancelStep(s: Store, i: IntentId, reason: Option<string>, now: int, dbNow: int, ids: seq<DeliveryId>,
                   maxAttempts: nat, log: seq<Sent>)
    requires TablesOk(s, maxAttempts, log) && i in s.intents
    ensures
      var t := Cancel(s, i, reason, now, dbNow, ids).0;
      && TablesOk(t, maxAttempts, log) && Evolves(s, t) && t.intents.Keys == s.intents.Keys && QueueExtended(s, t, now)
      && FansSettled(s, t) && NoneExpired(s, t)
  {
    hide TablesOk, Evolves, Fanned, QueueExtended, FansSettled, NoneExpired;
    NothingQueued(s, now);
    CancelFacts(s, i, reason, now, dbNow, ids, maxAttempts, log);
    var (t, reply) := Cancel(s, i, reason, now, dbNow, ids);
    if reply == Changed {
      FannedStep(s, i, s.intents[i].(status := Cancelled, cancelledAt := Some(now), reason := reason), now, dbNow, t);
    }
  }

  lemma DetectStep(s: Store, d: X.Detected, now: int, dbNow: int, ids: seq<DeliveryId>, maxAttempts: nat,
                   log: seq<Sent>)
    requires TablesOk(s, maxAttempts, log) && X.SchemaAccepts(d)
    ensures
      var t := X.Detect(s, d, now, dbNow, ids).0;
      && TablesOk(t, maxAttempts, log) && Evolves(s, t) && t.intents.Keys == s.intents.Keys && QueueExtended(s, t, now)
      && FansSettled(s, t) && NoneExpired(s, t)
  {
    hide Confirm, TablesOk, Evolves, X.ByReference, X.Matches, QueueExtended, FansSettled, NoneExpired;
    SelfEvolves(s);
    NothingQueued(s, now);
    match X.ByReference(s, Upper(d.reference))
    case None =>
    case Some(i) => ConfirmStep(s, i, d.hash, now, dbNow, ids, maxAttempts, log);
  }

  lemma CallStepFacts(cfg: Config, w: World, now: int, a: CallAction)
    requires WorldOk(cfg, w)
    ensures
      var v := CallStep(w, now, a);
      && WorldOk(cfg, v) && Evolves(w.store, v.store) && v == w.(store := v.store, calls := v.calls)
      && v.store == w.store.(intents := v.store.intents)
  {
    hide Lookup, Insert, CallsOk, Evolves, StoreOk, DeliveredRows, ExpiredRows, NetOk;
    SelfEvolves(w.store);
    match a
    case BeginCreate(c, m, key, r) =>
      if c !in w.calls && Accepted(r) { BeginKeepsCalls(w.store, w.calls, c, m, key, r, now); }
    case FirstLookup(c) =>
      if CallAt(w, c, true, false, false) { LookupKeepsCalls(w.store, w.calls, c, Inserting); }
    case InsertRow(c, id, reference, dbNow) =>
      if CallAt(w, c, false, true, false) { InsertKeepsWorld(cfg, w, c, id, reference, dbNow); }
    case SecondLookup(c) =>
      if CallAt(w, c, false, false, true) { LookupKeepsCalls(w.store, w.calls, c, Raised); }
  }

  lemma BeginKeepsCalls(s: Store, calls: map<CallId, Call>, c: CallId, m: MerchantId, key: Option<string>, r: Request,
                        now: int)
    requires CallsOk(s, calls) && c !in calls && Accepted(r)
    ensures CallsOk(s, calls[c := Begin(m, key, r, now)])
  {
    var after := calls[c := Begin(m, key, r, now)];
    forall d, i ensures Made(after, d, i) <==> Made(calls, d, i) {
    }
    forall i <- s.intents ensures exists d :: Made(after, d, i) {
      var d :| Made(calls, d, i);
      assert Made(after, d, i);
    }
  }

  lemma LookupKeepsCalls(s: Store, calls: map<CallId, Call>, c: CallId, missing: Stage)
    requires CallsOk(s, calls) && c in calls && !calls[c].stage.Returned?
    requires calls[c].key.Some? && missing in {Inserting, Raised} && Accepted(calls[c].request)
    ensures CallsOk(s, calls[c := calls[c].(stage := Lookup(s, calls[c], missing))])
  {
    hide Lookup, CallOk, X.UniqueReferences, UniqueKeys;
    assert CallOk(s, calls[c]);
    LookupFacts(s, calls[c], missing);
    StageKeepsCalls(s, calls, c, Lookup(s, calls[c], missing));
  }

  lemma InsertKeepsWorld(cfg: Config, w: World, c: CallId, id: IntentId, reference: string, dbNow: int)
    requires WorldOk(cfg, w) && CallAt(w, c, false, true, false)
    ensures
      var (t, stage) := Insert(w.store, w.calls[c], id, reference, dbNow);
      var v := w.(store := t, calls := w.calls[c := w.calls[c].(stage := stage)]);
      WorldOk(cfg, v) && Evolves(w.store, t) && t == w.store.(intents := t.intents)
  {
    hide Insert, CallsOk, Evolves, NetOk, DeliveredRows, ExpiredRows, NewIntent;
    var t := Insert(w.store, w.calls[c], id, reference, dbNow).0;
    InsertFacts(w.store, w.calls, c, id, reference, dbNow);
    EvolvesKeepsTotals(w.store, t);
    EvolvesKeepsNet(w.store, t, w.net, cfg.shops);
  }

  lemma ShopStepFacts(cfg: Config, w: World, a: ShopAction)
    requires WorldOk(cfg, w)
    ensures
      var net := ShopStep(cfg, w, a);
      NetOk(w.store, net, cfg.shops) && NetEvolves(w.net, net) && net.log == w.net.log
  {
    hide TablesOk, CallsOk, TotalsOk;
    match a
    case Checkout(u, i) =>
      var net := ShopStep(cfg, w, a);
      forall k | 0 <= k < |net.log| ensures SentOk(w.store, net, cfg.shops, net.log[k]) {
        assert SentOk(w.store, w.net, cfg.shops, w.net.log[k]);
      }
    case Redeliver(k) =>
      if k < |w.net.log| {
        var e := w.net.log[k];
        var place := (e.url, e.payload.data.id);
        assert SentOk(w.store, w.net, cfg.shops, e);
        if e.url in cfg.shops && place in w.net.orders {
          HandledFacts(w.store, w.net, cfg.shops, place, e.payload, ShopStep(cfg, w, a));
        }
      }
  }

  /** How many ids a listing of distinct rows has. */
  lemma {:induction false} IdsCount(batch: seq<R.Key>, n: nat)
    requires n <= |batch| && forall i, j :: 0 <= i < j < |batch| ==> batch[i].id != batch[j].id
    ensures |Ids(batch, n)| == n
  {
    if n > 0 {
      IdsCount(batch, n - 1);
      assert Ids(batch, n) == Ids(batch, n - 1) + {batch[n - 1].id} by {
        assert batch[..n] == batch[..n - 1] + [batch[n - 1]];
      }
      assert batch[n - 1].id !in Ids(batch, n - 1);
    }
  }

  lemma ExpiryCycleFacts(cfg: Config, w: World, now: int, dbNow: int, ids: seq<DeliveryId>, ending: Ending)
    requires WorldOk(cfg, w)
    ensures
      var c := RunExpiryCycle(w.store, w.expiry, cfg.expiryLimit, now, dbNow, ids, ending);
      && WorldOk(cfg, w.(store := c.store, expiry := c.totals)) && Evolves(w.store, c.store)
      && QueueExtended(w.store, c.store, now) && FansSettled(w.store, c.store)
      && (!c.committed ==> c.store == w.store)
      && (c.committed ==>
            var batch := ExpiredPending(w.store, now, cfg.expiryLimit);
            && ExpiredExactly(w.store, c.store, batch, |batch|)
            && |ExpiredRows(c.store)| == |ExpiredRows(w.store)| + |batch|
            && c.totals.expired == w.expiry.expired + if ending == Killed then 0 else |batch|)
  {
    hide TablesOk, CallsOk, NetOk, Evolves, ExpiredPending, ExpireFirst, StoreOk;
    var batch := ExpiredPending(w.store, now, cfg.expiryLimit);
    ExpiredPendingBatch(w.store, now, cfg.expiryLimit);
    SelfEvolves(w.store);
    match ExpireFirst(w.store, batch, |batch|, now, dbNow, ids)
    case None =>
    case Some(e) =>
      ExpireFirstFacts(w.store, batch, |batch|, now, dbNow, ids, cfg.maxAttempts, w.net.log);
      IdsCount(batch, |batch|);
      ExpiredMembers(w.store, e.store, batch);
      StoreStepOk(cfg, w, e.store);
  }

  lemma ExpiredMembers(s: Store, t: Store, batch: seq<R.Key>)
    requires ExpiryBatch(s, batch) && ExpiredExactly(s, t, batch, |batch|)
    ensures |ExpiredRows(t)| == |ExpiredRows(s)| + |Ids(batch, |batch|)|
  {
    var ids := Ids(batch, |batch|);
    forall i <- ids ensures i in s.intents && s.intents[i].status == Pending {
    }
    forall i | i in ExpiredRows(t) ensures i in ExpiredRows(s) + ids {
      assert i in s.intents;
    }
    forall i | i in ExpiredRows(s) + ids ensures i in ExpiredRows(t) {
      assert i in t.intents;
    }
    assert ExpiredRows(t) == ExpiredRows(s) + ids;
    assert ExpiredRows(s) !! ids;
  }

  /** Delivered rows are counted as the batch goes. */
  lemma {:induction false} DeliverFirstCounts(s: Store, net: Net, batch: seq<R.Key>, n: nat, now: int, maxAttempts: nat,
                                              shops: set<Url>, posts: seq<Post>)
    requires n <= |batch| && ReadyFor(s, net, batch, now, maxAttempts, shops)
    ensures
      var t := DeliverFirst(Batch(s, net, 0, 0, 0), batch, n, now, maxAttempts, shops, posts);
      t.ok ==> |DeliveredRows(t.batch.store)| == |DeliveredRows(s)| + t.batch.delivered
  {
    hide DeliverNext, BatchRowsOk, NetOk, DeliveredRows, SchedulesOk, ReceiptsOk, FaithfulTo;
    if n > 0 {
      DeliverFirstCounts(s, net, batch, n - 1, now, maxAttempts, shops, posts);
      var t := DeliverFirst(Batch(s, net, 0, 0, 0), batch, n - 1, now, maxAttempts, shops, posts);
      if t.ok {
        var k := batch[n - 1];
        assert k in batch;
        NextRowDue(s, net, batch, n, now, maxAttempts, shops, posts);
        DeliverNextCounts(t.batch, k.id, now, maxAttempts, shops, PostAt(posts, n - 1));
      }
    }
  }

  /** The row about to be delivered has not been touched by the batch so far. */
  lemma NextRowDue(s: Store, net: Net, batch: seq<R.Key>, n: nat, now: int, maxAttempts: nat, shops: set<Url>,
                   posts: seq<Post>)
    requires 0 < n <= |batch| && ReadyFor(s, net, batch, now, maxAttempts, shops)
    requires DeliverFirst(Batch(s, net, 0, 0, 0), batch, n - 1, now, maxAttempts, shops, posts).ok
    ensures
      var t := DeliverFirst(Batch(s, net, 0, 0, 0), batch, n - 1, now, maxAttempts, shops, posts).batch.store;
      batch[n - 1].id in t.deliveries && t.deliveries[batch[n - 1].id].status != Delivered
  {
    hide DeliverFirst, NetOk, SchedulesOk, ReceiptsOk, ScheduleOk, ReceiptOk, FaithfulTo, Handled, NetEvolves;
    DeliverFirstFacts(s, net, batch, n - 1, now, maxAttempts, shops, posts);
    FreshInBatch(s, net, batch, n, now, maxAttempts, shops);
    var t := DeliverFirst(Batch(s, net, 0, 0, 0), batch, n - 1, now, maxAttempts, shops, posts).batch;
    assert batch[n - 1] in batch;
    assert RowAfter(s, t.store, batch[n - 1].id, false, now, maxAttempts, t.net.log);
  }

  lemma DeliverNextCounts(b: Batch, d: DeliveryId, now: int, maxAttempts: nat, shops: set<Url>, post: Post)
    requires d in b.store.deliveries && d in b.store.trail && b.store.deliveries[d].status != Delivered
    ensures
      var t := DeliverNext(b, d, now, maxAttempts, shops, post);
      t.ok ==> |DeliveredRows(t.batch.store)| - t.batch.delivered == |DeliveredRows(b.store)| - b.delivered
  {
    hide Transmit, DeliveredRows;
    var t := DeliverNext(b, d, now, maxAttempts, shops, post);
    if t.ok {
      PutCounts(b.store, d, t.batch.store.deliveries[d], t.batch.store.trail[d]);
    }
  }

  lemma PutCounts(s: Store, d: DeliveryId, row: Delivery, trail: Trail)
    requires d in s.deliveries && s.deliveries[d].status != Delivered
    ensures |DeliveredRows(Put(s, d, row, trail))| == |DeliveredRows(s)| + if row.status == Delivered then 1 else 0
  {
    var t := Put(s, d, row, trail);
    assert DeliveredRows(t) == if row.status == Delivered then DeliveredRows(s) + {d} else DeliveredRows(s);
  }

  /** What a cycle of the webhook worker did to the rows. */
  ghost predicate HookCycleOk(cfg: Config, w: World, now: int, c: HookCycle, ending: Ending)
    requires Keyed(w.store)
  {
    && Evolves(w.store, c.store) && NetEvolves(w.net, c.net)
    && (!c.committed ==> c.store == w.store && c.totals == w.hooks.(failedCycles := w.hooks.failedCycles + 1))
    && (c.committed ==>
          var batch := DueBatch(w.store, now, cfg.hookLimit);
          && BatchRowsOk(w.store, c.store, Ids(batch, |batch|), now, cfg.maxAttempts, c.net.log)
          && (ending == Marked ==>
                && |DeliveredRows(c.store)| - c.totals.delivered == |DeliveredRows(w.store)| - w.hooks.delivered
                && c.totals.processed == w.hooks.processed + |batch|)
          && (ending == Killed ==> c.totals == w.hooks)
          && ending != CommitFails)
  }

  lemma HookCycleFacts(cfg: Config, w: World, now: int, posts: seq<Post>, ending: Ending)
    requires WorldOk(cfg, w)
    ensures
      var c := RunHookCycle(w.store, w.net, w.hooks, now, cfg.hookLimit, cfg.maxAttempts, cfg.shops, posts, ending);
      && WorldOk(cfg, w.(store := c.store, net := c.net, hooks := c.totals))
      && HookCycleOk(cfg, w, now, c, ending)
  {
    hide DeliverFirst, DueBatch, CallsOk, NetOk, BatchRowsOk, DueRows, Evolves, OutboxOk, SchedulesOk, ReceiptsOk,
         DeliveredRows, ExpiredRows;
    var s, net := w.store, w.net;
    var batch := DueBatch(s, now, cfg.hookLimit);
    HookReady(cfg, w, now);
    DeliverFirstFacts(s, net, batch, |batch|, now, cfg.maxAttempts, cfg.shops, posts);
    DeliverFirstCounts(s, net, batch, |batch|, now, cfg.maxAttempts, cfg.shops, posts);
    var t := DeliverFirst(Batch(s, net, 0, 0, 0), batch, |batch|, now, cfg.maxAttempts, cfg.shops, posts);
    SelfEvolves(s);
    LongerLog(s, net.log, t.batch.net.log);
    if t.ok {
      CommittedBatch(cfg, w, now, t.batch.store, t.batch.net);
    }
  }

  lemma LongerLog(s: Store, log: seq<Sent>, longer: seq<Sent>)
    requires ReceiptsOk(s, log) && log <= longer
    ensures ReceiptsOk(s, longer)
  {
    forall d <- s.deliveries ensures d in s.trail && ReceiptOk(s.deliveries[d], d, s.trail[d].receipt, longer) {
      ReceiptOutlastsLog(s.deliveries[d], d, s.trail[d].receipt, log, longer);
    }
  }

  lemma HookReady(cfg: Config, w: World, now: int)
    requires WorldOk(cfg, w)
    ensures ReadyFor(w.store, w.net, DueBatch(w.store, now, cfg.hookLimit), now, cfg.maxAttempts, cfg.shops)
  {
    hide CallsOk, NetOk, DueBatch, ScheduleOk;
    DueBatchRows(w.store, now, cfg.hookLimit);
    forall d <- w.store.deliveries ensures FaithfulTo(w.store, w.store.deliveries[d]) {
      assert DeliveryOk(w.store, d);
    }
  }

  lemma CommittedBatch(cfg: Config, w: World, now: int, t: Store, net: Net)
    requires WorldOk(cfg, w)
    requires
      var batch := DueBatch(w.store, now, cfg.hookLimit);
      && DueRows(w.store, batch, now)
      && BatchRowsOk(w.store, t, Ids(batch, |batch|), now, cfg.maxAttempts, net.log)
    requires NetOk(w.store, net, cfg.shops)
    ensures TablesOk(t, cfg.maxAttempts, net.log) && Evolves(w.store, t)
    ensures NetOk(t, net, cfg.shops) && CallsOk(t, w.calls)
    ensures |DeliveredRows(w.store)| <= |DeliveredRows(t)| && |ExpiredRows(w.store)| <= |ExpiredRows(t)|
  {
    hide DueBatch, CallsOk, NetOk, DeliveredRows, ExpiredRows, SchedulesOk, ReceiptsOk;
    var batch := DueBatch(w.store, now, cfg.hookLimit);
    forall d <- Ids(batch, |batch|) ensures d in w.store.deliveries && Open(w.store.deliveries[d]) {
    }
    BatchReworks(w.store, t, Ids(batch, |batch|), now, cfg.maxAttempts, net.log);
    ReworkedFacts(w.store, t);
    EvolvesKeepsNet(w.store, t, net, cfg.shops);
    CallsOkEvolves(w.store, t, w.calls);
    EvolvesKeepsTotals(w.store, t);
  }

  lemma RetryStepFacts(cfg: Config, w: World, now: int, d: DeliveryId)
    requires WorldOk(cfg, w) && d in w.store.deliveries
    ensures
      var t := RetryDelivery(w.store, d, now).0;
      WorldOk(cfg, w.(store := t)) && Evolves(w.store, t) && RowsReworked(w.store, t)
  {
    hide CallsOk, NetOk, TotalsOk, SchedulesOk, ReceiptsOk;
    var t := RetryDelivery(w.store, d, now).0;
    RetryFacts(w.store, d, now, cfg.maxAttempts, w.net.log);
    ReworkedFacts(w.store, t);
    StoreStepOk(cfg, w, t);
  }

  // ------------------------------------------------------------------- runs

  lemma ActFacts(cfg: Config, w: World, now: int, a: Action)
    requires WorldOk(cfg, w)
    ensures
      var v := Act(cfg, w, now, a);
      WorldOk(cfg, v) && Evolves(w.store, v.store) && NetEvolves(w.net, v.net) && v.clock == w.clock
  {
    hide RunExpiryCycle, RunHookCycle, RetryDelivery, EndpointStep, IntentStep, CallStep, ShopStep, Evolves, CallsOk,
         NetOk, StoreOk, SchedulesOk, ReceiptsOk, QueueExtended, BatchRowsOk;
    KeyedTables(cfg, w);
    match a
    case OnEndpoints(e) =>
      EndpointStepFacts(w.store, e, cfg.maxAttempts, w.net.log);
      StoreStepOk(cfg, w, EndpointStep(w.store, e));
    case OnCalls(c) => CallStepFacts(cfg, w, now, c);
    case OnIntents(i) =>
      IntentStepFacts(w.store, now, i, cfg.maxAttempts, w.net.log);
      StoreStepOk(cfg, w, IntentStep(w.store, now, i));
    case OnShops(o) =>
      ShopStepFacts(cfg, w, o);
      SelfEvolves(w.store);
    case ExpireDue(dbNow, ids, ending) => ExpiryCycleFacts(cfg, w, now, dbNow, ids, ending);
    case DeliverDue(posts, ending) => HookCycleFacts(cfg, w, now, posts, ending);
    case RetryHook(m, d) =>
      SelfEvolves(w.store);
      if d in w.store.deliveries { RetryStepFacts(cfg, w, now, d); }
  }

  lemma KeyedTables(cfg: Config, w: World)
    requires WorldOk(cfg, w)
    ensures Keyed(w.store)
  {
  }

  /** One event; its own time becomes the clock. */
  ghost function Next(cfg: Config, w: World, e: Event): (v: World)
    requires WorldOk(cfg, w)
    ensures WorldOk(cfg, v) && v.clock == Now(w, e)
  {
    KeyedTables(cfg, w);
    ActFacts(cfg, w, Now(w, e), e.action);
    Act(cfg, w, Now(w, e), e.action).(clock := Now(w, e))
  }

  /** An event fans every intent it settles out to the endpoints enabled just before it. */
  lemma NextFansSettled(cfg: Config, w: World, e: Event)
    requires WorldOk(cfg, w)
    ensures FansSettled(w.store, Next(cfg, w, e).store)
  {
    hide RunExpiryCycle, RunHookCycle, IntentStep, CallStep, EndpointStep, RetryDelivery, ShopStep, TablesOk, Evolves,
         CallsOk, NetOk, QueueExtended, BatchRowsOk, WorldOk, FansSettled, NoneExpired, HookCycleOk, NetEvolves,
         ExpiredExactly, ExpiredRows;
    KeyedTables(cfg, w);
    var v := Act(cfg, w, Now(w, e), e.action);
    match e.action {
      case OnEndpoints(a) => EndpointStepKeepsIntents(w.store, v.store, a);
      case OnCalls(c) => CallStepFansNothing(cfg, w, Now(w, e), c);
      case OnIntents(i) =>
        IntentTables(cfg, w);
        IntentStepFacts(w.store, Now(w, e), i, cfg.maxAttempts, w.net.log);
      case OnShops(o) => SameIntentsFanNothing(w.store, v.store);
      case ExpireDue(dbNow, ids, ending) => ExpiryCycleFacts(cfg, w, Now(w, e), dbNow, ids, ending);
      case DeliverDue(posts, ending) =>
        HookCycleFacts(cfg, w, Now(w, e), posts, ending);
        HookCycleKeepsIntents(cfg, w, Now(w, e),
                              RunHookCycle(w.store, w.net, w.hooks, Now(w, e), cfg.hookLimit, cfg.maxAttempts,
                                           cfg.shops, posts, ending), ending);
        SameIntentsFanNothing(w.store, v.store);
      case RetryHook(m, d) => RetryKeepsIntents(w.store, v.store, d, Now(w, e));
    }
  }

  lemma EndpointStepKeepsIntents(s: Store, t: Store, a: EndpointAction)
    requires t == EndpointStep(s, a)
    ensures FansSettled(s, t)
  {
    hide FansSettled;
    SameIntentsFanNothing(s, t);
  }

  lemma RetryKeepsIntents(s: Store, t: Store, d: DeliveryId, now: int)
    requires Keyed(s) && (t == s || (d in s.deliveries && t == RetryDelivery(s, d, now).0))
    ensures FansSettled(s, t)
  {
    hide FansSettled;
    SameIntentsFanNothing(s, t);
  }

  lemma IntentTables(cfg: Config, w: World)
    requires WorldOk(cfg, w)
    ensures TablesOk(w.store, cfg.maxAttempts, w.net.log)
  {
  }

  lemma SameIntentsFanNothing(s: Store, t: Store)
    requires s.intents == t.intents
    ensures FansSettled(s, t)
  {
  }

  lemma HookCycleKeepsIntents(cfg: Config, w: World, now: int, c: HookCycle, ending: Ending)
    requires Keyed(w.store) && HookCycleOk(cfg, w, now, c, ending)
    ensures c.store.intents == w.store.intents
  {
    hide Evolves, NetEvolves, DueBatch, Ids, DeliveredRows;
  }

  lemma CallStepFansNothing(cfg: Config, w: World, now: int, a: CallAction)
    requires WorldOk(cfg, w)
    ensures FansSettled(w.store, CallStep(w, now, a).store)
  {
    hide Lookup, CallsOk, NetOk, TablesOk, X.ByReference, KeyTaken, NewIntent;
  }

  /** A run. */
  ghost function Exec(cfg: Config, w: World, events: seq<Event>): (v: World)
    requires WorldOk(cfg, w)
    ensures WorldOk(cfg, v)
    decreases |events|
  {
    if events == [] then w else Next(cfg, Exec(cfg, w, events[..|events| - 1]), events[|events| - 1])
  }

  lemma NextEvolves(cfg: Config, w: World, e: Event)
    requires WorldOk(cfg, w)
    ensures WorldEvolves(w, Next(cfg, w, e))
  {
    hide Act, WorldOk, Evolves;
    ActFacts(cfg, w, Now(w, e), e.action);
  }

  lemma {:induction false} ExecEvolves(cfg: Config, w: World, events: seq<Event>)
    requires WorldOk(cfg, w)
    ensures WorldEvolves(w, Exec(cfg, w, events))
  {
    hide WorldOk, Evolves, Next, NetEvolves;
    if events == [] {
      SelfEvolves(w.store);
      SelfNetEvolves(w.net);
    } else {
      var init := events[..|events| - 1];
      var v := Exec(cfg, w, init);
      ExecEvolves(cfg, w, init);
      NextEvolves(cfg, v, events[|events| - 1]);
      EvolvesTransitive(w.store, v.store, Exec(cfg, w, events).store);
      NetEvolvesTransitive(w.net, v.net, Exec(cfg, w, events).net);
    }
  }

  lemma SelfNetEvolves(net: Net)
    ensures NetEvolves(net, net)
  {
  }

  lemma {:induction false} ExecSplits(cfg: Config, w: World, a: seq<Event>, b: seq<Event>)
    requires WorldOk(cfg, w)
    ensures Exec(cfg, w, a + b) == Exec(cfg, Exec(cfg, w, a), b)
    decreases |b|
  {
    hide WorldOk, Next;
    if b == [] {
      assert a + b == a;
    } else {
      var init := b[..|b| - 1];
      assert (a + b)[..|a + b| - 1] == a + init;
      ExecSplits(cfg, w, a, init);
    }
  }
}
