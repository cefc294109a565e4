/** The expirer: what a cycle takes, and that no due intent waits for ever. */
module ExpiryFairness {
  import opened Common
  import opened Fingerprint
  import opened Store
  import opened PaymentIntents
  import opened WebhookDelivery
  import opened DeliveryFacts
  import opened IntentFacts
  import opened Workers
  import opened Creation
  import opened World
  import R = Ranking
  import Q = Fairness

  // ------------------------------------------------------------- one cycle

  ghost function ExpiryOf(cfg: Config, w: World, e: Event): ExpiryCycle
    requires e.action.ExpireDue?
  {
    RunExpiryCycle(w.store, w.expiry, cfg.expiryLimit, Now(w, e), e.action.dbNow, e.action.ids, e.action.ending)
  }

  ghost predicate CommitsExpiry(cfg: Config, w: World, e: Event) {
    e.action.ExpireDue? && ExpiryOf(cfg, w, e).committed
  }

  predicate ExpiryDue(s: Store, i: IntentId, now: int) {
    i in s.intents && s.intents[i].status == Pending && s.intents[i].expiresAt <= now
  }

  /** The earlier of two intents by (expires_at, id). */
  ghost predicate ExpiresFirst(s: Store, i: IntentId, j: IntentId)
    requires i in s.intents && j in s.intents
  {
    || s.intents[i].expiresAt < s.intents[j].expiresAt
    || (s.intents[i].expiresAt == s.intents[j].expiresAt && i < j)
  }

  /** `expired` are the earliest `limit` of the intents due at `now`, or all of them; only their status has changed. */
  ghost predicate ExpiresEarliest(s: Store, t: Store, now: int, limit: nat, expired: set<IntentId>) {
    && (forall i <- expired :: ExpiryDue(s, i, now))
    && |expired| == Min(limit, |set i <- s.intents | ExpiryDue(s, i, now)|)
    && (forall i <- expired, j <- s.intents :: i in s.intents && ExpiryDue(s, j, now) && j !in expired ==>
          ExpiresFirst(s, i, j))
    && t.intents.Keys == s.intents.Keys
    && (forall i <- s.intents ::
          t.intents[i] == if i in expired then s.intents[i].(status := Expired) else s.intents[i])
  }

  /**
   * A committed cycle expires the min(limit, due) earliest due intents by
   * (expires_at, id), touches no other intent, and none before its time.
   */
  lemma CycleExpiresTheEarliest(cfg: Config, w: World, e: Event) returns (expired: set<IntentId>)
    requires WorldOk(cfg, w) && CommitsExpiry(cfg, w, e)
    ensures ExpiresEarliest(w.store, Next(cfg, w, e).store, Now(w, e), cfg.expiryLimit, expired)
    ensures Next(cfg, w, e).expiry.expired == w.expiry.expired + if e.action.ending == Killed then 0 else |expired|
  {
    hide RunExpiryCycle, TablesOk, CallsOk, NetOk, WorldOk, Evolves, QueueExtended, FansSettled, ExpiredPending,
         ExpiredRows, DueKeys, ExpiredExactly, ExpiryDue, Ids, NetEvolves, ExpiresEarliest;
    KeyedTables(cfg, w);
    ExpiryCycleFacts(cfg, w, Now(w, e), e.action.dbNow, e.action.ids, e.action.ending);
    expired := EarliestExpired(w.store, Next(cfg, w, e).store, Now(w, e), cfg.expiryLimit);
  }

  lemma EarliestExpired(s: Store, t: Store, now: int, limit: nat) returns (expired: set<IntentId>)
    requires ExpiredExactly(s, t, ExpiredPending(s, now, limit), |ExpiredPending(s, now, limit)|)
    ensures ExpiresEarliest(s, t, now, limit, expired)
    ensures |expired| == |ExpiredPending(s, now, limit)|
  {
    hide ExpiredPending, ExpiresFirst, ExpiryDue;
    var batch := ExpiredPending(s, now, limit);
    expired := Ids(batch, |batch|);
    ExpiredPendingBatch(s, now, limit);
    IdsCount(batch, |batch|);
    BatchIsFirst(s, now, limit);
    assert batch[..|batch|] == batch;
    forall i <- expired, j <- s.intents | i in s.intents && ExpiryDue(s, j, now) && j !in expired
      ensures ExpiresFirst(s, i, j) && |expired| == limit
    {
      LeftOut(s, now, limit, i, j);
      ExpiryOrder(s, i, j);
    }
    ExpiredCount(s, now, limit, expired);
  }

  lemma ExpiryOrder(s: Store, i: IntentId, j: IntentId)
    requires i in s.intents && j in s.intents
    ensures R.Before(ExpiryKey(i, s.intents[i]), ExpiryKey(j, s.intents[j])) <==> ExpiresFirst(s, i, j)
  {
  }

  lemma ExpiredCount(s: Store, now: int, limit: nat, expired: set<IntentId>)
    requires expired == Ids(ExpiredPending(s, now, limit), |ExpiredPending(s, now, limit)|) && |expired| <= limit
    requires forall i <- expired :: ExpiryDue(s, i, now)
    ensures |expired| == Min(limit, |set i <- s.intents | ExpiryDue(s, i, now)|)
  {
    hide ExpiredPending, ExpiryDue, Ids;
    DueInTable(s, now);
    var due := set i <- s.intents | ExpiryDue(s, i, now);
    assert expired <= due by {
      forall i <- expired ensures i in due {}
    }
    Subsets(expired, due);
    if j :| j in due && j !in expired {
      LeftOutFills(s, now, limit, j);
    } else {
      assert expired == due;
    }
  }

  lemma DueInTable(s: Store, now: int)
    ensures forall i :: ExpiryDue(s, i, now) ==> i in s.intents
  {
  }

  lemma BatchIsFirst(s: Store, now: int, limit: nat)
    ensures ExpiredPending(s, now, limit) == R.First(DueKeys(s, now), limit)
    ensures |ExpiredPending(s, now, limit)| == Min(limit, |DueKeys(s, now)|)
    ensures forall k <- ExpiredPending(s, now, limit) ::
              ExpiryDue(s, k.id, now) && k == ExpiryKey(k.id, s.intents[k.id])
  {
  }

  lemma LeftOut(s: Store, now: int, limit: nat, i: IntentId, j: IntentId)
    requires i in Ids(ExpiredPending(s, now, limit), |ExpiredPending(s, now, limit)|)
    requires ExpiryDue(s, j, now) && j !in Ids(ExpiredPending(s, now, limit), |ExpiredPending(s, now, limit)|)
    ensures i in s.intents && R.Before(ExpiryKey(i, s.intents[i]), ExpiryKey(j, s.intents[j]))
    ensures |Ids(ExpiredPending(s, now, limit), |ExpiredPending(s, now, limit)|)| == limit
  {
    hide ExpiredPending;
    var batch := ExpiredPending(s, now, limit);
    BatchIsFirst(s, now, limit);
    ExpiredPendingBatch(s, now, limit);
    IdsCount(batch, |batch|);
    assert batch[..|batch|] == batch;
    var k := ExpiryKey(j, s.intents[j]);
    var chosen := Ids(batch, |batch|);
    assert k in batch ==> k.id in chosen;
    assert k in DueKeys(s, now);
    Q.FirstIsFull(DueKeys(s, now), limit, k);
    var b :| b in batch && b.id == i;
  }

  /** A due intent is left out only by a full batch. */
  lemma LeftOutFills(s: Store, now: int, limit: nat, j: IntentId)
    requires ExpiryDue(s, j, now) && j !in Ids(ExpiredPending(s, now, limit), |ExpiredPending(s, now, limit)|)
    ensures |Ids(ExpiredPending(s, now, limit), |ExpiredPending(s, now, limit)|)| == limit
  {
    hide ExpiredPending;
    FullExpiryBatch(s, now, limit, j);
  }

  /**
   * A cycle commits exactly when the ids drawn suffice for its deliveries and
   * the database takes the commit; the counters say which it was.
   */
  lemma CycleCommitsIff(cfg: Config, w: World, e: Event)
    requires WorldOk(cfg, w) && e.action.ExpireDue?
    ensures
      var batch := ExpiredPending(w.store, Now(w, e), cfg.expiryLimit);
      var v := Next(cfg, w, e);
      && ExpiryBatch(w.store, batch)
      && (CommitsExpiry(cfg, w, e) <==>
            e.action.ending != CommitFails && FreshIds(w.store, e.action.ids, Needed(w.store, batch, |batch|)))
      && (CommitsExpiry(cfg, w, e) && e.action.ending == Marked ==>
            v.expiry.succeeded == w.expiry.succeeded + 1 && v.expiry.failedCycles == w.expiry.failedCycles)
      && (CommitsExpiry(cfg, w, e) && e.action.ending == Killed ==> v.expiry == w.expiry)
      && (!CommitsExpiry(cfg, w, e) ==>
            v.store == w.store && v.expiry == w.expiry.(failedCycles := w.expiry.failedCycles + 1))
  {
    hide WorldOk, ExpireFirst, ExpiredPending, FreshIds, Needed, ExpiryBatch;
    KeyedTables(cfg, w);
    var batch := ExpiredPending(w.store, Now(w, e), cfg.expiryLimit);
    ExpiredPendingBatch(w.store, Now(w, e), cfg.expiryLimit);
    ExpireSucceedsIff(w.store, batch, |batch|, Now(w, e), e.action.dbNow, e.action.ids);
  }

  // ------------------------------------------------------------ no starvation

  /** The pending intents that rank before `i`. */
  ghost function Ahead(s: Store, i: IntentId): set<IntentId>
    requires i in s.intents
  {
    set x <- s.intents | s.intents[x].status == Pending
      && R.Before(ExpiryKey(x, s.intents[x]), ExpiryKey(i, s.intents[i]))
  }

  /** The creation calls in flight whose row, once inserted, may rank before `i`. */
  ghost function InFlight(calls: map<CallId, Call>, expiresAt: int): set<CallId> {
    set c <- calls | calls[c].stage in {Looking, Inserting} && ExpiresAt(calls[c]) <= expiresAt
  }

  /** Everything that can still be expired before `i`. */
  ghost function Queue(w: World, i: IntentId): nat
    requires i in w.store.intents
  {
    |Ahead(w.store, i)| + |InFlight(w.calls, w.store.intents[i].expiresAt)|
  }

  lemma PendingStep(cfg: Config, w: World, e: Event, i: IntentId)
    requires WorldOk(cfg, w) && ExpiryDue(w.store, i, w.clock)
    requires i in Next(cfg, w, e).store.intents && Next(cfg, w, e).store.intents[i].status == Pending
    ensures
      var v := Next(cfg, w, e);
      && ExpiryDue(v.store, i, v.clock)
      && Queue(v, i) + (if CommitsExpiry(cfg, w, e) then cfg.expiryLimit else 0) <= Queue(w, i)
  {
    hide RunExpiryCycle, RunHookCycle, IntentStep, EndpointStep, RetryDelivery, CallStep, TablesOk, CallsOk, NetOk,
         WorldOk, NetEvolves, FansSettled, NoneExpired, QueueExtended, BatchRowsOk, Ahead, InFlight, ExpiredExactly;
    KeyedTables(cfg, w);
    var v := Next(cfg, w, e);
    var now := Now(w, e);
    NextEvolves(cfg, w, e);
    assert IntentEvolves(w.store.intents[i], v.store.intents[i]);
    match e.action {
      case OnCalls(c) => CallQueue(cfg, w, now, c, i);
      case ExpireDue(dbNow, ids, ending) => ExpiryQueue(cfg, w, e, i);
      case OnIntents(a) =>
        IntentTables(cfg, w);
        IntentStepFacts(w.store, now, a, cfg.maxAttempts, w.net.log);
        SettlingQueue(w.store, v.store, i);
      case OnEndpoints(a) => SameIntentsQueue(w.store, v.store, i);
      case OnShops(o) => SameIntentsQueue(w.store, v.store, i);
      case RetryHook(m, d) => RetryIntents(w.store, m, d, now); SameIntentsQueue(w.store, v.store, i);
      case DeliverDue(posts, ending) =>
        HookCycleFacts(cfg, w, now, posts, ending);
        HookCycleKeepsIntents(cfg, w, now,
                              RunHookCycle(w.store, w.net, w.hooks, now, cfg.hookLimit, cfg.maxAttempts, cfg.shops,
                                           posts, ending), ending);
        SameIntentsQueue(w.store, v.store, i);
    }
  }

  lemma RetryIntents(s: Store, m: MerchantId, d: DeliveryId, now: int)
    requires Keyed(s)
    ensures d in s.deliveries ==> RetryDelivery(s, d, now).0.intents == s.intents
  {
  }

  lemma SameIntentsQueue(s: Store, t: Store, i: IntentId)
    requires i in s.intents && (t.intents == s.intents || (exists a :: t == EndpointStep(s, a)))
    ensures i in t.intents && Ahead(t, i) == Ahead(s, i)
  {
    assert t.intents == s.intents;
  }

  /** Settling intents takes them out of the queue. */
  lemma SettlingQueue(s: Store, t: Store, i: IntentId)
    requires i in s.intents && Evolves(s, t) && t.intents.Keys == s.intents.Keys
    ensures Ahead(t, i) <= Ahead(s, i) && |Ahead(t, i)| <= |Ahead(s, i)|
  {
    assert IntentEvolves(s.intents[i], t.intents[i]);
    forall x <- Ahead(t, i) ensures x in Ahead(s, i) {
      assert IntentEvolves(s.intents[x], t.intents[x]);
    }
    Subsets(Ahead(t, i), Ahead(s, i));
  }

  lemma ExpiryQueue(cfg: Config, w: World, e: Event, i: IntentId)
    requires WorldOk(cfg, w) && e.action.ExpireDue? && ExpiryDue(w.store, i, w.clock)
    requires i in ExpiryOf(cfg, w, e).store.intents && ExpiryOf(cfg, w, e).store.intents[i].status == Pending
    ensures |Ahead(ExpiryOf(cfg, w, e).store, i)| + (if CommitsExpiry(cfg, w, e) then cfg.expiryLimit else 0)
         <= |Ahead(w.store, i)|
  {
    hide RunExpiryCycle, TablesOk, CallsOk, NetOk, WorldOk, Evolves, QueueExtended, FansSettled, ExpiredPending,
         Ahead, ExpiredRows;
    var now := Now(w, e);
    var c := ExpiryOf(cfg, w, e);
    ExpiryCycleFacts(cfg, w, now, e.action.dbNow, e.action.ids, e.action.ending);
    if c.committed {
      ExpiredLeave(w.store, c.store, now, cfg.expiryLimit, i);
    }
  }

  lemma ExpiredLeave(s: Store, t: Store, now: int, limit: nat, i: IntentId)
    requires ExpiryDue(s, i, now)
    requires ExpiredExactly(s, t, ExpiredPending(s, now, limit), |ExpiredPending(s, now, limit)|)
    requires i in t.intents && t.intents[i].status == Pending
    ensures |Ahead(t, i)| + limit <= |Ahead(s, i)|
  {
    hide ExpiredPending;
    var batch := ExpiredPending(s, now, limit);
    var ids := Ids(batch, |batch|);
    FullExpiryBatch(s, now, limit, i);
    forall x <- ids ensures x in Ahead(s, i) {
      LeftOut(s, now, limit, x, i);
      BatchIsFirst(s, now, limit);
    }
    forall x <- Ahead(t, i) ensures x in Ahead(s, i) {
    }
    Q.Disjoint(Ahead(t, i), ids, Ahead(s, i));
  }

  lemma FullExpiryBatch(s: Store, now: int, limit: nat, i: IntentId)
    requires ExpiryDue(s, i, now)
    requires i !in Ids(ExpiredPending(s, now, limit), |ExpiredPending(s, now, limit)|)
    ensures |Ids(ExpiredPending(s, now, limit), |ExpiredPending(s, now, limit)|)| == limit
    ensures forall x <- Ids(ExpiredPending(s, now, limit), |ExpiredPending(s, now, limit)|) ::
              x in s.intents && s.intents[x].status == Pending
  {
    hide ExpiredPending;
    var batch := ExpiredPending(s, now, limit);
    BatchIsFirst(s, now, limit);
    ExpiredPendingBatch(s, now, limit);
    IdsCount(batch, |batch|);
    assert batch[..|batch|] == batch;
    var k := ExpiryKey(i, s.intents[i]);
    var chosen := Ids(batch, |batch|);
    assert k in batch ==> k.id in chosen;
    assert k in DueKeys(s, now);
    Q.FirstIsFull(DueKeys(s, now), limit, k);
  }

  /** A call in flight becomes at most one row; a new call asks for at least a minute. */
  lemma CallQueue(cfg: Config, w: World, now: int, a: CallAction, i: IntentId)
    requires WorldOk(cfg, w) && ExpiryDue(w.store, i, w.clock) && w.clock < now
    ensures
      var v := CallStep(w, now, a);
      && i in v.store.intents && v.store.intents[i] == w.store.intents[i]
      && |Ahead(v.store, i)| + |InFlight(v.calls, v.store.intents[i].expiresAt)| <= Queue(w, i)
  {
    hide TablesOk, CallsOk, NetOk, WorldOk, Lookup, Insert, Ahead, InFlight;
    var at := w.store.intents[i].expiresAt;
    var v := CallStep(w, now, a);
    match a {
      case BeginCreate(c, m, key, r) =>
        if c !in w.calls && Accepted(r) { NewCallIsBehind(w.calls, c, m, key, r, now, at); }
      case FirstLookup(c) =>
        if CallAt(w, c, true, false, false) { StageQueue(w.calls, c, Lookup(w.store, w.calls[c], Inserting), at); }
      case SecondLookup(c) =>
        if CallAt(w, c, false, false, true) {
          LookupEnds(w.store, w.calls[c]);
          StageQueue(w.calls, c, Lookup(w.store, w.calls[c], Raised), at);
        }
      case InsertRow(c, id, reference, dbNow) =>
        if CallAt(w, c, false, true, false) { InsertQueue(w, c, id, reference, dbNow, i); }
    }
  }

  lemma LookupEnds(s: Store, c: Call)
    requires Accepted(c.request) && c.key.Some?
    ensures Lookup(s, c, Raised) !in {Looking, Inserting}
  {
  }

  lemma NewCallIsBehind(calls: map<CallId, Call>, c: CallId, m: MerchantId, key: Option<string>, r: Request, now: int,
                        at: int)
    requires c !in calls && Accepted(r) && at < now
    ensures InFlight(calls[c := Begin(m, key, r, now)], at) == InFlight(calls, at)
  {
    var after := calls[c := Begin(m, key, r, now)];
    assert ExpiresAt(after[c]) > at;
    forall d ensures d in InFlight(after, at) <==> d in InFlight(calls, at) {
    }
    assert InFlight(after, at) == InFlight(calls, at);
  }

  lemma StageQueue(calls: map<CallId, Call>, c: CallId, stage: Stage, at: int)
    requires c in calls
    requires stage in {Looking, Inserting} ==> calls[c].stage in {Looking, Inserting}
    ensures |InFlight(calls[c := calls[c].(stage := stage)], at)| <= |InFlight(calls, at)|
    ensures stage !in {Looking, Inserting} && c in InFlight(calls, at) ==>
              |InFlight(calls[c := calls[c].(stage := stage)], at)| <= |InFlight(calls, at)| - 1
  {
    var after := InFlight(calls[c := calls[c].(stage := stage)], at);
    forall d <- after ensures d in InFlight(calls, at) {
    }
    Subsets(after, InFlight(calls, at));
    if stage !in {Looking, Inserting} && c in InFlight(calls, at) {
      Subsets(after, InFlight(calls, at) - {c});
    }
  }

  lemma InsertQueue(w: World, c: CallId, id: IntentId, reference: string, dbNow: int, i: IntentId)
    requires CallAt(w, c, false, true, false) && i in w.store.intents
    ensures
      var (t, stage) := Insert(w.store, w.calls[c], id, reference, dbNow);
      && i in t.intents && t.intents[i] == w.store.intents[i]
      && |Ahead(t, i)| + |InFlight(w.calls[c := w.calls[c].(stage := stage)], t.intents[i].expiresAt)| <= Queue(w, i)
  {
    hide CanonicalText, KeyTaken, Ahead, InFlight;
    var (t, stage) := Insert(w.store, w.calls[c], id, reference, dbNow);
    var at := w.store.intents[i].expiresAt;
    StageQueue(w.calls, c, stage, at);
    InsertAhead(w.store, w.calls[c], id, reference, dbNow, i);
    MayRankBefore(w.calls, c, at);
  }

  lemma MayRankBefore(calls: map<CallId, Call>, c: CallId, at: int)
    requires c in calls && calls[c].stage == Inserting
    ensures ExpiresAt(calls[c]) <= at ==> c in InFlight(calls, at)
  {
  }

  lemma InsertAhead(s: Store, c: Call, id: IntentId, reference: string, dbNow: int, i: IntentId)
    requires Accepted(c.request) && i in s.intents
    ensures
      var t := Insert(s, c, id, reference, dbNow).0;
      && i in t.intents && t.intents[i] == s.intents[i]
      && |Ahead(t, i)| <= |Ahead(s, i)| + (if t != s && ExpiresAt(c) <= s.intents[i].expiresAt then 1 else 0)
  {
    hide CanonicalText, KeyTaken;
    var t := Insert(s, c, id, reference, dbNow).0;
    if t != s {
      if ExpiresAt(c) <= s.intents[i].expiresAt {
        Subsets(Ahead(t, i), Ahead(s, i) + {id});
      } else {
        Subsets(Ahead(t, i), Ahead(s, i));
      }
    }
  }

  // ------------------------------------------------------------------- runs

  ghost function CommittedExpiries(cfg: Config, w: World, events: seq<Event>): nat
    requires WorldOk(cfg, w)
  {
    if events == [] then 0 else
      var init, e := events[..|events| - 1], events[|events| - 1];
      CommittedExpiries(cfg, w, init) + if CommitsExpiry(cfg, Exec(cfg, w, init), e) then 1 else 0
  }

  lemma {:induction false} PendingRun(cfg: Config, w: World, events: seq<Event>, i: IntentId)
    requires WorldOk(cfg, w) && ExpiryDue(w.store, i, w.clock)
    requires i in Exec(cfg, w, events).store.intents && Exec(cfg, w, events).store.intents[i].status == Pending
    ensures
      var v := Exec(cfg, w, events);
      && ExpiryDue(v.store, i, v.clock)
      && Queue(v, i) + cfg.expiryLimit * CommittedExpiries(cfg, w, events) <= Queue(w, i)
    decreases |events|
  {
    hide WorldOk, Next, CommitsExpiry, Queue, NetEvolves;
    if events != [] {
      var init, e := events[..|events| - 1], events[|events| - 1];
      var u := Exec(cfg, w, init);
      ExecEvolves(cfg, w, init);
      NextEvolves(cfg, u, e);
      assert IntentEvolves(w.store.intents[i], u.store.intents[i]);
      assert IntentEvolves(u.store.intents[i], Exec(cfg, w, events).store.intents[i]);
      PendingRun(cfg, w, init, i);
      PendingStep(cfg, u, e, i);
      Q.Multiply(cfg.expiryLimit, CommittedExpiries(cfg, w, init));
    } else {
      Q.Multiply(cfg.expiryLimit, 0);
    }
  }

  /**
   * A due intent leaves pending by the time r / limit + 1 expirer cycles have
   * committed, where r counts the pending intents ahead of it and the creation
   * calls still in flight that may come ahead of it.  Calls begun later cannot.
   */
  lemma DueIntentLeavesPending(cfg: Config, w: World, events: seq<Event>, i: IntentId)
    requires WorldOk(cfg, w) && ExpiryDue(w.store, i, w.clock)
    requires cfg.expiryLimit >= 1 && CommittedExpiries(cfg, w, events) >= Queue(w, i) / cfg.expiryLimit + 1
    ensures i in Exec(cfg, w, events).store.intents && IsTerminal(Exec(cfg, w, events).store.intents[i].status)
  {
    hide WorldOk, Next, CommitsExpiry, Queue, CommittedExpiries, NetEvolves;
    ExecEvolves(cfg, w, events);
    var row := Exec(cfg, w, events).store.intents[i];
    assert row.status != Pending by {
      if row.status == Pending {
        PendingRun(cfg, w, events, i);
        Q.QuotientBound(Queue(w, i), cfg.expiryLimit, CommittedExpiries(cfg, w, events));
      }
    }
  }

  /** With no such call in flight the plain bound holds: only the pending intents ahead count. */
  lemma PlainBoundWithNothingInFlight(cfg: Config, w: World, events: seq<Event>, i: IntentId)
    requires WorldOk(cfg, w) && ExpiryDue(w.store, i, w.clock)
    requires InFlight(w.calls, w.store.intents[i].expiresAt) == {}
    requires cfg.expiryLimit >= 1 && CommittedExpiries(cfg, w, events) >= |Ahead(w.store, i)| / cfg.expiryLimit + 1
    ensures i in Exec(cfg, w, events).store.intents && IsTerminal(Exec(cfg, w, events).store.intents[i].status)
  {
    hide WorldOk, CommitsExpiry, CommittedExpiries, Ahead, InFlight;
    DueIntentLeavesPending(cfg, w, events, i);
  }
}
