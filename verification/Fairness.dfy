/** Nobody waits for ever: the delivery queue and the expirer, on every run. */
module Fairness {
  import opened Common
  import opened Store
  import opened PaymentIntents
  import opened WebhookDelivery
  import opened DeliveryFacts
  import opened IntentFacts
  import opened Workers
  import opened Creation
  import opened World
  import R = Ranking
  import X = XrplPayments

  // --------------------------------------------------------- delivery queue

  /** A delivery whose time has come. */
  ghost predicate DueAt(s: Store, d: DeliveryId, clock: int) {
    && d in s.deliveries && Open(s.deliveries[d])
    && s.deliveries[d].nextAttemptAt.Some? && s.deliveries[d].nextAttemptAt.value <= clock
  }

  function KeyIn(s: Store, d: DeliveryId): R.Key
    requires d in s.deliveries
  {
    DeliveryKey(d, s.deliveries[d])
  }

  /** The open deliveries that rank before `d`. */
  ghost function AheadOf(s: Store, d: DeliveryId): set<DeliveryId>
    requires d in s.deliveries
  {
    set x <- s.deliveries | Open(s.deliveries[x]) && R.Before(KeyIn(s, x), KeyIn(s, d))
  }

  ghost function CycleOf(cfg: Config, w: World, e: Event): HookCycle
    requires WorldOk(cfg, w) && e.action.DeliverDue?
  {
    KeyedTables(cfg, w);
    RunHookCycle(w.store, w.net, w.hooks, Now(w, e), cfg.hookLimit, cfg.maxAttempts, cfg.shops, e.action.posts,
                 e.action.ending)
  }

  ghost function BatchOf(cfg: Config, w: World, e: Event): set<DeliveryId> {
    var batch := DueBatch(w.store, Now(w, e), cfg.hookLimit);
    Ids(batch, |batch|)
  }

  /** A committed cycle of the webhook worker. */
  ghost predicate Commits(cfg: Config, w: World, e: Event)
    requires WorldOk(cfg, w)
  {
    e.action.DeliverDue? && CycleOf(cfg, w, e).committed
  }

  /** A committed cycle that handles `d`. */
  ghost predicate Serves(cfg: Config, w: World, e: Event, d: DeliveryId)
    requires WorldOk(cfg, w)
  {
    Commits(cfg, w, e) && d in BatchOf(cfg, w, e)
  }

  predicate Retries(e: Event, d: DeliveryId) {
    e.action.RetryHook? && e.action.delivery == d
  }

  /** The place of a row in the queue. */
  predicate SameSlot(a: Delivery, b: Delivery) {
    a.status == b.status && a.nextAttemptAt == b.nextAttemptAt && a.createdAt == b.createdAt
  }

  /** Every row keeps its place, is closed, or enters the queue at `now` or later. */
  ghost predicate Requeues(s: Store, t: Store, now: int) {
    && (forall x <- s.deliveries :: x in t.deliveries)
    && (forall x <- t.deliveries ::
          || (x in s.deliveries && SameSlot(s.deliveries[x], t.deliveries[x]))
          || !Open(t.deliveries[x])
          || (t.deliveries[x].nextAttemptAt.Some? && t.deliveries[x].nextAttemptAt.value >= now))
  }

  /** The rows that lose their place in an event. */
  ghost function Moved(cfg: Config, w: World, e: Event): set<DeliveryId>
    requires WorldOk(cfg, w)
  {
    if Commits(cfg, w, e) then BatchOf(cfg, w, e)
    else if e.action.RetryHook? then {e.action.delivery}
    else {}
  }

  ghost predicate StepMoves(s: Store, t: Store, moved: set<DeliveryId>, now: int) {
    && Requeues(s, t, now)
    && (forall x <- s.deliveries :: x !in moved ==> SameSlot(s.deliveries[x], t.deliveries[x]))
  }

  lemma EventMoves(cfg: Config, w: World, e: Event)
    requires WorldOk(cfg, w)
    ensures StepMoves(w.store, Next(cfg, w, e).store, Moved(cfg, w, e), Now(w, e))
    ensures Commits(cfg, w, e) ==>
              forall x <- BatchOf(cfg, w, e) ::
                x in w.store.deliveries && Deferred(Next(cfg, w, e).store.deliveries[x], Now(w, e))
  {
    hide RunExpiryCycle, RunHookCycle, IntentStep, EndpointStep, RetryDelivery, CallStep, TablesOk, Evolves, CallsOk,
         NetOk, WorldOk, NetEvolves, FansSettled, NoneExpired, DueBatch, StepMoves, ExpiredExactly;
    KeyedTables(cfg, w);
    var now := Now(w, e);
    var v := Act(cfg, w, now, e.action);
    match e.action {
      case OnEndpoints(a) => EndpointSlots(w.store, a, now);
      case OnCalls(c) => CallSlots(cfg, w, now, c);
      case OnIntents(i) =>
        IntentTables(cfg, w);
        IntentStepFacts(w.store, now, i, cfg.maxAttempts, w.net.log);
        QueuedSlots(w.store, v.store, now);
      case OnShops(o) => SameSlots(w.store, now);
      case ExpireDue(dbNow, ids, ending) =>
        ExpiryCycleFacts(cfg, w, now, dbNow, ids, ending);
        QueuedSlots(w.store, v.store, now);
      case DeliverDue(posts, ending) =>
        HookCycleFacts(cfg, w, now, posts, ending);
        var c := CycleOf(cfg, w, e);
        if c.committed { BatchSlots(cfg, w, now, c, ending); } else { SameSlots(w.store, now); }
      case RetryHook(m, d) =>
        SameSlots(w.store, now);
        if d in w.store.deliveries { RetrySlots(w.store, d, now); }
    }
  }

  lemma SameSlots(s: Store, now: int)
    ensures forall moved :: StepMoves(s, s, moved, now)
  {
  }

  lemma EndpointSlots(s: Store, a: EndpointAction, now: int)
    ensures StepMoves(s, EndpointStep(s, a), {}, now)
  {
  }

  lemma QueuedSlots(s: Store, t: Store, now: int)
    requires QueueExtended(s, t, now)
    ensures StepMoves(s, t, {}, now)
  {
  }

  lemma CallSlots(cfg: Config, w: World, now: int, a: CallAction)
    requires WorldOk(cfg, w)
    ensures StepMoves(w.store, CallStep(w, now, a).store, {}, now)
  {
    hide CallStep, CallsOk, NetOk, TablesOk, WorldOk;
    CallStepFacts(cfg, w, now, a);
  }

  lemma RetrySlots(s: Store, d: DeliveryId, now: int)
    requires Keyed(s) && d in s.deliveries
    ensures StepMoves(s, RetryDelivery(s, d, now).0, {d}, now)
  {
  }

  lemma BatchSlots(cfg: Config, w: World, now: int, c: HookCycle, ending: Ending)
    requires Keyed(w.store) && HookCycleOk(cfg, w, now, c, ending) && c.committed
    ensures
      var batch := DueBatch(w.store, now, cfg.hookLimit);
      var ids := Ids(batch, |batch|);
      && StepMoves(w.store, c.store, ids, now)
      && (forall x <- ids :: x in w.store.deliveries && Deferred(c.store.deliveries[x], now))
  {
    hide ScheduleOk, ReceiptOk, Evolves, NetEvolves, DeliveredRows, Handled, Deferred;
    var batch := DueBatch(w.store, now, cfg.hookLimit);
    var ids := Ids(batch, |batch|);
    forall x <- ids ensures x in w.store.deliveries {
    }
    forall x <- w.store.deliveries
      ensures x in c.store.deliveries
      ensures x in ids ==> Deferred(c.store.deliveries[x], now)
      ensures x !in ids ==> SameSlot(w.store.deliveries[x], c.store.deliveries[x])
    {
      assert RowAfter(w.store, c.store, x, x in ids, now, cfg.maxAttempts, c.net.log);
      if x in ids { HandledIsDeferred(w.store.deliveries[x], c.store.deliveries[x], now, cfg.maxAttempts); }
    }
    DeferredRequeues(w.store, c.store, ids, now);
  }

  lemma DeferredRequeues(s: Store, t: Store, ids: set<DeliveryId>, now: int)
    requires t.deliveries.Keys == s.deliveries.Keys
    requires forall x <- s.deliveries :: x in ids ==> Deferred(t.deliveries[x], now)
    requires forall x <- s.deliveries :: x !in ids ==> SameSlot(s.deliveries[x], t.deliveries[x])
    ensures StepMoves(s, t, ids, now)
  {
  }

  /** What overtakes a due delivery is already ahead of it. */
  lemma NobodyOvertakes(s: Store, t: Store, moved: set<DeliveryId>, d: DeliveryId, clock: int, now: int)
    requires DueAt(s, d, clock) && clock < now && d !in moved && StepMoves(s, t, moved, now)
    ensures DueAt(t, d, now) && AheadOf(t, d) <= AheadOf(s, d)
    ensures forall x <- moved :: x in t.deliveries && Deferred(t.deliveries[x], now) ==> x !in AheadOf(t, d)
  {
    forall x <- AheadOf(t, d) ensures x in AheadOf(s, d) {
    }
  }

  /** A committed cycle that leaves a due delivery out is full, and full of deliveries ahead of it. */
  lemma FullBatch(s: Store, d: DeliveryId, clock: int, now: int, limit: nat)
    requires s.trail.Keys == s.deliveries.Keys && DueAt(s, d, clock) && clock <= now
    requires d !in Ids(DueBatch(s, now, limit), |DueBatch(s, now, limit)|)
    ensures |Ids(DueBatch(s, now, limit), |DueBatch(s, now, limit)|)| == limit
    ensures Ids(DueBatch(s, now, limit), |DueBatch(s, now, limit)|) <= AheadOf(s, d)
  {
    hide DueBatch;
    var batch := DueBatch(s, now, limit);
    DueBatchRows(s, now, limit);
    IdsCount(batch, |batch|);
    var k := KeyIn(s, d);
    assert k in DueDeliveryKeys(s, now);
    BatchIsFirst(s, now, limit);
    assert batch[..|batch|] == batch;
    var chosen := Ids(batch, |batch|);
    assert k in batch ==> k.id in chosen;
    FirstIsFull(DueDeliveryKeys(s, now), limit, k);
    forall x <- Ids(batch, |batch|) ensures x in AheadOf(s, d) {
      var b :| b in batch[..|batch|] && b.id == x;
      assert b in batch;
    }
  }

  lemma BatchIsFirst(s: Store, now: int, limit: nat)
    ensures DueBatch(s, now, limit) == R.First(DueDeliveryKeys(s, now), limit)
    ensures forall k :: k in DueBatch(s, now, limit) ==>
              k.id in s.deliveries && k == KeyIn(s, k.id) && Open(s.deliveries[k.id])
  {
  }

  lemma FirstIsFull(ks: set<R.Key>, n: nat, k: R.Key)
    requires k in ks && k !in R.First(ks, n)
    ensures |R.First(ks, n)| == n
    ensures forall x :: x in R.First(ks, n) ==> R.Before(x, k)
  {
    var s := R.Sorted(ks);
    assert k in s;
  }

  // ------------------------------------------------------------------- runs

  /** How many of the events are committed cycles of the webhook worker. */
  ghost function CommittedCycles(cfg: Config, w: World, events: seq<Event>): nat
    requires WorldOk(cfg, w)
  {
    if events == [] then 0 else
      var init, e := events[..|events| - 1], events[|events| - 1];
      CommittedCycles(cfg, w, init) + if Commits(cfg, Exec(cfg, w, init), e) then 1 else 0
  }

  ghost predicate NeverServed(cfg: Config, w: World, events: seq<Event>, d: DeliveryId)
    requires WorldOk(cfg, w)
  {
    forall k :: 0 <= k < |events| ==> !Serves(cfg, Exec(cfg, w, events[..k]), events[k], d)
  }

  /** One event that neither serves nor retries `d`. */
  lemma WaitingStep(cfg: Config, w: World, e: Event, d: DeliveryId)
    requires WorldOk(cfg, w) && DueAt(w.store, d, w.clock)
    requires !Serves(cfg, w, e, d) && !Retries(e, d)
    ensures
      var v := Next(cfg, w, e);
      && DueAt(v.store, d, v.clock)
      && |AheadOf(v.store, d)| + (if Commits(cfg, w, e) then cfg.hookLimit else 0) <= |AheadOf(w.store, d)|
  {
    hide WorldOk, Next, CycleOf, AheadOf, DueBatch, Ids, StepMoves;
    var v := Next(cfg, w, e);
    EventMoves(cfg, w, e);
    NobodyOvertakes(w.store, v.store, Moved(cfg, w, e), d, w.clock, Now(w, e));
    if Commits(cfg, w, e) {
      KeyedTables(cfg, w);
      FullBatch(w.store, d, w.clock, Now(w, e), cfg.hookLimit);
      var ids := BatchOf(cfg, w, e);
      forall x <- ids ensures x !in AheadOf(v.store, d) {
        AheadExists(w.store, v.store, d, x);
      }
      Disjoint(AheadOf(v.store, d), ids, AheadOf(w.store, d));
    } else {
      Subsets(AheadOf(v.store, d), AheadOf(w.store, d));
    }
  }

  lemma AheadExists(s: Store, t: Store, d: DeliveryId, x: DeliveryId)
    requires d in s.deliveries && d in t.deliveries
    ensures x in AheadOf(t, d) ==> x in t.deliveries
  {
  }

  lemma Disjoint<T>(a: set<T>, b: set<T>, c: set<T>)
    requires a <= c && b <= c && forall x <- b :: x !in a
    ensures |a| + |b| <= |c|
  {
    assert |a + b| == |a| + |b| by { assert a !! b; }
    Subsets(a + b, c);
  }

  lemma {:induction false} WaitingRun(cfg: Config, w: World, events: seq<Event>, d: DeliveryId)
    requires WorldOk(cfg, w) && DueAt(w.store, d, w.clock)
    requires NeverServed(cfg, w, events, d) && forall e <- events :: !Retries(e, d)
    ensures
      var v := Exec(cfg, w, events);
      && DueAt(v.store, d, v.clock)
      && |AheadOf(v.store, d)| + cfg.hookLimit * CommittedCycles(cfg, w, events) <= |AheadOf(w.store, d)|
    decreases |events|
  {
    hide WorldOk, Next, Commits, Serves, AheadOf, DueAt;
    if events != [] {
      var init, e := events[..|events| - 1], events[|events| - 1];
      forall k | 0 <= k < |init| ensures !Serves(cfg, Exec(cfg, w, init[..k]), init[k], d) {
        assert init[..k] == events[..k];
      }
      WaitingRun(cfg, w, init, d);
      WaitingStep(cfg, Exec(cfg, w, init), e, d);
      Multiply(cfg.hookLimit, CommittedCycles(cfg, w, init));
    } else {
      Multiply(cfg.hookLimit, 0);
    }
  }

  lemma Multiply(a: nat, b: nat)
    ensures a * (b + 1) == a * b + a && a * 0 == 0
  {
  }

  /**
   * A due delivery with r deliveries ahead is handled by the time r / limit + 1
   * cycles have committed, whatever else happens, unless it is itself retried.
   */
  lemma DueDeliveryIsServed(cfg: Config, w: World, events: seq<Event>, d: DeliveryId) returns (k: nat)
    requires WorldOk(cfg, w) && DueAt(w.store, d, w.clock)
    requires CommittedCycles(cfg, w, events) >= |AheadOf(w.store, d)| / cfg.hookLimit + 1
    ensures k < |events| && (Serves(cfg, Exec(cfg, w, events[..k]), events[k], d) || Retries(events[k], d))
  {
    hide WorldOk, Next, AheadOf, Serves, CommittedCycles;
    SoundWorld(cfg, w);
    if e :| e in events && Retries(e, d) {
      k :| 0 <= k < |events| && events[k] == e;
    } else {
      assert !NeverServed(cfg, w, events, d) by {
        if NeverServed(cfg, w, events, d) { UnservedBound(cfg, w, events, d); }
      }
      k :| 0 <= k < |events| && Serves(cfg, Exec(cfg, w, events[..k]), events[k], d);
    }
  }

  lemma SoundWorld(cfg: Config, w: World)
    requires WorldOk(cfg, w)
    ensures Sound(cfg)
  {
  }

  lemma QuotientBound(r: nat, limit: nat, n: nat)
    requires limit >= 1
    ensures limit * n <= r ==> n <= r / limit
  {
    var q := r / limit;
    assert r < limit * q + limit;
    if n > q {
      assert limit * n == limit * (q + 1) + limit * (n - q - 1);
      Multiply(limit, q);
      Multiply(limit, n - q - 1);
    }
  }

  lemma UnservedBound(cfg: Config, w: World, events: seq<Event>, d: DeliveryId)
    requires WorldOk(cfg, w) && DueAt(w.store, d, w.clock)
    requires NeverServed(cfg, w, events, d) && forall e <- events :: !Retries(e, d)
    ensures cfg.hookLimit >= 1 && CommittedCycles(cfg, w, events) <= |AheadOf(w.store, d)| / cfg.hookLimit
  {
    hide WorldOk, Next, AheadOf, Serves, CommittedCycles, NeverServed;
    SoundWorld(cfg, w);
    WaitingRun(cfg, w, events, d);
    QuotientBound(|AheadOf(w.store, d)|, cfg.hookLimit, CommittedCycles(cfg, w, events));
  }

  // --------------------------------------------------------- when it commits

  /** A row whose turn comes sends a POST, and that POST raises an unhandled exception. */
  ghost predicate Poisoned(s: Store, batch: seq<R.Key>, posts: seq<Post>, j: nat) {
    && j < |batch| && batch[j].id in s.deliveries
    && Sends(Target(s, s.deliveries[batch[j].id]))
    && PostAt(posts, j) == OtherException
  }

  /**
   * The documentation promises retries whatever a receiver does; the code
   * keeps that promise exactly when no POST of the batch raises an exception
   * other than the three it catches: then, and only then, a cycle commits,
   * provided that the database takes the commit.
   */
  lemma CommitsIffNotPoisoned(cfg: Config, w: World, e: Event)
    requires WorldOk(cfg, w) && e.action.DeliverDue?
    ensures Commits(cfg, w, e)
       <==> e.action.ending != CommitFails && forall j ::
         !Poisoned(w.store, DueBatch(w.store, Now(w, e), cfg.hookLimit), e.action.posts, j)
  {
    hide NetOk, CallsOk, TablesOk, DeliverFirst, Poisoned, DueBatch;
    KeyedTables(cfg, w);
    var now := Now(w, e);
    var batch := DueBatch(w.store, now, cfg.hookLimit);
    HookReady(cfg, w, now);
    PrefixOkIff(w.store, w.net, batch, |batch|, now, cfg.maxAttempts, cfg.shops, e.action.posts);
    forall j | j >= |batch| ensures !Poisoned(w.store, batch, e.action.posts, j) {
      PoisonedInRange(w.store, batch, e.action.posts, j);
    }
  }

  lemma PoisonedInRange(s: Store, batch: seq<R.Key>, posts: seq<Post>, j: nat)
    ensures Poisoned(s, batch, posts, j) ==> j < |batch|
  {
  }

  lemma {:induction false} PrefixOkIff(s: Store, net: Net, batch: seq<R.Key>, n: nat, now: int, maxAttempts: nat,
                                       shops: set<Url>, posts: seq<Post>)
    requires n <= |batch| && ReadyFor(s, net, batch, now, maxAttempts, shops)
    ensures DeliverFirst(Batch(s, net, 0, 0, 0), batch, n, now, maxAttempts, shops, posts).ok
       <==> forall j :: 0 <= j < n ==> !Poisoned(s, batch, posts, j)
  {
    hide DeliverNext, ReadyFor, Poisoned, PostAt;
    if n > 0 {
      PrefixOkIff(s, net, batch, n - 1, now, maxAttempts, shops, posts);
      PrefixStep(s, net, batch, n, now, maxAttempts, shops, posts);
    }
  }

  lemma PrefixStep(s: Store, net: Net, batch: seq<R.Key>, n: nat, now: int, maxAttempts: nat, shops: set<Url>,
                   posts: seq<Post>)
    requires 0 < n <= |batch| && ReadyFor(s, net, batch, now, maxAttempts, shops)
    ensures DeliverFirst(Batch(s, net, 0, 0, 0), batch, n, now, maxAttempts, shops, posts).ok
       <==> && DeliverFirst(Batch(s, net, 0, 0, 0), batch, n - 1, now, maxAttempts, shops, posts).ok
            && !Poisoned(s, batch, posts, n - 1)
  {
    hide DeliverNext, NetOk, SchedulesOk, ReceiptsOk, FaithfulTo, Poisoned, BatchOk, PostAt;
    var t := DeliverFirst(Batch(s, net, 0, 0, 0), batch, n - 1, now, maxAttempts, shops, posts);
    if t.ok {
      var d := batch[n - 1].id;
      assert batch[n - 1] in batch;
      DeliverFirstFacts(s, net, batch, n - 1, now, maxAttempts, shops, posts);
      FreshInBatch(s, net, batch, n, now, maxAttempts, shops);
      UntouchedRow(s, net, t, batch, n, now, maxAttempts, shops);
      NextOkIff(s, t.batch, batch, n - 1, now, maxAttempts, shops, posts);
    }
  }

  lemma UntouchedRow(s: Store, net: Net, t: Turn, batch: seq<R.Key>, n: nat, now: int, maxAttempts: nat,
                     shops: set<Url>)
    requires 0 < n <= |batch| && Keyed(s) && batch[n - 1].id in s.deliveries && batch[n - 1].id !in Ids(batch, n - 1)
    requires BatchOk(s, net, t, batch, n - 1, now, maxAttempts, shops) && t.ok
    ensures batch[n - 1].id in t.batch.store.deliveries && batch[n - 1].id in t.batch.store.trail
    ensures t.batch.store.deliveries[batch[n - 1].id] == s.deliveries[batch[n - 1].id]
    ensures t.batch.store.endpoints == s.endpoints
  {
    assert RowAfter(s, t.batch.store, batch[n - 1].id, false, now, maxAttempts, t.batch.net.log);
  }

  lemma NextOkIff(s: Store, b: Batch, batch: seq<R.Key>, j: nat, now: int, maxAttempts: nat, shops: set<Url>,
                  posts: seq<Post>)
    requires j < |batch| && batch[j].id in s.deliveries
    requires batch[j].id in b.store.deliveries && batch[j].id in b.store.trail
    requires b.store.deliveries[batch[j].id] == s.deliveries[batch[j].id] && b.store.endpoints == s.endpoints
    ensures DeliverNext(b, batch[j].id, now, maxAttempts, shops, PostAt(posts, j)).ok <==> !Poisoned(s, batch, posts, j)
  {
  }

  /** The head of the queue: nothing ranks before it. */
  ghost predicate Head(s: Store, d: DeliveryId, clock: int) {
    DueAt(s, d, clock) && AheadOf(s, d) == {} && Sends(Target(s, s.deliveries[d]))
  }

  /** The event leaves delivery `d` and endpoint `p` to the worker. */
  predicate Spares(e: Event, d: DeliveryId, p: EndpointId) {
    && !Retries(e, d)
    && (e.action.OnEndpoints? ==> e.action.endpointAction.AddEndpoint? || e.action.endpointAction.endpoint != p)
  }

  /** If the event is a cycle of the webhook worker, its first POST raises such an exception. */
  predicate RaisesFirst(e: Event) {
    e.action.DeliverDue? ==> PostAt(e.action.posts, 0) == OtherException
  }

  /** The head of the queue, made for endpoint `p`. */
  ghost predicate HeadFor(w: World, d: DeliveryId, p: EndpointId) {
    Head(w.store, d, w.clock) && w.store.deliveries[d].endpoint == Some(p)
  }

  /**
   * One receiver that always raises such an exception stops every delivery:
   * whatever the other processes do meanwhile, no cycle commits, and its
   * delivery stays at the head of the queue.
   */
  lemma {:induction false} PoisonedHeadStallsTheQueue(cfg: Config, w: World, events: seq<Event>, d: DeliveryId,
                                                      p: EndpointId)
    requires WorldOk(cfg, w) && HeadFor(w, d, p)
    requires forall e <- events :: Spares(e, d, p) && RaisesFirst(e)
    ensures CommittedCycles(cfg, w, events) == 0 && HeadFor(Exec(cfg, w, events), d, p)
    decreases |events|
  {
    hide WorldOk, Next, HeadFor, Commits, Spares, RaisesFirst;
    if events != [] {
      var init, e := events[..|events| - 1], events[|events| - 1];
      PoisonedHeadStallsTheQueue(cfg, w, init, d, p);
      PoisonedStep(cfg, Exec(cfg, w, init), e, d, p);
    }
  }

  lemma PoisonedStep(cfg: Config, w: World, e: Event, d: DeliveryId, p: EndpointId)
    requires WorldOk(cfg, w) && HeadFor(w, d, p) && Spares(e, d, p) && RaisesFirst(e)
    ensures !Commits(cfg, w, e) && HeadFor(Next(cfg, w, e), d, p)
  {
    hide WorldOk, Next, AheadOf, DueAt, StepMoves, CycleOf, Target, Sends, DueBatch;
    StalledCycle(cfg, w, e, d);
    var v := Next(cfg, w, e);
    EventMoves(cfg, w, e);
    NobodyOvertakes(w.store, v.store, Moved(cfg, w, e), d, w.clock, Now(w, e));
    HeadExists(w.store, d, w.clock);
    TargetStays(cfg, w, e, d, p);
  }

  lemma HeadExists(s: Store, d: DeliveryId, clock: int)
    requires DueAt(s, d, clock)
    ensures d in s.deliveries
  {
  }

  /** A delivery and its endpoint, when spared, stay together and the endpoint stays enabled. */
  lemma TargetStays(cfg: Config, w: World, e: Event, d: DeliveryId, p: EndpointId)
    requires WorldOk(cfg, w) && !Commits(cfg, w, e) && Spares(e, d, p)
    requires d in w.store.deliveries && w.store.deliveries[d].endpoint == Some(p)
    requires Sends(Target(w.store, w.store.deliveries[d]))
    ensures
      var t := Next(cfg, w, e).store;
      && d in t.deliveries && t.deliveries[d].endpoint == Some(p)
      && Sends(Target(t, t.deliveries[d]))
  {
    hide RunExpiryCycle, RunHookCycle, IntentStep, CallStep, TablesOk, Evolves, CallsOk, NetOk, WorldOk, NetEvolves,
         FansSettled, NoneExpired, DueBatch, ExpiredExactly, BatchRowsOk;
    KeyedTables(cfg, w);
    var now := Now(w, e);
    var v := Act(cfg, w, now, e.action);
    match e.action {
      case OnEndpoints(a) =>
      case OnCalls(c) => CallStepFacts(cfg, w, now, c);
      case OnIntents(i) =>
        IntentTables(cfg, w);
        IntentStepFacts(w.store, now, i, cfg.maxAttempts, w.net.log);
        IntentStepKeepsEndpoints(w.store, now, i);
      case OnShops(o) =>
      case ExpireDue(dbNow, ids, ending) =>
        ExpiryCycleFacts(cfg, w, now, dbNow, ids, ending);
        ExpiryKeepsEndpoints(w, cfg.expiryLimit, now, dbNow, ids, ending);
      case DeliverDue(posts, ending) => HookCycleFacts(cfg, w, now, posts, ending);
      case RetryHook(m, x) =>
    }
  }

  lemma IntentStepKeepsEndpoints(s: Store, now: int, a: IntentAction)
    ensures IntentStep(s, now, a).endpoints == s.endpoints
  {
    hide Terminate, X.Parse, X.SchemaAccepts, X.Matches, X.ByReference;
    match a
    case ConfirmIntent(m, i, hash, dbNow, ids) =>
      if i in s.intents { ConfirmKeepsEndpoints(s, i, hash, now, dbNow, ids); }
    case CancelIntent(m, i, reason, dbNow, ids) =>
      if i in s.intents {
        EnqueueKeepsEndpoints(s, i, s.intents[i].(status := Cancelled, cancelledAt := Some(now), reason := reason),
                              now, dbNow, ids);
      }
    case DetectPayment(d, dbNow, ids) =>
      if X.SchemaAccepts(d) { DetectKeepsEndpoints(s, d, now, dbNow, ids); }
    case ScanTransaction(tx, dbNow, ids) =>
      if X.Parse(tx).Payment? {
        X.ParsedFacts(tx);
        DetectKeepsEndpoints(s, X.Parse(tx).detected, now, dbNow, ids);
      }
  }

  lemma ConfirmKeepsEndpoints(s: Store, i: IntentId, hash: string, now: int, dbNow: int, ids: seq<DeliveryId>)
    requires i in s.intents
    ensures Confirm(s, i, hash, now, dbNow, ids).0.endpoints == s.endpoints
  {
    hide Terminate;
    EnqueueKeepsEndpoints(s, i, s.intents[i].(status := Confirmed, hash := Some(hash)), now, dbNow, ids);
  }

  lemma DetectKeepsEndpoints(s: Store, d: X.Detected, now: int, dbNow: int, ids: seq<DeliveryId>)
    requires X.SchemaAccepts(d)
    ensures X.Detect(s, d, now, dbNow, ids).0.endpoints == s.endpoints
  {
    hide Confirm, X.Matches, X.ByReference;
    var found := X.ByReference(s, Upper(d.reference));
    if found.Some? { ConfirmKeepsEndpoints(s, found.value, d.hash, now, dbNow, ids); }
  }

  lemma ExpiryKeepsEndpoints(w: World, limit: nat, now: int, dbNow: int, ids: seq<DeliveryId>, ending: Ending)
    ensures RunExpiryCycle(w.store, w.expiry, limit, now, dbNow, ids, ending).store.endpoints == w.store.endpoints
  {
    hide ExpireFirst, ExpiredPending;
  }

  lemma StalledCycle(cfg: Config, w: World, e: Event, d: DeliveryId)
    requires WorldOk(cfg, w) && Head(w.store, d, w.clock) && RaisesFirst(e)
    ensures !Commits(cfg, w, e)
  {
    hide NetOk, CallsOk, TablesOk, RunHookCycle, DueBatch, Evolves, NetEvolves, BatchRowsOk, Poisoned;
    if e.action.DeliverDue? {
      KeyedTables(cfg, w);
      SoundWorld(cfg, w);
      var now := Now(w, e);
      var batch := DueBatch(w.store, now, cfg.hookLimit);
      HeadIsFirst(w.store, d, w.clock, now, cfg.hookLimit);
      PoisonedFirst(w.store, batch, e.action.posts, d);
      CommitsIffNotPoisoned(cfg, w, e);
    }
  }

  lemma PoisonedFirst(s: Store, batch: seq<R.Key>, posts: seq<Post>, d: DeliveryId)
    requires |batch| > 0 && batch[0].id == d && d in s.deliveries && Sends(Target(s, s.deliveries[d]))
    requires PostAt(posts, 0) == OtherException
    ensures Poisoned(s, batch, posts, 0)
  {
  }

  lemma HeadIsFirst(s: Store, d: DeliveryId, clock: int, now: int, limit: nat)
    requires Head(s, d, clock) && clock <= now && limit >= 1
    ensures |DueBatch(s, now, limit)| > 0 && DueBatch(s, now, limit)[0].id == d
  {
    hide DueBatch;
    var batch := DueBatch(s, now, limit);
    var k := KeyIn(s, d);
    assert k in DueDeliveryKeys(s, now);
    BatchIsFirst(s, now, limit);
    assert |R.Sorted(DueDeliveryKeys(s, now))| > 0 by { assert k in R.Sorted(DueDeliveryKeys(s, now)); }
    assert |batch| > 0;
    assert batch[0] in batch;
    LeadsOrIs(s, d, batch[0]);
    if k !in batch {
      FirstIsFull(DueDeliveryKeys(s, now), limit, k);
    } else {
      var j :| 0 <= j < |batch| && batch[j] == k;
      assert j > 0 ==> R.Before(batch[0], batch[j]);
    }
  }

  lemma LeadsOrIs(s: Store, d: DeliveryId, k: R.Key)
    requires d in s.deliveries && AheadOf(s, d) == {} && k.id in s.deliveries && k == KeyIn(s, k.id)
      && Open(s.deliveries[k.id])
    ensures !R.Before(k, KeyIn(s, d))
  {
    assert k.id !in AheadOf(s, d);
  }
}
