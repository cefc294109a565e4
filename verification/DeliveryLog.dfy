/** Row by row: what a committed batch sent, and what the answers made of its rows. */
module DeliveryLog {
  import opened Common
  import opened Store
  import opened WebhookDelivery
  import opened DeliveryFacts
  import opened IntentFacts
  import opened Workers
  import opened Creation
  import opened World
  import opened Fairness
  import R = Ranking

  /** The endpoint of a row exists and is enabled. */
  predicate ToEnabled(s: Store, row: Delivery) {
    row.endpoint.Some? && row.endpoint.value in s.endpoints && s.endpoints[row.endpoint.value].enabled
  }

  /** How many of the first `n` rows of a batch are sent. */
  function SentBefore(s: Store, batch: seq<R.Key>, n: nat): nat
    requires n <= |batch| && forall k <- batch :: k.id in s.deliveries
  {
    if n == 0 then 0 else
      assert batch[n - 1] in batch;
      SentBefore(s, batch, n - 1) + if ToEnabled(s, s.deliveries[batch[n - 1].id]) then 1 else 0
  }

  /** What a cycle meets outside: the shops, the orders that are linked there, and how each POST ends. */
  datatype Outside = Outside(shops: set<Url>, linked: set<(Url, IntentId)>, posts: seq<Post>)

  /** The server at `url` answers the POST of row `j` with a 2xx; a shop does so only for a linked order. */
  predicate Accepts(o: Outside, j: nat, url: Url, i: IntentId) {
    && j < |o.posts| && o.posts[j].Answer? && 200 <= o.posts[j].code <= 299
    && (url in o.shops ==> (url, i) in o.linked)
  }

  /** Row `row` of delivery `d` was sent as entry `x`: its payload, to the address of its enabled endpoint. */
  ghost predicate SentAs(s: Store, row: Delivery, d: DeliveryId, x: Sent) {
    ToEnabled(s, row) && x.delivery == d && x.payload == row.payload && x.url == s.endpoints[row.endpoint.value].url
  }

  /**
   * The entry of the log that a row was sent with tells its outcome: delivered
   * when accepted, else discarded at the last attempt, else failed until the
   * backoff has passed.
   */
  ghost predicate Answered(row: Delivery, after: Delivery, x: Sent, now: int, maxAttempts: nat) {
    && after.attemptCount == row.attemptCount + 1 && after.lastAttemptAt == Some(now)
    && (after.status == Delivered <==> x.accepted)
    && (after.status == Discarded <==> !x.accepted && row.attemptCount + 1 >= maxAttempts)
    && (after.status == Failed <==> !x.accepted && row.attemptCount + 1 < maxAttempts)
    && after.nextAttemptAt
       == if after.status == Failed then Some(now + 1_000_000 * Min(3600, 60 * Pow2(row.attemptCount))) else None
  }

  /** A row without an enabled endpoint is closed unsent, and its attempts are not counted. */
  ghost predicate Dropped(row: Delivery, after: Delivery, now: int) {
    && after.status == Discarded && after.nextAttemptAt == None && after.attemptCount == row.attemptCount
    && after.lastAttemptAt == Some(now)
  }

  ghost predicate RowResult(s: Store, t: Store, batch: seq<R.Key>, j: nat, base: nat, log: seq<Sent>, now: int,
                            maxAttempts: nat, o: Outside)
    requires j < |batch| && forall k <- batch :: k.id in s.deliveries
  {
    assert batch[j] in batch;
    var d := batch[j].id;
    var place := base + SentBefore(s, batch, j);
    && d in t.deliveries
    && var (row, after) := (s.deliveries[d], t.deliveries[d]);
    if row.endpoint.Some? && row.endpoint.value in s.endpoints && s.endpoints[row.endpoint.value].enabled then
      && place < |log| && SentAs(s, row, d, log[place]) && Answered(row, after, log[place], now, maxAttempts)
      && (log[place].accepted <==> Accepts(o, j, log[place].url, row.payload.data.id))
    else Dropped(row, after, now)
  }

  ghost predicate BatchResult(s: Store, t: Store, batch: seq<R.Key>, n: nat, base: nat, log: seq<Sent>, now: int,
                              maxAttempts: nat, o: Outside)
    requires n <= |batch| && forall k <- batch :: k.id in s.deliveries
  {
    && |log| == base + SentBefore(s, batch, n)
    && forall j :: 0 <= j < n ==> RowResult(s, t, batch, j, base, log, now, maxAttempts, o)
  }

  lemma ReadyRows(s: Store, net: Net, batch: seq<R.Key>, now: int, maxAttempts: nat, shops: set<Url>)
    requires ReadyFor(s, net, batch, now, maxAttempts, shops)
    ensures Rows(s, batch) && forall k <- batch :: k.id in s.deliveries
  {
  }

  /** A POST appends its entry to the log and links or unlinks no order. */
  lemma Sending(net: Net, shops: set<Url>, url: Url, d: DeliveryId, p: Payload, post: Post)
    ensures
      var (net', answer) := Transmit(net, shops, url, d, p, post);
      && net'.log == net.log + [Sent(url, d, p, Success(answer))]
      && net'.orders.Keys == net.orders.Keys
      && (Success(answer) <==>
            post.Answer? && 200 <= post.code <= 299 && (url in shops ==> (url, p.data.id) in net.orders))
  {
  }

  /** One turn on a row not yet touched, whether or not it ends in an exception. */
  lemma TurnResult(s: Store, b: Batch, d: DeliveryId, now: int, maxAttempts: nat, o: Outside, j: nat)
    requires d in s.deliveries && d in b.store.deliveries && d in b.store.trail
    requires b.store.deliveries[d] == s.deliveries[d] && b.store.endpoints == s.endpoints
    requires b.net.orders.Keys == o.linked
    ensures
      var u := DeliverNext(b, d, now, maxAttempts, o.shops, PostAt(o.posts, j));
      var (row, net) := (s.deliveries[d], u.batch.net);
      && net.orders.Keys == o.linked
      && (if ToEnabled(s, row) then
            && OneMore(b.net.log, net.log) && SentAs(s, row, d, net.log[|b.net.log|])
            && (net.log[|b.net.log|].accepted <==> Accepts(o, j, net.log[|b.net.log|].url, row.payload.data.id))
          else u.ok && net.log == b.net.log)
      && (u.ok ==>
            && d in u.batch.store.deliveries
            && u.batch.store.deliveries == b.store.deliveries[d := u.batch.store.deliveries[d]]
            && var after := u.batch.store.deliveries[d];
               if ToEnabled(s, row) then Answered(row, after, net.log[|b.net.log|], now, maxAttempts)
               else Dropped(row, after, now))
  {
    hide Attempted, Answered, Transmit, Success;
    var row := s.deliveries[d];
    var target := Target(s, row);
    if ToEnabled(s, row) {
      var post := PostAt(o.posts, j);
      Sending(b.net, o.shops, target.value.url, d, row.payload, post);
      var answer := Transmit(b.net, o.shops, target.value.url, d, row.payload, post).1;
      if answer != OtherException { AttemptIsAnswered(row, now, maxAttempts, answer); }
    }
  }

  lemma AttemptIsAnswered(row: Delivery, now: int, maxAttempts: nat, answer: Post)
    requires answer != OtherException
    ensures
      forall x: Sent :: x.accepted == Success(answer) ==>
        Answered(row, Attempted(row, now, maxAttempts, answer), x, now, maxAttempts)
  {
    hide Pow2;
  }

  /** The log and the rows after the first `n` turns; the log tells the truth of an aborted batch, too. */
  ghost predicate LogOk(s: Store, batch: seq<R.Key>, base: seq<Sent>, log: seq<Sent>) {
    base <= log && forall k :: |base| <= k < |log| ==> Posted(s, batch, log[k])
  }

  /** The entry is the POST of some row of the batch. */
  ghost predicate Posted(s: Store, batch: seq<R.Key>, x: Sent) {
    exists j: nat :: EntryOf(s, batch, j, x)
  }

  /** The entry is the POST of row `j` of the batch. */
  ghost predicate EntryOf(s: Store, batch: seq<R.Key>, j: nat, x: Sent) {
    j < |batch| && batch[j].id in s.deliveries && SentAs(s, s.deliveries[batch[j].id], batch[j].id, x)
  }

  lemma {:induction false} BatchByRow(s: Store, net: Net, batch: seq<R.Key>, n: nat, now: int, maxAttempts: nat,
                                      o: Outside)
    requires n <= |batch| && ReadyFor(s, net, batch, now, maxAttempts, o.shops) && net.orders.Keys == o.linked
    ensures Rows(s, batch) && forall k <- batch :: k.id in s.deliveries
    ensures
      var t := DeliverFirst(Batch(s, net, 0, 0, 0), batch, n, now, maxAttempts, o.shops, o.posts);
      && LogOk(s, batch, net.log, t.batch.net.log)
      && (t.ok ==> t.batch.net.orders.Keys == o.linked
                   && BatchResult(s, t.batch.store, batch, n, |net.log|, t.batch.net.log, now, maxAttempts, o))
  {
    hide DeliverNext, ReadyFor, RowResult, BatchOk, LogOk, BatchResult;
    ReadyRows(s, net, batch, now, maxAttempts, o.shops);
    if n == 0 {
      NothingSent(s, batch, net.log, now, maxAttempts, o);
    } else {
      BatchByRow(s, net, batch, n - 1, now, maxAttempts, o);
      var t := DeliverFirst(Batch(s, net, 0, 0, 0), batch, n - 1, now, maxAttempts, o.shops, o.posts);
      if t.ok { NextRowResult(s, net, batch, n, t.batch, now, maxAttempts, o); }
    }
  }

  lemma NothingSent(s: Store, batch: seq<R.Key>, log: seq<Sent>, now: int, maxAttempts: nat, o: Outside)
    requires forall k <- batch :: k.id in s.deliveries
    ensures LogOk(s, batch, log, log) && BatchResult(s, s, batch, 0, |log|, log, now, maxAttempts, o)
  {
  }

  lemma NextRowResult(s: Store, net: Net, batch: seq<R.Key>, n: nat, b: Batch, now: int, maxAttempts: nat, o: Outside)
    requires 0 < n <= |batch| && ReadyFor(s, net, batch, now, maxAttempts, o.shops)
    requires Rows(s, batch) && forall k <- batch :: k.id in s.deliveries
    requires DeliverFirst(Batch(s, net, 0, 0, 0), batch, n - 1, now, maxAttempts, o.shops, o.posts) == Turn(b, true)
    requires b.net.orders.Keys == o.linked && LogOk(s, batch, net.log, b.net.log)
    requires BatchResult(s, b.store, batch, n - 1, |net.log|, b.net.log, now, maxAttempts, o)
    requires batch[n - 1].id in b.store.deliveries && batch[n - 1].id in b.store.trail
    ensures
      var u := DeliverNext(b, batch[n - 1].id, now, maxAttempts, o.shops, PostAt(o.posts, n - 1));
      && LogOk(s, batch, net.log, u.batch.net.log)
      && (u.ok ==> u.batch.net.orders.Keys == o.linked
                   && BatchResult(s, u.batch.store, batch, n, |net.log|, u.batch.net.log, now, maxAttempts, o))
  {
    hide DeliverNext, DeliverFirst, Answered, Dropped, SentAs, Accepts, BatchOk, NetOk, SchedulesOk, ReceiptsOk,
         FaithfulTo, LogOk, BatchResult;
    var d := batch[n - 1].id;
    assert batch[n - 1] in batch;
    DeliverFirstFacts(s, net, batch, n - 1, now, maxAttempts, o.shops, o.posts);
    FreshInBatch(s, net, batch, n, now, maxAttempts, o.shops);
    UntouchedRow(s, net, Turn(b, true), batch, n, now, maxAttempts, o.shops);
    TurnResult(s, b, d, now, maxAttempts, o, n - 1);
    var u := DeliverNext(b, d, now, maxAttempts, o.shops, PostAt(o.posts, n - 1));
    MoreLog(s, batch, n, net.log, b.net.log, u.batch.net.log);
    if u.ok { MoreRows(s, b.store, u.batch.store, batch, n, |net.log|, b.net.log, u.batch.net.log, now, maxAttempts,
                       o); }
  }

  predicate OneMore(log: seq<Sent>, longer: seq<Sent>) {
    |longer| == |log| + 1 && log <= longer
  }

  lemma MoreLog(s: Store, batch: seq<R.Key>, n: nat, base: seq<Sent>, log: seq<Sent>, longer: seq<Sent>)
    requires 0 < n <= |batch| && batch[n - 1].id in s.deliveries && LogOk(s, batch, base, log)
    requires longer == log
             || (OneMore(log, longer)
                 && SentAs(s, s.deliveries[batch[n - 1].id], batch[n - 1].id, longer[|log|]))
    ensures LogOk(s, batch, base, longer)
  {
    hide SentAs;
    assert log <= longer;
    assert base == log[..|base|] == longer[..|base|];
    forall k | |base| <= k < |longer| ensures Posted(s, batch, longer[k]) {
      if k < |log| {
        assert longer[k] == log[k];
      } else {
        assert EntryOf(s, batch, n - 1, longer[k]);
      }
    }
  }

  lemma MoreRows(s: Store, t: Store, u: Store, batch: seq<R.Key>, n: nat, base: nat, log: seq<Sent>, longer: seq<Sent>,
                 now: int, maxAttempts: nat, o: Outside)
    requires 0 < n <= |batch| && forall k <- batch :: k.id in s.deliveries
    requires forall j :: 0 <= j < n - 1 ==> batch[j].id != batch[n - 1].id
    requires batch[n - 1].id in s.deliveries && batch[n - 1].id in u.deliveries
    requires BatchResult(s, t, batch, n - 1, base, log, now, maxAttempts, o)
    requires u.deliveries == t.deliveries[batch[n - 1].id := u.deliveries[batch[n - 1].id]]
    requires
      var d := batch[n - 1].id;
      var (row, after) := (s.deliveries[d], u.deliveries[d]);
      if ToEnabled(s, row) then
        && OneMore(log, longer) && SentAs(s, row, d, longer[|log|])
        && (longer[|log|].accepted <==> Accepts(o, n - 1, longer[|log|].url, row.payload.data.id))
        && Answered(row, after, longer[|log|], now, maxAttempts)
      else longer == log && Dropped(row, after, now)
    ensures BatchResult(s, u, batch, n, base, longer, now, maxAttempts, o)
  {
    hide Answered, Dropped, SentAs, Accepts;
    forall j | 0 <= j < n ensures RowResult(s, u, batch, j, base, longer, now, maxAttempts, o) {
      assert batch[j] in batch;
      if j < n - 1 {
        assert RowResult(s, t, batch, j, base, log, now, maxAttempts, o);
      }
    }
  }

  ghost function OutsideOf(cfg: Config, w: World, e: Event): Outside
    requires e.action.DeliverDue?
  {
    Outside(cfg.shops, w.net.orders.Keys, e.action.posts)
  }

  /**
   * A committed cycle of any run: the send log grew by one entry for each row
   * of the batch with an enabled endpoint, in queue order, and each row is what
   * its entry says; the rows without such an endpoint are discarded unsent.
   */
  lemma CommittedCycleByRow(cfg: Config, w: World, e: Event)
    requires WorldOk(cfg, w) && Commits(cfg, w, e)
    ensures
      var batch := DueBatch(w.store, Now(w, e), cfg.hookLimit);
      var v := Next(cfg, w, e);
      && w.net.log <= v.net.log
      && BatchResult(w.store, v.store, batch, |batch|, |w.net.log|, v.net.log, Now(w, e), cfg.maxAttempts,
                     OutsideOf(cfg, w, e))
  {
    hide NetOk, CallsOk, TablesOk, DeliverFirst, DueBatch, BatchResult, Evolves;
    KeyedTables(cfg, w);
    var now := Now(w, e);
    var batch := DueBatch(w.store, now, cfg.hookLimit);
    HookReady(cfg, w, now);
    BatchByRow(w.store, w.net, batch, |batch|, now, cfg.maxAttempts, OutsideOf(cfg, w, e));
    NextEvolves(cfg, w, e);
  }

  /** The entry is a POST of a delivery that is due at `now`, to its endpoint, which is enabled. */
  ghost predicate Allowed(s: Store, x: Sent, now: int) {
    && x.delivery in s.deliveries
    && var row := s.deliveries[x.delivery];
    && row.status in {Waiting, Failed} && row.nextAttemptAt.Some? && row.nextAttemptAt.value <= now
    && row.endpoint.Some? && row.endpoint.value in s.endpoints
    && s.endpoints[row.endpoint.value].enabled && x.url == s.endpoints[row.endpoint.value].url
    && x.payload == row.payload
  }

  /** On every run only the webhook worker sends, and, in aborted cycles too, only what is due to enabled endpoints. */
  lemma EveryPostIsAllowed(cfg: Config, w: World, e: Event, k: nat)
    requires WorldOk(cfg, w) && |w.net.log| <= k < |Next(cfg, w, e).net.log|
    ensures e.action.DeliverDue? && Allowed(w.store, Next(cfg, w, e).net.log[k], Now(w, e))
  {
    hide NetOk, CallsOk, TablesOk, DeliverFirst, DueBatch, BatchResult, Evolves, SentAs, IntentStep, EndpointStep,
         RetryDelivery, RunExpiryCycle, CallStep;
    KeyedTables(cfg, w);
    var now := Now(w, e);
    match e.action {
      case DeliverDue(posts, ending) =>
        var batch := DueBatch(w.store, now, cfg.hookLimit);
        HookReady(cfg, w, now);
        BatchByRow(w.store, w.net, batch, |batch|, now, cfg.maxAttempts, OutsideOf(cfg, w, e));
        var x := Next(cfg, w, e).net.log[k];
        assert Posted(w.store, batch, x);
        var j: nat :| EntryOf(w.store, batch, j, x);
        DueEntry(cfg, w, now, batch, j, x);
      case OnCalls(c) => CallStepFacts(cfg, w, now, c);
      case OnShops(o) => ShopStepFacts(cfg, w, o);
      case OnEndpoints(a) =>
      case OnIntents(i) =>
      case ExpireDue(dbNow, ids, ending) =>
      case RetryHook(m, d) =>
    }
  }

  lemma DueEntry(cfg: Config, w: World, now: int, batch: seq<R.Key>, j: nat, x: Sent)
    requires WorldOk(cfg, w) && batch == DueBatch(w.store, now, cfg.hookLimit) && EntryOf(w.store, batch, j, x)
    ensures Allowed(w.store, x, now)
  {
    hide NetOk, CallsOk, StoreOk, ReceiptsOk, DueBatch, Spaced;
    DueBatchIsFirst(w.store, now, cfg.hookLimit);
    assert DueRow(w.store, batch[j].id, now);
    assert ScheduleOk(w.store.deliveries[x.delivery], w.store.trail[x.delivery].attempts, cfg.maxAttempts);
  }

  // --------------------------------------------------------------- counters

  /** How many of the first `n` rows of a batch have a status. */
  function Outcomes(t: Store, batch: seq<R.Key>, n: nat, status: DeliveryStatus): nat
    requires n <= |batch|
  {
    if n == 0 then 0
    else Outcomes(t, batch, n - 1, status)
         + if batch[n - 1].id in t.deliveries && t.deliveries[batch[n - 1].id].status == status then 1 else 0
  }

  lemma {:induction false} OutcomesKept(t: Store, u: Store, batch: seq<R.Key>, n: nat, d: DeliveryId,
                                        status: DeliveryStatus)
    requires n <= |batch| && d in u.deliveries && u.deliveries == t.deliveries[d := u.deliveries[d]]
    requires forall j :: 0 <= j < n ==> batch[j].id != d
    ensures Outcomes(u, batch, n, status) == Outcomes(t, batch, n, status)
  {
    if n > 0 { OutcomesKept(t, u, batch, n - 1, d, status); }
  }

  /** The counters of a batch are the numbers of its rows by outcome. */
  ghost predicate Counted(b: Batch, batch: seq<R.Key>, n: nat)
    requires n <= |batch|
  {
    && b.delivered == Outcomes(b.store, batch, n, Delivered)
    && b.failed == Outcomes(b.store, batch, n, Failed)
    && b.discarded == Outcomes(b.store, batch, n, Discarded)
  }

  lemma {:induction false} BatchCounts(s: Store, net: Net, batch: seq<R.Key>, n: nat, now: int, maxAttempts: nat,
                                       shops: set<Url>, posts: seq<Post>)
    requires n <= |batch| && ReadyFor(s, net, batch, now, maxAttempts, shops)
    ensures Rows(s, batch)
    ensures
      var t := DeliverFirst(Batch(s, net, 0, 0, 0), batch, n, now, maxAttempts, shops, posts);
      t.ok ==> Counted(t.batch, batch, n)
  {
    hide DeliverNext, ReadyFor, Counted, BatchOk;
    ReadyRows(s, net, batch, now, maxAttempts, shops);
    NothingCounted(Batch(s, net, 0, 0, 0), batch);
    if n > 0 {
      BatchCounts(s, net, batch, n - 1, now, maxAttempts, shops, posts);
      var t := DeliverFirst(Batch(s, net, 0, 0, 0), batch, n - 1, now, maxAttempts, shops, posts);
      if t.ok && DeliverFirst(Batch(s, net, 0, 0, 0), batch, n, now, maxAttempts, shops, posts).ok {
        DistinctRows(s, net, batch, now, maxAttempts, shops);
        TurnCounts(t.batch, batch, n, now, maxAttempts, shops, PostAt(posts, n - 1));
      }
    }
  }

  lemma NothingCounted(b: Batch, batch: seq<R.Key>)
    requires b.delivered == b.failed == b.discarded == 0
    ensures Counted(b, batch, 0)
  {
  }

  lemma DistinctRows(s: Store, net: Net, batch: seq<R.Key>, now: int, maxAttempts: nat, shops: set<Url>)
    requires ReadyFor(s, net, batch, now, maxAttempts, shops)
    ensures forall i, j :: 0 <= i < j < |batch| ==> batch[i].id != batch[j].id
  {
  }

  /** One turn rewrites one row and counts its new status. */
  lemma TurnCountsRow(b: Batch, d: DeliveryId, now: int, maxAttempts: nat, shops: set<Url>, post: Post)
    requires d in b.store.deliveries && d in b.store.trail && DeliverNext(b, d, now, maxAttempts, shops, post).ok
    ensures
      var t := DeliverNext(b, d, now, maxAttempts, shops, post).batch;
      && d in t.store.deliveries && t.store.deliveries == b.store.deliveries[d := t.store.deliveries[d]]
      && t == Count(b.(store := t.store, net := t.net), t.store.deliveries[d].status)
  {
    hide Transmit, Attempted, Success, Target, Sends;
  }

  /** One more row in the count of a status. */
  lemma OneMoreOutcome(t: Store, u: Store, batch: seq<R.Key>, n: nat, status: DeliveryStatus)
    requires 0 < n <= |batch| && forall i, j :: 0 <= i < j < |batch| ==> batch[i].id != batch[j].id
    requires batch[n - 1].id in u.deliveries
    requires u.deliveries == t.deliveries[batch[n - 1].id := u.deliveries[batch[n - 1].id]]
    ensures Outcomes(u, batch, n, status)
         == Outcomes(t, batch, n - 1, status) + if u.deliveries[batch[n - 1].id].status == status then 1 else 0
  {
    OutcomesKept(t, u, batch, n - 1, batch[n - 1].id, status);
  }

  lemma TurnCounts(b: Batch, batch: seq<R.Key>, n: nat, now: int, maxAttempts: nat, shops: set<Url>, post: Post)
    requires 0 < n <= |batch| && forall i, j :: 0 <= i < j < |batch| ==> batch[i].id != batch[j].id
    requires batch[n - 1].id in b.store.deliveries && batch[n - 1].id in b.store.trail
    requires Counted(b, batch, n - 1) && DeliverNext(b, batch[n - 1].id, now, maxAttempts, shops, post).ok
    ensures Counted(DeliverNext(b, batch[n - 1].id, now, maxAttempts, shops, post).batch, batch, n)
  {
    hide DeliverNext, Outcomes;
    var t := DeliverNext(b, batch[n - 1].id, now, maxAttempts, shops, post).batch;
    TurnCountsRow(b, batch[n - 1].id, now, maxAttempts, shops, post);
    OneMoreOutcome(b.store, t.store, batch, n, Delivered);
    OneMoreOutcome(b.store, t.store, batch, n, Failed);
    OneMoreOutcome(b.store, t.store, batch, n, Discarded);
  }

  /** A committed and marked cycle adds to each total the rows it left in that state. */
  lemma MarkedCycleCounts(cfg: Config, w: World, e: Event)
    requires WorldOk(cfg, w) && Commits(cfg, w, e) && e.action.ending == Marked
    ensures
      var batch := DueBatch(w.store, Now(w, e), cfg.hookLimit);
      var v := Next(cfg, w, e);
      && v.hooks.succeeded == w.hooks.succeeded + 1 && v.hooks.failedCycles == w.hooks.failedCycles
      && v.hooks.processed == w.hooks.processed + |batch|
      && v.hooks.delivered == w.hooks.delivered + Outcomes(v.store, batch, |batch|, Delivered)
      && v.hooks.failed == w.hooks.failed + Outcomes(v.store, batch, |batch|, Failed)
      && v.hooks.discarded == w.hooks.discarded + Outcomes(v.store, batch, |batch|, Discarded)
  {
    hide NetOk, CallsOk, TablesOk, DeliverFirst, DueBatch, Evolves, Outcomes;
    KeyedTables(cfg, w);
    var now := Now(w, e);
    var batch := DueBatch(w.store, now, cfg.hookLimit);
    HookReady(cfg, w, now);
    BatchCounts(w.store, w.net, batch, |batch|, now, cfg.maxAttempts, cfg.shops, e.action.posts);
  }

  // ----------------------------------------------------------- manual retry

  /** A manual retry makes a row due at once, with all its attempts ahead of it; a delivered row is refused. */
  lemma RetryReopens(s: Store, d: DeliveryId, now: int)
    requires d in s.deliveries && d in s.trail
    ensures
      var (t, ok) := RetryDelivery(s, d, now);
      && (ok <==> s.deliveries[d].status != Delivered)
      && (!ok ==> t == s)
      && (ok ==>
            && t == s.(deliveries := t.deliveries, trail := t.trail)
            && t.deliveries - {d} == s.deliveries - {d} && t.trail - {d} == s.trail - {d}
            && d in t.deliveries && d in t.trail && t.trail[d].attempts == [] && t.trail[d].origin == s.trail[d].origin
            && var (row, after) := (s.deliveries[d], t.deliveries[d]);
            && after.status == Waiting && after.attemptCount == 0
            && after.nextAttemptAt == Some(now) && after.lastAttemptAt == None
            && after.merchant == row.merchant && after.endpoint == row.endpoint && after.event == row.event
            && after.intent == row.intent && after.payload == row.payload && after.createdAt == row.createdAt)
  {
  }
}
