/** What a delivery attempt, a batch and a manual retry keep. */
module DeliveryFacts {
  import opened Common
  import opened Store
  import opened Receiver
  import opened WebhookDelivery
  import R = Ranking

  // --------------------------------------------------------------- backoff

  lemma {:induction false} Pow2Monotone(m: nat, n: nat)
    requires m <= n
    ensures Pow2(m) <= Pow2(n)
  {
    if m < n { Pow2Monotone(m, n - 1); }
  }

  /** The waits grow from a minute to an hour. */
  lemma DelaysGrowToAnHour(m: nat, n: nat)
    requires m <= n
    ensures 60 <= DelaySeconds(m) <= DelaySeconds(n) <= 3600
  {
    Pow2Monotone(if m == 0 then 0 else m - 1, if n == 0 then 0 else n - 1);
  }

  /** The wait is a minute after the first attempt and doubles with each further one, up to an hour. */
  lemma DelaysDouble(n: nat)
    ensures DelaySeconds(0) == DelaySeconds(1) == 60
    ensures n >= 1 ==> DelaySeconds(n + 1) == Min(3600, 2 * DelaySeconds(n))
    ensures CalculateNextAttemptAt(0, n) == DelaySeconds(n) * 1_000_000
  {
  }

  /** Consecutive attempts keep the wait the backoff asks for. */
  ghost predicate Spaced(attempts: seq<int>) {
    forall j :: 0 <= j < |attempts| - 1 ==> attempts[j + 1] - attempts[j] >= DelaySeconds(j + 1) * SECOND
  }

  /** The least number of seconds from attempt 1 to attempt k. */
  function LeastSpan(k: nat): int
    requires k >= 1
  {
    if k <= 7 then 60 * (Pow2(k - 1) - 1) else 3780 + 3600 * (k - 7)
  }

  lemma {:induction false} SpacedAttemptsSpan(attempts: seq<int>, k: nat)
    requires Spaced(attempts) && 1 <= k <= |attempts|
    ensures attempts[k - 1] - attempts[0] >= LeastSpan(k) * SECOND
  {
    if k > 1 {
      SpacedAttemptsSpan(attempts, k - 1);
      SpanStep(k);
      assert attempts[k - 1] - attempts[k - 2] >= DelaySeconds(k - 1) * SECOND;
    }
  }

  lemma SpanStep(k: nat)
    requires k > 1
    ensures LeastSpan(k) == LeastSpan(k - 1) + DelaySeconds(k - 1)
  {
    assert Pow2(1) == 2;
    assert Pow2(2) == 4;
    assert Pow2(3) == 8;
    assert Pow2(4) == 16;
    assert Pow2(5) == 32;
    assert Pow2(6) == 64;
    if k > 7 { Pow2Monotone(6, k - 2); }
  }

  // ------------------------------------------------------------- invariants

  /** The schedule of a row, given its attempts since creation or the last retry. */
  ghost predicate ScheduleOk(row: Delivery, attempts: seq<int>, maxAttempts: nat) {
    && |attempts| == row.attemptCount <= maxAttempts
    && Spaced(attempts)
    && match row.status
       case Waiting => attempts == [] && row.nextAttemptAt.Some?
       case Failed =>
         && 0 < |attempts| < maxAttempts
         && row.nextAttemptAt == Some(CalculateNextAttemptAt(attempts[|attempts| - 1], |attempts|))
       case Delivered => row.nextAttemptAt == None
       case Discarded => row.nextAttemptAt == None
  }

  ghost predicate SchedulesOk(s: Store, maxAttempts: nat) {
    forall d <- s.deliveries :: d in s.trail && ScheduleOk(s.deliveries[d], s.trail[d].attempts, maxAttempts)
  }

  /** A delivered row is backed by an accepted entry of the send log. */
  ghost predicate ReceiptOk(row: Delivery, d: DeliveryId, receipt: Option<nat>, log: seq<Sent>) {
    row.status == Delivered ==>
      && receipt.Some? && receipt.value < |log|
      && log[receipt.value].accepted
      && log[receipt.value].delivery == d
      && log[receipt.value].payload == row.payload
  }

  ghost predicate ReceiptsOk(s: Store, log: seq<Sent>) {
    forall d <- s.deliveries :: d in s.trail && ReceiptOk(s.deliveries[d], d, s.trail[d].receipt, log)
  }

  /** A payload tells the final state of its intent. */
  ghost predicate Truthful(s: Store, p: Payload) {
    && p.data.id in s.intents
    && IsTerminal(s.intents[p.data.id].status)
    && p.event == EventOf(s.intents[p.data.id].status)
    && p.data == Public(p.data.id, s.intents[p.data.id])
  }

  /** An order agrees with its intent, in its status, its metadata and its one note. */
  ghost predicate OrderOk(s: Store, i: IntentId, o: Order) {
    && i in s.intents
    && match o.status
       case OnHold => o.metaHash == None && o.notes == []
       case Processing =>
         && s.intents[i].status == Confirmed && o.metaStatus == Confirmed && o.notes == [Confirmed]
         && o.metaHash == if s.intents[i].hash == Some("") then None else s.intents[i].hash
       case CancelledOrder =>
         && s.intents[i].status in {Expired, Cancelled} && o.metaStatus == s.intents[i].status
         && o.metaHash == None && o.notes == [s.intents[i].status]
  }

  ghost predicate SentOk(s: Store, net: Net, shops: set<Url>, e: Sent) {
    && Truthful(s, e.payload)
    && (e.accepted && e.url in shops ==>
          (e.url, e.payload.data.id) in net.orders && net.orders[(e.url, e.payload.data.id)].status != OnHold)
  }

  ghost predicate NetOk(s: Store, net: Net, shops: set<Url>) {
    && (forall k :: 0 <= k < |net.log| ==> SentOk(s, net, shops, net.log[k]))
    && (forall place <- net.orders :: OrderOk(s, place.1, net.orders[place]))
  }

  /** Orders stay linked, settled orders never move again, and the log only grows. */
  ghost predicate NetEvolves(a: Net, b: Net) {
    && a.log <= b.log
    && (forall place <- a.orders ::
          && place in b.orders
          && (a.orders[place].status != OnHold ==> b.orders[place].status == a.orders[place].status))
  }

  lemma NetEvolvesTransitive(a: Net, b: Net, c: Net)
    requires NetEvolves(a, b) && NetEvolves(b, c)
    ensures NetEvolves(a, c)
  {
  }

  // --------------------------------------------------------------- one POST

  /** Running the handler of a shop on a truthful payload keeps orders and intents in agreement. */
  lemma HandledFacts(s: Store, net: Net, shops: set<Url>, place: (Url, IntentId), p: Payload, net': Net)
    requires NetOk(s, net, shops) && Truthful(s, p) && place in net.orders && place.1 == p.data.id
    requires net' == net.(orders := net.orders[place := Handle(net.orders[place], p)])
    ensures NetOk(s, net', shops) && NetEvolves(net, net') && net'.orders[place].status != OnHold
  {
    HandleMovesOnlyOnHold(net.orders[place], p, s.intents[place.1].status);
    forall k | 0 <= k < |net'.log| ensures SentOk(s, net', shops, net'.log[k]) {
      assert SentOk(s, net, shops, net.log[k]);
    }
    forall q <- net'.orders ensures OrderOk(s, q.1, net'.orders[q]) {
      assert OrderOk(s, place.1, net.orders[place]);
    }
  }

  lemma LoggedFacts(s: Store, net: Net, shops: set<Url>, e: Sent, net': Net)
    requires NetOk(s, net, shops) && net' == net.(log := net.log + [e]) && SentOk(s, net', shops, e)
    ensures NetOk(s, net', shops) && NetEvolves(net, net')
  {
    forall k | 0 <= k < |net'.log| ensures SentOk(s, net', shops, net'.log[k]) {
      if k < |net.log| { assert SentOk(s, net, shops, net.log[k]); }
    }
  }

  lemma TransmitFacts(s: Store, net: Net, shops: set<Url>, url: Url, d: DeliveryId, p: Payload, post: Post)
    requires NetOk(s, net, shops) && Truthful(s, p)
    ensures
      var (net', answer) := Transmit(net, shops, url, d, p, post);
      && NetOk(s, net', shops) && NetEvolves(net, net')
      && |net'.log| == |net.log| + 1
      && net'.log[|net.log|] == Sent(url, d, p, Success(answer))
      && (answer == OtherException <==> post == OtherException)
  {
    var (net', answer) := Transmit(net, shops, url, d, p, post);
    var place := (url, p.data.id);
    if Success(post) && url in shops && place in net.orders {
      var mid := net.(orders := net.orders[place := Handle(net.orders[place], p)]);
      HandledFacts(s, net, shops, place, p, mid);
      LoggedFacts(s, mid, shops, Sent(url, d, p, true), net');
      NetEvolvesTransitive(net, mid, net');
    } else {
      LoggedFacts(s, net, shops, net'.log[|net.log|], net');
    }
  }

  // ------------------------------------------------------------- one attempt

  /** What handling a row can make of it. */
  predicate Handled(a: Delivery, b: Delivery, now: int, maxAttempts: nat) {
    || b == Discard(a, now)
    || b == Attempted(a, now, maxAttempts, Answer(200))
    || b == Attempted(a, now, maxAttempts, TransportError)
  }

  /** A handled row is closed or waits for a later time. */
  predicate Deferred(row: Delivery, now: int) {
    !Open(row) || (row.nextAttemptAt.Some? && row.nextAttemptAt.value > now)
  }

  lemma HandledIsDeferred(a: Delivery, b: Delivery, now: int, maxAttempts: nat)
    requires Handled(a, b, now, maxAttempts)
    ensures Deferred(b, now) && b.status != Waiting
  {
    DelaysGrowToAnHour(a.attemptCount + 1, a.attemptCount + 1);
  }

  lemma AttemptKeepsSchedule(row: Delivery, attempts: seq<int>, now: int, maxAttempts: nat, post: Post)
    requires ScheduleOk(row, attempts, maxAttempts) && IsDue(row, now) && 0 < maxAttempts
    ensures ScheduleOk(Attempted(row, now, maxAttempts, post), attempts + [now], maxAttempts)
  {
    var after := attempts + [now];
    forall j | 0 <= j < |after| - 1 ensures after[j + 1] - after[j] >= DelaySeconds(j + 1) * SECOND {
      if j == |attempts| - 1 {
        assert row.nextAttemptAt == Some(CalculateNextAttemptAt(attempts[j], j + 1));
      }
    }
  }

  /** One turn of the loop on the row of delivery `d`. */
  ghost predicate TurnOk(b: Batch, t: Turn, d: DeliveryId, now: int, maxAttempts: nat, shops: set<Url>)
    requires d in b.store.deliveries && d in b.store.trail
  {
    && NetOk(b.store, t.batch.net, shops) && NetEvolves(b.net, t.batch.net)
    && (!t.ok ==> t.batch.store == b.store)
    && (t.ok ==>
          && d in t.batch.store.deliveries && d in t.batch.store.trail
          && t.batch.store == Put(b.store, d, t.batch.store.deliveries[d], t.batch.store.trail[d])
          && var row' := t.batch.store.deliveries[d];
             var trail' := t.batch.store.trail[d];
          && Handled(b.store.deliveries[d], row', now, maxAttempts)
          && ScheduleOk(row', trail'.attempts, maxAttempts)
          && ReceiptOk(row', d, trail'.receipt, t.batch.net.log)
          && trail'.origin == b.store.trail[d].origin
          && t.batch == Count(b.(store := t.batch.store, net := t.batch.net), row'.status))
  }

  lemma DiscardKeepsSchedule(row: Delivery, attempts: seq<int>, now: int, maxAttempts: nat)
    requires ScheduleOk(row, attempts, maxAttempts)
    ensures ScheduleOk(Discard(row, now), attempts, maxAttempts)
  {
  }

  /** A turn that sends nothing. */
  lemma DroppingTurn(b: Batch, d: DeliveryId, now: int, maxAttempts: nat, shops: set<Url>, post: Post)
    requires d in b.store.deliveries && d in b.store.trail && 0 < maxAttempts
    requires !Sends(Target(b.store, b.store.deliveries[d]))
    requires NetOk(b.store, b.net, shops) && FaithfulTo(b.store, b.store.deliveries[d])
    requires IsDue(b.store.deliveries[d], now)
    requires ScheduleOk(b.store.deliveries[d], b.store.trail[d].attempts, maxAttempts)
    requires ReceiptOk(b.store.deliveries[d], d, b.store.trail[d].receipt, b.net.log)
    ensures TurnOk(b, DeliverNext(b, d, now, maxAttempts, shops, post), d, now, maxAttempts, shops)
  {
    hide NetOk, ScheduleOk, Attempted, FaithfulTo, Target, Sends;
    DiscardKeepsSchedule(b.store.deliveries[d], b.store.trail[d].attempts, now, maxAttempts);
  }

  lemma AttemptIsHandled(row: Delivery, now: int, maxAttempts: nat, post: Post)
    requires post != OtherException
    ensures Handled(row, Attempted(row, now, maxAttempts, post), now, maxAttempts)
    ensures Attempted(row, now, maxAttempts, post).status == Delivered <==> Success(post)
    ensures Attempted(row, now, maxAttempts, post).payload == row.payload
  {
  }

  /** A turn that sends a POST. */
  lemma SendingTurn(b: Batch, d: DeliveryId, now: int, maxAttempts: nat, shops: set<Url>, post: Post)
    requires d in b.store.deliveries && d in b.store.trail && 0 < maxAttempts
    requires Sends(Target(b.store, b.store.deliveries[d]))
    requires NetOk(b.store, b.net, shops) && FaithfulTo(b.store, b.store.deliveries[d])
    requires IsDue(b.store.deliveries[d], now)
    requires ScheduleOk(b.store.deliveries[d], b.store.trail[d].attempts, maxAttempts)
    requires ReceiptOk(b.store.deliveries[d], d, b.store.trail[d].receipt, b.net.log)
    ensures TurnOk(b, DeliverNext(b, d, now, maxAttempts, shops, post), d, now, maxAttempts, shops)
  {
    hide NetOk, ScheduleOk, Attempted, Transmit, Handled, Discard, Success, IsDue;
    var row := b.store.deliveries[d];
    var target := Target(b.store, row);
    TransmitFacts(b.store, b.net, shops, target.value.url, d, row.payload, post);
    var answer := Transmit(b.net, shops, target.value.url, d, row.payload, post).1;
    if answer != OtherException {
      AttemptIsHandled(row, now, maxAttempts, answer);
      AttemptKeepsSchedule(row, b.store.trail[d].attempts, now, maxAttempts, answer);
    }
  }

  lemma DeliverNextFacts(b: Batch, d: DeliveryId, now: int, maxAttempts: nat, shops: set<Url>, post: Post)
    requires d in b.store.deliveries && d in b.store.trail && 0 < maxAttempts
    requires NetOk(b.store, b.net, shops) && FaithfulTo(b.store, b.store.deliveries[d])
    requires IsDue(b.store.deliveries[d], now)
    requires ScheduleOk(b.store.deliveries[d], b.store.trail[d].attempts, maxAttempts)
    requires ReceiptOk(b.store.deliveries[d], d, b.store.trail[d].receipt, b.net.log)
    ensures TurnOk(b, DeliverNext(b, d, now, maxAttempts, shops, post), d, now, maxAttempts, shops)
  {
    hide NetOk, ScheduleOk, ReceiptOk, DeliverNext, TurnOk, FaithfulTo, IsDue, Target, Sends;
    if Sends(Target(b.store, b.store.deliveries[d])) {
      SendingTurn(b, d, now, maxAttempts, shops, post);
    } else {
      DroppingTurn(b, d, now, maxAttempts, shops, post);
    }
  }

  // ----------------------------------------------------------------- a batch

  function Ids(batch: seq<R.Key>, n: nat): set<DeliveryId>
    requires n <= |batch|
  {
    set k <- batch[..n] :: k.id
  }

  /** A batch of due deliveries, each once. */
  ghost predicate DueRows(s: Store, batch: seq<R.Key>, now: int) {
    && (forall k <- batch :: k.id in s.deliveries && k.id in s.trail && IsDue(s.deliveries[k.id], now))
    && (forall i, j :: 0 <= i < j < |batch| ==> batch[i].id != batch[j].id)
  }

  lemma DueBatchRows(s: Store, now: int, limit: nat)
    requires s.trail.Keys == s.deliveries.Keys
    ensures DueRows(s, DueBatch(s, now, limit), now)
  {
    var batch := DueBatch(s, now, limit);
    forall i, j | 0 <= i < j < |batch| ensures batch[i].id != batch[j].id {
      assert batch[i] in batch && batch[j] in batch;
    }
  }

  /** The row of `d` after a batch that did or did not touch it. */
  ghost predicate RowAfter(s: Store, t: Store, d: DeliveryId, touched: bool, now: int, maxAttempts: nat, log: seq<Sent>)
    requires d in s.deliveries && d in s.trail
  {
    && d in t.deliveries && d in t.trail
    && ScheduleOk(t.deliveries[d], t.trail[d].attempts, maxAttempts)
    && ReceiptOk(t.deliveries[d], d, t.trail[d].receipt, log)
    && t.trail[d].origin == s.trail[d].origin
    && if touched then Handled(s.deliveries[d], t.deliveries[d], now, maxAttempts)
       else t.deliveries[d] == s.deliveries[d] && t.trail[d] == s.trail[d]
  }

  ghost predicate BatchRowsOk(s: Store, t: Store, touched: set<DeliveryId>, now: int, maxAttempts: nat, log: seq<Sent>)
    requires s.trail.Keys == s.deliveries.Keys
  {
    && t == s.(deliveries := t.deliveries, trail := t.trail)
    && t.deliveries.Keys == s.deliveries.Keys && t.trail.Keys == s.trail.Keys
    && forall d <- s.deliveries :: RowAfter(s, t, d, d in touched, now, maxAttempts, log)
  }

  /** What holds before a batch starts. */
  ghost predicate ReadyFor(s: Store, net: Net, batch: seq<R.Key>, now: int, maxAttempts: nat, shops: set<Url>) {
    && 0 < maxAttempts && s.trail.Keys == s.deliveries.Keys
    && DueRows(s, batch, now)
    && SchedulesOk(s, maxAttempts) && ReceiptsOk(s, net.log) && NetOk(s, net, shops)
    && (forall d <- s.deliveries :: FaithfulTo(s, s.deliveries[d]))
  }

  ghost predicate BatchOk(s: Store, net: Net, t: Turn, batch: seq<R.Key>, n: nat, now: int, maxAttempts: nat,
                          shops: set<Url>)
    requires n <= |batch| && s.trail.Keys == s.deliveries.Keys
  {
    && NetOk(s, t.batch.net, shops) && NetEvolves(net, t.batch.net)
    && (t.ok ==>
          && BatchRowsOk(s, t.batch.store, Ids(batch, n), now, maxAttempts, t.batch.net.log)
          && t.batch.delivered + t.batch.failed + t.batch.discarded == n)
  }

  lemma {:induction false} DeliverFirstFacts(s: Store, net: Net, batch: seq<R.Key>, n: nat, now: int, maxAttempts: nat,
                                             shops: set<Url>, posts: seq<Post>)
    requires n <= |batch| && ReadyFor(s, net, batch, now, maxAttempts, shops)
    ensures BatchOk(s, net, DeliverFirst(Batch(s, net, 0, 0, 0), batch, n, now, maxAttempts, shops, posts),
                    batch, n, now, maxAttempts, shops)
  {
    hide DeliverNext, TurnOk;
    var start := Batch(s, net, 0, 0, 0);
    if n > 0 {
      DeliverFirstFacts(s, net, batch, n - 1, now, maxAttempts, shops, posts);
      var t := DeliverFirst(start, batch, n - 1, now, maxAttempts, shops, posts);
      if t.ok {
        var d := batch[n - 1].id;
        assert batch[n - 1] in batch;
        assert d !in Ids(batch, n - 1);
        assert RowAfter(s, t.batch.store, d, false, now, maxAttempts, t.batch.net.log);
        NetOkOfIntents(s, t.batch.store, t.batch.net, shops);
        DeliverNextFacts(t.batch, d, now, maxAttempts, shops, PostAt(posts, n - 1));
        var u := DeliverNext(t.batch, d, now, maxAttempts, shops, PostAt(posts, n - 1));
        TurnExtendsBatch(s, net, batch, n, t.batch, u, now, maxAttempts, shops);
      }
    } else {
      assert BatchRowsOk(s, s, Ids(batch, 0), now, maxAttempts, net.log);
    }
  }

  lemma NetOkOfIntents(s: Store, t: Store, net: Net, shops: set<Url>)
    requires s.intents == t.intents
    ensures NetOk(s, net, shops) <==> NetOk(t, net, shops)
  {
    forall k | 0 <= k < |net.log| ensures SentOk(s, net, shops, net.log[k]) <==> SentOk(t, net, shops, net.log[k]) {
    }
    forall place <- net.orders
      ensures OrderOk(s, place.1, net.orders[place]) <==> OrderOk(t, place.1, net.orders[place]) {
    }
  }

  lemma TurnExtendsBatch(s: Store, net: Net, batch: seq<R.Key>, n: nat, b: Batch, u: Turn, now: int, maxAttempts: nat,
                         shops: set<Url>)
    requires 0 < n <= |batch| && ReadyFor(s, net, batch, now, maxAttempts, shops)
    requires BatchOk(s, net, Turn(b, true), batch, n - 1, now, maxAttempts, shops)
    requires batch[n - 1].id in b.store.deliveries && batch[n - 1].id in b.store.trail
    requires TurnOk(b, u, batch[n - 1].id, now, maxAttempts, shops)
    ensures BatchOk(s, net, u, batch, n, now, maxAttempts, shops)
  {
    hide NetOk, ScheduleOk, Attempted, Discard, ReadyFor, ReceiptOk;
    NetOkOfIntents(s, b.store, u.batch.net, shops);
    NetEvolvesTransitive(net, b.net, u.batch.net);
    if u.ok {
      var d := batch[n - 1].id;
      assert Ids(batch, n) == Ids(batch, n - 1) + {d} by {
        assert batch[..n] == batch[..n - 1] + [batch[n - 1]];
      }
      HandledIsDeferred(b.store.deliveries[d], u.batch.store.deliveries[d], now, maxAttempts);
      FreshInBatch(s, net, batch, n, now, maxAttempts, shops);
      assert RowAfter(s, b.store, d, false, now, maxAttempts, b.net.log);
      forall e <- s.deliveries
        ensures RowAfter(s, u.batch.store, e, e in Ids(batch, n), now, maxAttempts, u.batch.net.log) {
        assert RowAfter(s, b.store, e, e in Ids(batch, n - 1), now, maxAttempts, b.net.log);
        ReceiptOutlastsLog(b.store.deliveries[e], e, b.store.trail[e].receipt, b.net.log, u.batch.net.log);
      }
    }
  }

  lemma FreshInBatch(s: Store, net: Net, batch: seq<R.Key>, n: nat, now: int, maxAttempts: nat, shops: set<Url>)
    requires 0 < n <= |batch| && ReadyFor(s, net, batch, now, maxAttempts, shops)
    ensures batch[n - 1].id in s.deliveries && batch[n - 1].id !in Ids(batch, n - 1)
  {
    assert batch[n - 1] in batch;
  }

  lemma ReceiptOutlastsLog(row: Delivery, d: DeliveryId, receipt: Option<nat>, log: seq<Sent>, longer: seq<Sent>)
    requires ReceiptOk(row, d, receipt, log) && log <= longer
    ensures ReceiptOk(row, d, receipt, longer)
  {
  }

  // ------------------------------------------------ keeping the store's rows

  /** A store whose delivery rows were only attempted, discarded, requeued or unlinked from their endpoint. */
  ghost predicate RowsReworked(s: Store, t: Store) {
    && t == s.(deliveries := t.deliveries, trail := t.trail, endpoints := t.endpoints)
    && t.deliveries.Keys == s.deliveries.Keys && t.trail.Keys == s.trail.Keys
    && (forall d <- s.deliveries :: DeliveryEvolves(s.deliveries[d], t.deliveries[d])
                                    && t.deliveries[d].endpoint in {s.deliveries[d].endpoint, None})
    && (forall d <- s.trail :: t.trail[d].origin == s.trail[d].origin)
  }

  lemma ReworkedFacts(s: Store, t: Store)
    requires StoreOk(s) && RowsReworked(s, t)
    ensures StoreOk(t) && Evolves(s, t)
  {
    forall d <- t.deliveries ensures DeliveryOk(t, d) {
      assert DeliveryOk(s, d);
    }
    forall i <- t.fanout, e | e in t.fanout[i] ensures Served(t, i, e) {
      assert Served(s, i, e);
      var d :| IsFor(s, d, i, e);
      assert IsFor(t, d, i, e);
    }
    forall d, d', i, e | IsFor(t, d, i, e) && IsFor(t, d', i, e) ensures d == d' {
      assert IsFor(s, d, i, e) && IsFor(s, d', i, e);
    }
  }

  lemma BatchReworks(s: Store, t: Store, touched: set<DeliveryId>, now: int, maxAttempts: nat, log: seq<Sent>)
    requires s.trail.Keys == s.deliveries.Keys
    requires BatchRowsOk(s, t, touched, now, maxAttempts, log)
    requires forall d <- touched :: d in s.deliveries && Open(s.deliveries[d])
    ensures RowsReworked(s, t) && SchedulesOk(t, maxAttempts) && ReceiptsOk(t, log)
  {
    forall d <- s.deliveries ensures DeliveryEvolves(s.deliveries[d], t.deliveries[d])
                                     && t.deliveries[d].endpoint == s.deliveries[d].endpoint {
      assert RowAfter(s, t, d, d in touched, now, maxAttempts, log);
    }
    forall d <- s.trail ensures t.trail[d].origin == s.trail[d].origin {
      assert RowAfter(s, t, d, d in touched, now, maxAttempts, log);
    }
    forall d <- t.deliveries ensures d in t.trail && ScheduleOk(t.deliveries[d], t.trail[d].attempts, maxAttempts)
                                     && ReceiptOk(t.deliveries[d], d, t.trail[d].receipt, log) {
      assert RowAfter(s, t, d, d in touched, now, maxAttempts, log);
    }
  }

  lemma RequeuedSchedule(row: Delivery, now: int, maxAttempts: nat)
    ensures ScheduleOk(Requeued(row, now), [], maxAttempts)
  {
  }

  /** A manual retry empties the attempt history of its row and touches nothing else. */
  lemma RetryFacts(s: Store, d: DeliveryId, now: int, maxAttempts: nat, log: seq<Sent>)
    requires d in s.deliveries && s.trail.Keys == s.deliveries.Keys
    requires SchedulesOk(s, maxAttempts) && ReceiptsOk(s, log)
    ensures
      var (t, ok) := RetryDelivery(s, d, now);
      && RowsReworked(s, t) && SchedulesOk(t, maxAttempts) && ReceiptsOk(t, log)
      && (ok <==> s.deliveries[d].status != Delivered) && (!ok ==> t == s)
  {
    hide ScheduleOk, SchedulesOk, ReceiptsOk;
    RequeuedSchedule(s.deliveries[d], now, maxAttempts);
    RetryRows(s, d, now, maxAttempts, log);
  }

  lemma RetryRows(s: Store, d: DeliveryId, now: int, maxAttempts: nat, log: seq<Sent>)
    requires d in s.deliveries && s.trail.Keys == s.deliveries.Keys
    requires SchedulesOk(s, maxAttempts) && ReceiptsOk(s, log)
    requires ScheduleOk(Requeued(s.deliveries[d], now), [], maxAttempts)
    ensures
      var t := RetryDelivery(s, d, now).0;
      SchedulesOk(t, maxAttempts) && ReceiptsOk(t, log)
  {
    hide ScheduleOk;
  }
}
