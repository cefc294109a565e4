/** Concrete runs from the empty database that show where a plausible promise fails. */
module Cases {
  import opened Common
  import opened Money
  import opened Fingerprint
  import opened Store
  import opened PaymentIntents
  import opened WebhookDelivery
  import opened Workers
  import opened Creation
  import opened World
  import opened Results
  import F = Fairness
  import E = ExpiryFairness
  import R = Ranking

  /** One euro, to be paid within a minute. */
  const ORDER := Request(Decimal(100, 2), "EUR", None, None, 60)

  lemma OrderAccepted()
    ensures Accepted(ORDER)
  {
  }

  lemma Extended(cfg: Config, w: World, events: seq<Event>, e: Event)
    requires WorldOk(cfg, w)
    ensures Exec(cfg, w, events + [e]) == Next(cfg, Exec(cfg, w, events), e)
  {
    hide WorldOk, Next;
    assert (events + [e])[..|events + [e]| - 1] == events;
  }

  lemma NextIsAct(cfg: Config, w: World, e: Event)
    requires WorldOk(cfg, w)
    ensures Keyed(w.store) && Next(cfg, w, e) == Act(cfg, w, Now(w, e), e.action).(clock := Now(w, e))
  {
    hide Act;
    KeyedTables(cfg, w);
  }

  // ------------------------------------------------- an unhandled exception

  const ENDPOINT := Endpoint(1, 1, true, 0)

  /** A merchant registers an endpoint, orders, and cancels. */
  const CANCELLED := [
    Event(0, OnEndpoints(AddEndpoint(1, ENDPOINT))),
    Event(0, OnCalls(BeginCreate(0, 1, None, ORDER))),
    Event(0, OnCalls(InsertRow(0, 3, "AAAA", 0))),
    Event(0, OnIntents(CancelIntent(1, 3, None, 0, [7])))]

  /** The worker's POST raises an exception it does not handle. */
  const RAISED := Event(0, DeliverDue([OtherException], Marked))

  function Keyless(now: int): Call {
    Begin(1, None, ORDER, now)
  }

  lemma EmptyInsert(s: Store, c: Call, id: IntentId, reference: string)
    requires Accepted(c.request) && c.key.None? && id !in s.intents
    requires forall i <- s.intents :: s.intents[i].reference != reference
    ensures Insert(s, c, id, reference, 0) == (s.(intents := s.intents[id := NewIntent(c, reference, 0)]),
                                               Returned(id, true))
  {
    hide NewIntent;
  }

  lemma OnlyMember(es: seq<int>, e: int)
    requires Distinct(es) && forall x :: x in es <==> x == e
    ensures es == [e]
  {
    assert e in es;
    assert es[0] in es && es[|es| - 1] in es;
  }

  /** A cancellation with one endpoint queues one delivery. */
  lemma OneDelivery(s: Store, now: int)
    requires s.endpoints == map[1 := ENDPOINT] && s.deliveries == map[]
    requires 3 in s.intents && s.intents[3].status == Pending && s.intents[3].merchant == 1
    ensures
      var t := Cancel(s, 3, None, now, 0, [7]).0;
      && t.endpoints == s.endpoints && t.deliveries.Keys == {7}
      && t.deliveries[7].status == Waiting && t.deliveries[7].endpoint == Some(1)
      && t.deliveries[7].nextAttemptAt == Some(now) && t.deliveries[7].attemptCount == 0
  {
    hide ListEnabledEndpoints;
    var row := s.intents[3].(status := Cancelled, cancelledAt := Some(now), reason := None);
    var targets := ListEnabledEndpoints(s, 1);
    OnlyMember(targets, 1);
    var s1 := s.(intents := s.intents[3 := row], fanout := s.fanout[3 := EnabledEndpoints(s, 1)]);
    assert Enqueue(s1, 3, CancelledEvent, now, 0, targets[..0], [7]) == Some(s1);
    assert Terminate(s, 3, row, now, 0, [7])
        == Some(AddDelivery(s1, 7, NewDelivery(3, row, CancelledEvent, now, 0, 1), 1));
  }

  lemma CancelledRun(cfg: Config)
    requires Sound(cfg)
    ensures
      var w := Reached(cfg, CANCELLED);
      && w.store.endpoints == map[1 := ENDPOINT] && w.store.deliveries.Keys == {7}
      && w.store.deliveries[7].status == Waiting && w.store.deliveries[7].endpoint == Some(1)
      && w.store.deliveries[7].nextAttemptAt == Some(w.clock) && w.store.deliveries[7].attemptCount == 0
  {
    hide WorldOk, Next, Accepted, NewIntent, Cancel, Insert;
    StartOk(cfg);
    OrderAccepted();
    var w1 := Next(cfg, START, CANCELLED[0]);
    NextIsAct(cfg, START, CANCELLED[0]);
    var w2 := Next(cfg, w1, CANCELLED[1]);
    NextIsAct(cfg, w1, CANCELLED[1]);
    var w3 := Next(cfg, w2, CANCELLED[2]);
    NextIsAct(cfg, w2, CANCELLED[2]);
    EmptyInsert(w2.store, w2.calls[0], 3, "AAAA");
    PendingRow(w2.calls[0], "AAAA");
    var w4 := Next(cfg, w3, CANCELLED[3]);
    NextIsAct(cfg, w3, CANCELLED[3]);
    OneDelivery(w3.store, Now(w3, CANCELLED[3]));
    FourEvents(cfg, START, CANCELLED[0], CANCELLED[1], CANCELLED[2], CANCELLED[3]);
  }

  lemma PendingRow(c: Call, reference: string)
    requires Accepted(c.request)
    ensures
      var row := NewIntent(c, reference, 0);
      row.status == Pending && row.merchant == c.merchant && row.reference == reference && row.expiresAt == ExpiresAt(c)
  {
  }

  lemma FourEvents(cfg: Config, w: World, a: Event, b: Event, c: Event, d: Event)
    requires WorldOk(cfg, w)
    ensures Exec(cfg, w, [a, b, c, d]) == Next(cfg, Next(cfg, Next(cfg, Next(cfg, w, a), b), c), d)
  {
    hide WorldOk, Next;
    assert [a, b, c, d] == [] + [a] + [b] + [c] + [d];
    Extended(cfg, w, [] + [a] + [b] + [c], d);
    Extended(cfg, w, [] + [a] + [b], c);
    Extended(cfg, w, [] + [a], b);
    Extended(cfg, w, [], a);
  }

  /** A batch of one sending row whose POST raises. */
  lemma LoneRow(s: Store, net: Net, totals: HookTotals, now: int, limit: nat, maxAttempts: nat, shops: set<Url>)
    requires Keyed(s) && s.deliveries.Keys == {7} && IsDue(s.deliveries[7], now) && limit >= 1
    requires Sends(Target(s, s.deliveries[7]))
    ensures
      var c := RunHookCycle(s, net, totals, now, limit, maxAttempts, shops, [OtherException], Marked);
      && !c.committed && c.store == s && c.totals == totals.(failedCycles := totals.failedCycles + 1)
      && |c.net.log| == |net.log| + 1 && c.net.log[|net.log|].delivery == 7
  {
    var batch := DueBatch(s, now, limit);
    var k := DeliveryKey(7, s.deliveries[7]);
    assert DueDeliveryKeys(s, now) == {k} by {
      forall x ensures x in DueDeliveryKeys(s, now) <==> x == k {
      }
    }
    F.BatchIsFirst(s, now, limit);
    assert |batch| == 1 && batch[0] in batch;
    assert batch[0] == k && k.id == 7;
    LoneTurn(Batch(s, net, 0, 0, 0), batch, now, maxAttempts, shops);
  }

  lemma LoneTurn(b: Batch, batch: seq<R.Key>, now: int, maxAttempts: nat, shops: set<Url>)
    requires Rows(b.store, batch) && |batch| == 1 && batch[0].id == 7
    requires 7 in b.store.deliveries && Sends(Target(b.store, b.store.deliveries[7]))
    ensures
      var t := DeliverFirst(b, batch, 1, now, maxAttempts, shops, [OtherException]);
      !t.ok && |t.batch.net.log| == |b.net.log| + 1 && t.batch.net.log[|b.net.log|].delivery == 7
  {
    assert batch[0] in batch;
    assert DeliverFirst(b, batch, 0, now, maxAttempts, shops, [OtherException]) == Turn(b, true);
    assert PostAt([OtherException], 0) == OtherException;
  }

  /**
   * The promise of retries fails on this run: the request was sent and did not
   * get through, but no attempt is counted, no retry put off and no failure
   * recorded on the delivery.
   */
  lemma ExceptionIsNotAFailedAttempt(cfg: Config)
    requires Sound(cfg)
    ensures
      var w, v := Reached(cfg, CANCELLED), Reached(cfg, CANCELLED + [RAISED]);
      && w.store.deliveries.Keys == {7} && w.store.deliveries[7].status == Waiting
      && v.store == w.store
      && |v.net.log| == |w.net.log| + 1 && v.net.log[|w.net.log|].delivery == 7
      && v.hooks == w.hooks.(failedCycles := w.hooks.failedCycles + 1)
  {
    hide WorldOk, Next, RunHookCycle, DueBatch;
    StartOk(cfg);
    CancelledRun(cfg);
    var w := Reached(cfg, CANCELLED);
    Extended(cfg, START, CANCELLED, RAISED);
    NextIsAct(cfg, w, RAISED);
    LimitsHold(cfg);
    LoneRow(w.store, w.net, w.hooks, Now(w, RAISED), cfg.hookLimit, cfg.maxAttempts, cfg.shops);
  }

  lemma LimitsHold(cfg: Config)
    requires Sound(cfg)
    ensures cfg.hookLimit >= 1 && cfg.expiryLimit >= 1
  {
  }

  // ------------------------------------------------- a call that comes late

  /** Two orders are begun; the second is inserted when it has already fallen due. */
  const ONE_LATE := [
    Event(0, OnCalls(BeginCreate(0, 1, None, ORDER))),
    Event(0, OnCalls(BeginCreate(1, 1, None, ORDER))),
    Event(60 * SECOND, OnCalls(InsertRow(1, 1, "BBBB", 0)))]

  /** The first is inserted, too, and the expirer runs. */
  const THEN_EXPIRE := [
    Event(0, OnCalls(InsertRow(0, 0, "AAAA", 0))),
    Event(0, ExpireDue(0, [], Marked))]

  lemma ThreeEvents(cfg: Config, w: World, a: Event, b: Event, c: Event)
    requires WorldOk(cfg, w)
    ensures Exec(cfg, w, [a, b, c]) == Next(cfg, Next(cfg, Next(cfg, w, a), b), c)
    ensures Exec(cfg, w, [a, b]) == Next(cfg, Next(cfg, w, a), b)
    ensures Exec(cfg, w, [a]) == Next(cfg, w, a)
  {
    hide WorldOk, Next;
    assert [a, b, c] == [] + [a] + [b] + [c] && [a, b] == [] + [a] + [b] && [a] == [] + [a];
    Extended(cfg, w, [] + [a] + [b], c);
    Extended(cfg, w, [] + [a], b);
    Extended(cfg, w, [], a);
  }

  lemma LateRun(cfg: Config)
    requires Sound(cfg)
    ensures
      var w := Reached(cfg, ONE_LATE);
      && w.store.endpoints == map[] && w.store.intents.Keys == {1}
      && w.store.intents[1].status == Pending && w.store.intents[1].reference == "BBBB"
      && w.store.intents[1].expiresAt == 2 + 60 * SECOND <= w.clock
      && w.calls.Keys == {0, 1} && w.calls[0] == Keyless(1) && w.calls[1].stage == Returned(1, true)
  {
    hide WorldOk, Next, Accepted, NewIntent, Insert;
    StartOk(cfg);
    OrderAccepted();
    var w1 := Next(cfg, START, ONE_LATE[0]);
    NextIsAct(cfg, START, ONE_LATE[0]);
    var w2 := Next(cfg, w1, ONE_LATE[1]);
    NextIsAct(cfg, w1, ONE_LATE[1]);
    NextIsAct(cfg, w2, ONE_LATE[2]);
    EmptyInsert(w2.store, w2.calls[1], 1, "BBBB");
    PendingRow(w2.calls[1], "BBBB");
    ThreeEvents(cfg, START, ONE_LATE[0], ONE_LATE[1], ONE_LATE[2]);
  }

  lemma DueKeyListed(s: Store, i: IntentId, now: int)
    requires E.ExpiryDue(s, i, now)
    ensures ExpiryKey(i, s.intents[i]) in DueKeys(s, now) && |DueKeys(s, now)| >= 1
  {
    assert {ExpiryKey(i, s.intents[i])} <= DueKeys(s, now);
    Subsets({ExpiryKey(i, s.intents[i])}, DueKeys(s, now));
  }

  /** The earlier of two due intents is the batch of one. */
  lemma EarlierIsFirst(s: Store, now: int)
    requires s.intents.Keys == {0, 1} && s.intents[0].status == s.intents[1].status == Pending
    requires s.intents[0].expiresAt < s.intents[1].expiresAt <= now
    ensures ExpiredPending(s, now, 1) == [ExpiryKey(0, s.intents[0])]
  {
    hide ExpiredPending, DueKeys, R.First;
    var batch := ExpiredPending(s, now, 1);
    var k := ExpiryKey(0, s.intents[0]);
    DueKeyListed(s, 0, now);
    E.BatchIsFirst(s, now, 1);
    assert |batch| == 1 && batch[0] in batch;
    assert batch[0].id in s.intents;
    assert k !in batch ==> R.Before(batch[0], k);
    assert batch[0] == k;
  }

  lemma EarlierGoes(s: Store, now: int)
    requires s.endpoints == map[] && s.intents.Keys == {0, 1}
    requires s.intents[0].status == s.intents[1].status == Pending
    requires s.intents[0].expiresAt < s.intents[1].expiresAt <= now
    ensures
      var r := ExpirePending(s, 1, now, 0, []);
      r.Some? && r.value.store.intents == s.intents[0 := s.intents[0].(status := Expired)]
  {
    hide ExpiredPending, ListEnabledEndpoints, DueKeys;
    EarlierIsFirst(s, now);
    var batch := ExpiredPending(s, now, 1);
    NoTargets(s, s.intents[0].merchant);
    var row := s.intents[0].(status := Expired);
    var start := Expiring(s, 0, 0);
    assert Rest<DeliveryId>([], 0) == [];
    EnqueueKeepsEndpoints(s, 0, row, now, 0, []);
    assert Terminate(s, 0, row, now, 0, []).Some?;
    assert ExpireFirst(s, batch, 0, now, 0, []) == Some(start);
    assert ExpireFirst(s, batch, 1, now, 0, []) == ExpireNext(start, 0, now, 0, []);
  }

  lemma NoTargets(s: Store, m: MerchantId)
    requires s.endpoints == map[]
    ensures ListEnabledEndpoints(s, m) == []
  {
    HasMember(ListEnabledEndpoints(s, m));
  }

  /**
   * Counting only the intents ahead is not enough: with none ahead and a limit
   * of one, a cycle commits and the due intent is still pending, because a
   * call in flight has put an earlier one before it.
   */
  lemma CallInFlightComesFirst(cfg: Config)
    requires Sound(cfg) && cfg.expiryLimit == 1
    ensures
      var w := Reached(cfg, ONE_LATE);
      && E.ExpiryDue(w.store, 1, w.clock) && E.Ahead(w.store, 1) == {}
      && E.InFlight(w.calls, w.store.intents[1].expiresAt) == {0}
      && E.CommittedExpiries(cfg, w, THEN_EXPIRE) == 1
      && 1 in Exec(cfg, w, THEN_EXPIRE).store.intents && Exec(cfg, w, THEN_EXPIRE).store.intents[1].status == Pending
  {
    hide WorldOk, Next, Accepted, NewIntent, Insert, ExpirePending;
    OrderAccepted();
    LateRun(cfg);
    var w := Reached(cfg, ONE_LATE);
    var u := Next(cfg, w, THEN_EXPIRE[0]);
    NextIsAct(cfg, w, THEN_EXPIRE[0]);
    EmptyInsert(w.store, w.calls[0], 0, "AAAA");
    PendingRow(w.calls[0], "AAAA");
    NextIsAct(cfg, u, THEN_EXPIRE[1]);
    EarlierGoes(u.store, Now(u, THEN_EXPIRE[1]));
    ThreeEvents(cfg, w, THEN_EXPIRE[0], THEN_EXPIRE[1], THEN_EXPIRE[1]);
    OneCommitted(cfg, w, THEN_EXPIRE[0], THEN_EXPIRE[1]);
  }

  lemma OneCommitted(cfg: Config, w: World, a: Event, b: Event)
    requires WorldOk(cfg, w) && !a.action.ExpireDue? && E.CommitsExpiry(cfg, Next(cfg, w, a), b)
    ensures E.CommittedExpiries(cfg, w, [a, b]) == 1
  {
    hide WorldOk, Next, RunExpiryCycle;
    assert [a, b][..|[a, b]| - 1] == [a] && [a][..|[a]| - 1] == [];
    ThreeEvents(cfg, w, a, b, b);
    assert E.CommittedExpiries(cfg, w, [a]) == E.CommittedExpiries(cfg, w, []) + 0;
  }
}
