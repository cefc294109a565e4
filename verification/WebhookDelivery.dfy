/** The webhook worker: backoff, a single delivery, a batch and the manual retry. */
module WebhookDelivery {
  import opened Common
  import opened Store
  import opened Database
  import opened Receiver
  import R = Ranking

  const SECOND := 1_000_000

  // --------------------------------------------------------------- backoff

  function Pow2(n: nat): (p: nat)
    ensures p >= 1
  {
    if n == 0 then 1 else 2 * Pow2(n - 1)
  }

  /** The wait after a failed attempt, in seconds. */
  function DelaySeconds(attemptCount: nat): int {
    Min(3600, 60 * Pow2(if attemptCount == 0 then 0 else attemptCount - 1))
  }

  function CalculateNextAttemptAt(now: int, attemptCount: nat): int {
    now + DelaySeconds(attemptCount) * SECOND
  }

  // -------------------------------------------------------- single delivery

  /** How a POST ends: an HTTP answer, an error the worker handles, or any other exception. */
  datatype Post = Answer(code: int) | TransportError | OtherException

  predicate Success(post: Post) {
    post.Answer? && 200 <= post.code < 300
  }

  function Discard(row: Delivery, now: int): Delivery {
    row.(status := Discarded, lastAttemptAt := Some(now), nextAttemptAt := None)
  }

  predicate Sends(endpoint: Option<Endpoint>) {
    endpoint.Some? && endpoint.value.enabled
  }

  /** The row after an attempt that reached the network and ended with `post`. */
  function Attempted(row: Delivery, now: int, maxAttempts: nat, post: Post): Delivery {
    var tried := row.(attemptCount := row.attemptCount + 1, lastAttemptAt := Some(now));
    if Success(post) then
      tried.(status := Delivered, nextAttemptAt := None)
    else if tried.attemptCount >= maxAttempts then
      tried.(status := Discarded, nextAttemptAt := None)
    else
      tried.(status := Failed, nextAttemptAt := Some(CalculateNextAttemptAt(now, tried.attemptCount)))
  }

  class DeliveryRow {
    const merchant: MerchantId
    const endpoint: Option<EndpointId>
    const event: EventType
    const intent: IntentId
    const payload: Payload
    const createdAt: int
    var status: DeliveryStatus
    var attemptCount: nat
    var nextAttemptAt: Option<int>
    var lastAttemptAt: Option<int>

    constructor (row: Delivery)
      ensures View() == row
    {
      merchant, endpoint, event, intent := row.merchant, row.endpoint, row.event, row.intent;
      payload, createdAt := row.payload, row.createdAt;
      status, attemptCount := row.status, row.attemptCount;
      nextAttemptAt, lastAttemptAt := row.nextAttemptAt, row.lastAttemptAt;
    }

    function View(): Delivery
      reads this
    {
      Delivery(merchant, endpoint, event, intent, payload, status, attemptCount, nextAttemptAt, lastAttemptAt,
               createdAt)
    }

    method MarkDiscarded(now: int)
      modifies this
      ensures View() == Discard(old(View()), now)
    {
      status := Discarded;
      lastAttemptAt := Some(now);
      nextAttemptAt := None;
    }

    /** None when the POST raises an exception the worker does not handle. */
    method Deliver(target: Option<Endpoint>, now: int, maxAttempts: nat,
                   post: Post) returns (result: Option<DeliveryStatus>)
      modifies this
      ensures !Sends(target) ==> View() == Discard(old(View()), now)
      ensures Sends(target) && post != OtherException ==> View() == Attempted(old(View()), now, maxAttempts, post)
      ensures result == if Sends(target) && post == OtherException then None else Some(status)
      ensures target == None || !target.value.enabled ==>
                && status == Discarded && nextAttemptAt == None && attemptCount == old(attemptCount)
                && lastAttemptAt == Some(now) && result == Some(Discarded)
      ensures target.Some? && target.value.enabled ==>
                && (result == None <==> post == OtherException)
                && (result.Some? ==>
                      && attemptCount == old(attemptCount) + 1 && lastAttemptAt == Some(now) && result == Some(status)
                      && (status == Delivered <==> post.Answer? && 200 <= post.code <= 299)
                      && (status == Discarded <==> status != Delivered && attemptCount >= maxAttempts)
                      && (status == Failed <==> status != Delivered && attemptCount < maxAttempts)
                      && (nextAttemptAt.Some? <==> status == Failed))
    {
      hide DelaySeconds;
      if target == None || !target.value.enabled {
        MarkDiscarded(now);
        return Some(Discarded);
      }
      attemptCount := attemptCount + 1;
      lastAttemptAt := Some(now);
      match post {
        case OtherException =>
          return None;
        case TransportError =>
        case Answer(code) =>
          if 200 <= code < 300 {
            status, nextAttemptAt := Delivered, None;
            return Some(Delivered);
          }
      }
      if attemptCount >= maxAttempts {
        status, nextAttemptAt := Discarded, None;
        return Some(Discarded);
      }
      status := Failed;
      nextAttemptAt := Some(CalculateNextAttemptAt(now, attemptCount));
      return Some(Failed);
    }

    /** The manual retry; false is the conflict on a delivered row. */
    method Retry(now: int) returns (ok: bool)
      modifies this
      ensures ok == (old(status) != Delivered)
      ensures View() == if ok then Requeued(old(View()), now) else old(View())
    {
      if status == Delivered {
        return false;
      }
      status := Waiting;
      attemptCount := 0;
      nextAttemptAt := Some(now);
      lastAttemptAt := None;
      return true;
    }
  }

  function Requeued(row: Delivery, now: int): Delivery {
    row.(status := Waiting, attemptCount := 0, nextAttemptAt := Some(now), lastAttemptAt := None)
  }

  function RetryDelivery(s: Store, d: DeliveryId, now: int): (Store, bool)
    requires d in s.deliveries && d in s.trail
  {
    if s.deliveries[d].status == Delivered then (s, false)
    else
      (s.(deliveries := s.deliveries[d := Requeued(s.deliveries[d], now)],
          trail := s.trail[d := s.trail[d].(attempts := [])]),
       true)
  }

  method RetryWebhookDelivery(db: Session, d: DeliveryId, now: int) returns (ok: bool)
    requires db.Clean() && d in db.committed.deliveries && d in db.committed.trail
    modifies db
    ensures db.Clean()
    ensures (db.committed, ok) == RetryDelivery(old(db.committed), d, now)
  {
    var row := new DeliveryRow(db.working.deliveries[d]);
    ok := row.Retry(now);
    if ok {
      db.working := db.working.(
        deliveries := db.working.deliveries[d := row.View()],
        trail := db.working.trail[d := db.working.trail[d].(attempts := [])]);
      db.Commit();
    }
  }

  // --------------------------------------------------------------- the wire

  /** A POST that left the worker: where to, for which delivery, what, and whether 2xx came back. */
  datatype Sent = Sent(url: Url, delivery: DeliveryId, payload: Payload, accepted: bool)

  /** The outside world: the orders of every shop and the log of everything sent. */
  datatype Net = Net(orders: map<(Url, IntentId), Order>, log: seq<Sent>)

  /**
   * A POST to `url`.  A shop answers 2xx only by running its handler, and that
   * needs a linked order; otherwise the answer is 404.  Any other server
   * answers as it likes.
   */
  function Transmit(net: Net, shops: set<Url>, url: Url, d: DeliveryId, p: Payload, post: Post): (Net, Post) {
    var place := (url, p.data.id);
    if !Success(post) then (net.(log := net.log + [Sent(url, d, p, false)]), post)
    else if url !in shops then (net.(log := net.log + [Sent(url, d, p, true)]), post)
    else if place !in net.orders then (net.(log := net.log + [Sent(url, d, p, false)]), Answer(404))
    else (Net(net.orders[place := Handle(net.orders[place], p)], net.log + [Sent(url, d, p, true)]), post)
  }

  class Wire {
    const shops: set<Url>
    var net: Net

    constructor (shops: set<Url>, net: Net)
      ensures this.shops == shops && this.net == net
    {
      this.shops, this.net := shops, net;
    }

    method PostWebhook(url: Url, d: DeliveryId, p: Payload, oracle: Post) returns (post: Post)
      modifies this
      ensures (net, post) == Transmit(old(net), shops, url, d, p, oracle)
    {
      post := oracle;
      var place := (url, p.data.id);
      if Success(oracle) && url in shops {
        if place in net.orders {
          var order := new WooOrder(net.orders[place]);
          order.HandleWebhook(p);
          net := net.(orders := net.orders[place := order.View()]);
        } else {
          post := Answer(404);
        }
      }
      net := net.(log := net.log + [Sent(url, d, p, Success(post))]);
    }
  }

  // --------------------------------------------------------------- a batch

  predicate Open(row: Delivery) {
    row.status in {Waiting, Failed}
  }

  function DeliveryKey(d: DeliveryId, row: Delivery): R.Key {
    match row.nextAttemptAt
    case None => R.Key(1, 0, row.createdAt, d)   // nulls sort last
    case Some(t) => R.Key(0, t, row.createdAt, d)
  }

  predicate IsDue(row: Delivery, now: int) {
    Open(row) && (row.nextAttemptAt.Some? ==> row.nextAttemptAt.value <= now)
  }

  function DueDeliveryKeys(s: Store, now: int): set<R.Key> {
    set d <- s.deliveries | IsDue(s.deliveries[d], now) :: DeliveryKey(d, s.deliveries[d])
  }

  function DueBatch(s: Store, now: int, limit: nat): (batch: seq<R.Key>)
    ensures forall k :: k in batch ==> k.id in s.deliveries && k in DueDeliveryKeys(s, now)
  {
    R.First(DueDeliveryKeys(s, now), limit)
  }

  /** The queue: by next attempt, rows without one last, then by creation, then by id. */
  ghost predicate QueuedBefore(s: Store, a: DeliveryId, b: DeliveryId)
    requires a in s.deliveries && b in s.deliveries
  {
    var (x, y) := (s.deliveries[a], s.deliveries[b]);
    if x.nextAttemptAt == y.nextAttemptAt then x.createdAt < y.createdAt || (x.createdAt == y.createdAt && a < b)
    else x.nextAttemptAt.Some? && (y.nextAttemptAt.Some? ==> x.nextAttemptAt.value < y.nextAttemptAt.value)
  }

  /** Waiting or failed, and not put off to a later time. */
  ghost predicate DueRow(s: Store, d: DeliveryId, now: int) {
    && d in s.deliveries && s.deliveries[d].status in {Waiting, Failed}
    && (s.deliveries[d].nextAttemptAt == None || s.deliveries[d].nextAttemptAt.value <= now)
  }

  lemma QueueOrder(s: Store, a: DeliveryId, b: DeliveryId)
    requires a in s.deliveries && b in s.deliveries
    ensures R.Before(DeliveryKey(a, s.deliveries[a]), DeliveryKey(b, s.deliveries[b])) <==> QueuedBefore(s, a, b)
    ensures DeliveryKey(a, s.deliveries[a]).id == a
  {
  }

  lemma DueKeyed(s: Store, d: DeliveryId, now: int)
    ensures DueRow(s, d, now)
       <==> d in s.deliveries && DeliveryKey(d, s.deliveries[d]) in DueDeliveryKeys(s, now)
  {
    if DueRow(s, d, now) { assert IsDue(s.deliveries[d], now); }
  }

  /**
   * The batch holds due rows only, strictly in the order of the queue, and
   * every due row that it leaves out comes behind all of it; it leaves one out
   * only when it is full.
   */
  lemma DueBatchIsFirst(s: Store, now: int, limit: nat)
    ensures
      var batch := DueBatch(s, now, limit);
      && |batch| <= limit
      && (forall j :: 0 <= j < |batch| ==> DueRow(s, batch[j].id, now))
      && (forall i, j :: 0 <= i < j < |batch| ==> QueuedBefore(s, batch[i].id, batch[j].id))
      && (forall d <- s.deliveries :: DueRow(s, d, now) && (forall j :: 0 <= j < |batch| ==> batch[j].id != d) ==>
            |batch| == limit && forall j :: 0 <= j < |batch| ==> QueuedBefore(s, batch[j].id, d))
  {
    hide DueRow, QueuedBefore, DueBatch, R.First, R.Before;
    var batch := DueBatch(s, now, limit);
    assert batch == R.First(DueDeliveryKeys(s, now), limit) by {
      BatchOfKeys(s, now, limit);
    }
    forall j | 0 <= j < |batch| ensures BatchMember(s, batch[j], now) {
      assert batch[j] in batch;
      BatchMembers(s, now, limit, batch[j]);
    }
    forall i, j | 0 <= i < j < |batch| ensures QueuedBefore(s, batch[i].id, batch[j].id) {
      QueueOrder(s, batch[i].id, batch[j].id);
    }
    forall d <- s.deliveries | DueRow(s, d, now) && forall j :: 0 <= j < |batch| ==> batch[j].id != d
      ensures |batch| == limit && forall j :: 0 <= j < |batch| ==> QueuedBefore(s, batch[j].id, d)
    {
      DueKeyed(s, d, now);
      var k := DeliveryKey(d, s.deliveries[d]);
      assert k !in batch by { QueueOrder(s, d, d); }
      LeftOut(DueDeliveryKeys(s, now), limit, k);
      forall j | 0 <= j < |batch| ensures QueuedBefore(s, batch[j].id, d) {
        assert batch[j] in batch;
        QueueOrder(s, batch[j].id, d);
      }
    }
  }

  ghost predicate BatchMember(s: Store, k: R.Key, now: int) {
    DueRow(s, k.id, now) && k.id in s.deliveries && k == DeliveryKey(k.id, s.deliveries[k.id])
  }

  lemma BatchOfKeys(s: Store, now: int, limit: nat)
    ensures DueBatch(s, now, limit) == R.First(DueDeliveryKeys(s, now), limit)
  {
  }

  lemma BatchMembers(s: Store, now: int, limit: nat, k: R.Key)
    requires k in DueBatch(s, now, limit)
    ensures BatchMember(s, k, now)
  {
  }

  /** A limit leaves a key out only when it is reached, and only behind those it takes. */
  lemma LeftOut(ks: set<R.Key>, limit: nat, k: R.Key)
    requires k in ks && k !in R.First(ks, limit)
    ensures |R.First(ks, limit)| == limit && forall x :: x in R.First(ks, limit) ==> R.Before(x, k)
  {
    assert k in R.Sorted(ks);
  }

  /** The session, the outside world and the loop's counters. */
  datatype Batch = Batch(store: Store, net: Net, delivered: nat, failed: nat, discarded: nat)

  /** A batch under way; `ok` turns false when an exception leaves the loop. */
  datatype Turn = Turn(batch: Batch, ok: bool)

  function Target(s: Store, row: Delivery): Option<Endpoint> {
    if row.endpoint.Some? && row.endpoint.value in s.endpoints then Some(s.endpoints[row.endpoint.value]) else None
  }

  function Count(b: Batch, status: DeliveryStatus): Batch {
    match status
    case Delivered => b.(delivered := b.delivered + 1)
    case Failed => b.(failed := b.failed + 1)
    case Discarded => b.(discarded := b.discarded + 1)
    case Waiting => b
  }

  function Put(s: Store, d: DeliveryId, row: Delivery, trail: Trail): Store {
    s.(deliveries := s.deliveries[d := row], trail := s.trail[d := trail])
  }

  function DeliverNext(b: Batch, d: DeliveryId, now: int, maxAttempts: nat, shops: set<Url>, post: Post): Turn
    requires d in b.store.deliveries && d in b.store.trail
  {
    var row := b.store.deliveries[d];
    var target := Target(b.store, row);
    if !Sends(target) then
      Turn(Count(b.(store := Put(b.store, d, Discard(row, now), b.store.trail[d])), Discarded), true)
    else
      var (net, answer) := Transmit(b.net, shops, target.value.url, d, row.payload, post);
      if answer == OtherException then Turn(b.(net := net), false)
      else
        var row' := Attempted(row, now, maxAttempts, answer);
        var trail' := b.store.trail[d].(
          attempts := b.store.trail[d].attempts + [now],
          receipt := if Success(answer) then Some(|b.net.log|) else b.store.trail[d].receipt);
        Turn(Count(b.(store := Put(b.store, d, row', trail'), net := net), row'.status), true)
  }

  /** What becomes of each POST, by position in the batch; the worker may be killed before the end. */
  function PostAt(posts: seq<Post>, n: nat): Post {
    if n < |posts| then posts[n] else OtherException
  }

  ghost predicate Rows(s: Store, batch: seq<R.Key>) {
    forall k :: k in batch ==> k.id in s.deliveries && k.id in s.trail
  }

  /** The loop after the first `n` deliveries of the batch. */
  function DeliverFirst(b: Batch, batch: seq<R.Key>, n: nat, now: int, maxAttempts: nat, shops: set<Url>,
                        posts: seq<Post>): (t: Turn)
    requires n <= |batch| && Rows(b.store, batch)
    ensures b.store.deliveries.Keys <= t.batch.store.deliveries.Keys && b.store.trail.Keys <= t.batch.store.trail.Keys
  {
    if n == 0 then Turn(b, true) else
      var t := DeliverFirst(b, batch, n - 1, now, maxAttempts, shops, posts);
      if !t.ok then t
      else
        var k := batch[n - 1];
        assert k in batch;
        DeliverNext(t.batch, k.id, now, maxAttempts, shops, PostAt(posts, n - 1))
  }

  datatype RunResult = RunResult(processed: nat, delivered: nat, failed: nat, discarded: nat)

  /** None is an exception, of a POST or of the commit: the session is left for the caller to roll back. */
  method ProcessDueWebhookDeliveries(db: Session, wire: Wire, limit: nat, now: int, maxAttempts: nat, posts: seq<Post>,
                                     commitFails: bool)
    returns (result: Option<RunResult>)
    requires db.Clean() && db.committed.trail.Keys == db.committed.deliveries.Keys
    modifies db, wire
    ensures
      var batch := DueBatch(old(db.committed), now, limit);
      var t := DeliverFirst(Batch(old(db.committed), old(wire.net), 0, 0, 0), batch, |batch|, now, maxAttempts,
                            wire.shops, posts);
      && wire.net == t.batch.net
      && if t.ok && !commitFails then
           && db.Clean() && db.committed == t.batch.store
           && result == Some(RunResult(|batch|, t.batch.delivered, t.batch.failed, t.batch.discarded))
         else
           result == None && db.committed == old(db.committed)
  {
    hide DeliverNext, DueBatch, PostAt;
    var batch := DueBatch(db.working, now, limit);
    ghost var start := Batch(old(db.committed), old(wire.net), 0, 0, 0);
    var delivered: nat, failed: nat, discarded: nat := 0, 0, 0;
    var n := 0;
    while n < |batch|
      invariant 0 <= n <= |batch|
      invariant db.committed == old(db.committed)
      invariant DeliverFirst(start, batch, n, now, maxAttempts, wire.shops, posts)
             == Turn(Batch(db.working, wire.net, delivered, failed, discarded), true)
    {
      assert batch[n] in batch;
      var status := DeliverOne(db, wire, batch[n].id, now, maxAttempts, PostAt(posts, n), delivered, failed, discarded);
      n := n + 1;
      if status == None {
        DeliverStuck(start, batch, n, |batch|, now, maxAttempts, wire.shops, posts);
        return None;
      }
      if status == Some(Delivered) {
        delivered := delivered + 1;
      } else if status == Some(Failed) {
        failed := failed + 1;
      } else if status == Some(Discarded) {
        discarded := discarded + 1;
      }
    }
    if commitFails {
      return None;
    }
    db.Commit();
    return Some(RunResult(|batch|, delivered, failed, discarded));
  }

  /** The body of the loop: load a row, deliver it, keep the changed row in the session. */
  method DeliverOne(db: Session, wire: Wire, d: DeliveryId, now: int, maxAttempts: nat, oracle: Post,
                    ghost delivered: nat, ghost failed: nat, ghost discarded: nat)
    returns (status: Option<DeliveryStatus>)
    requires d in db.working.deliveries && d in db.working.trail
    modifies db`working, wire
    ensures
      var b := Batch(old(db.working), old(wire.net), delivered, failed, discarded);
      var t := DeliverNext(b, d, now, maxAttempts, wire.shops, oracle);
      && wire.net == t.batch.net
      && t.ok == status.Some?
      && (t.ok ==>
        && db.working == t.batch.store
        && t.batch == Count(Batch(db.working, wire.net, delivered, failed, discarded), status.value))
  {
    var row := new DeliveryRow(db.working.deliveries[d]);
    var target := Target(db.working, row.View());
    var post := oracle;
    var sends := Sends(target);
    var logged := |wire.net.log|;
    if sends {
      post := wire.PostWebhook(target.value.url, d, row.payload, oracle);
    }
    status := row.Deliver(target, now, maxAttempts, post);
    if status.Some? {
      var trail := db.working.trail[d];
      if sends {
        trail := trail.(attempts := trail.attempts + [now],
                        receipt := if Success(post) then Some(logged) else trail.receipt);
      }
      db.working := Put(db.working, d, row.View(), trail);
    }
  }

  lemma {:induction false} DeliverStuck(b: Batch, batch: seq<R.Key>, n: nat, m: nat, now: int, maxAttempts: nat,
                                        shops: set<Url>, posts: seq<Post>)
    requires n <= m <= |batch| && Rows(b.store, batch)
    requires !DeliverFirst(b, batch, n, now, maxAttempts, shops, posts).ok
    ensures DeliverFirst(b, batch, m, now, maxAttempts, shops, posts)
         == DeliverFirst(b, batch, n, now, maxAttempts, shops, posts)
  {
    hide DeliverNext;
    if n < m { DeliverStuck(b, batch, n, m - 1, now, maxAttempts, shops, posts); }
  }
}
