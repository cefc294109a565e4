/** One cycle of the webhook worker and of the expirer: start, run, commit or roll back, count. */
module Workers {
  import opened Common
  import opened Store
  import opened Database
  import opened PaymentIntents
  import opened WebhookDelivery

  datatype HookTotals = HookTotals(succeeded: nat, failedCycles: nat, processed: nat, delivered: nat, failed: nat,
                                   discarded: nat)

  datatype ExpiryTotals = ExpiryTotals(succeeded: nat, failedCycles: nat, expired: nat)

  /**
   * Where a cycle that did its work ends: its success is counted, or the
   * process dies just before that, or the commit before it raises.
   */
  datatype Ending = Marked | Killed | CommitFails

  /** What a cycle of the webhook worker leaves: rows, outside world, counters, and whether it committed. */
  datatype HookCycle = HookCycle(store: Store, net: Net, totals: HookTotals, committed: bool)

  function CountRun(totals: HookTotals, processed: nat, delivered: nat, failed: nat, discarded: nat): HookTotals {
    HookTotals(totals.succeeded + 1, totals.failedCycles, totals.processed + processed, totals.delivered + delivered,
               totals.failed + failed, totals.discarded + discarded)
  }

  function HookRun(s: Store, net: Net, now: int, limit: nat, maxAttempts: nat, shops: set<Url>, posts: seq<Post>): Turn
    requires s.trail.Keys == s.deliveries.Keys
  {
    var batch := DueBatch(s, now, limit);
    DeliverFirst(Batch(s, net, 0, 0, 0), batch, |batch|, now, maxAttempts, shops, posts)
  }

  function RunHookCycle(s: Store, net: Net, totals: HookTotals, now: int, limit: nat, maxAttempts: nat,
                        shops: set<Url>, posts: seq<Post>, ending: Ending): HookCycle
    requires s.trail.Keys == s.deliveries.Keys
  {
    var t := HookRun(s, net, now, limit, maxAttempts, shops, posts);
    var b := t.batch;
    if !t.ok || ending == CommitFails then HookCycle(s, b.net, totals.(failedCycles := totals.failedCycles + 1), false)
    else if ending == Killed then HookCycle(b.store, b.net, totals, true)
    else HookCycle(b.store, b.net, CountRun(totals, |DueBatch(s, now, limit)|, b.delivered, b.failed, b.discarded),
                   true)
  }

  class HookWorker {
    var succeeded: nat
    var failedCycles: nat
    var processed: nat
    var delivered: nat
    var failed: nat
    var discarded: nat

    constructor (t: HookTotals)
      ensures Totals() == t
    {
      succeeded, failedCycles, processed := t.succeeded, t.failedCycles, t.processed;
      delivered, failed, discarded := t.delivered, t.failed, t.discarded;
    }

    function Totals(): HookTotals
      reads this
    {
      HookTotals(succeeded, failedCycles, processed, delivered, failed, discarded)
    }

    method MarkCycleSucceeded(r: RunResult)
      modifies this
      ensures Totals() == CountRun(old(Totals()), r.processed, r.delivered, r.failed, r.discarded)
    {
      succeeded := succeeded + 1;
      processed := processed + r.processed;
      delivered := delivered + r.delivered;
      failed := failed + r.failed;
      discarded := discarded + r.discarded;
    }

    method MarkCycleFailed()
      modifies this
      ensures Totals() == old(Totals()).(failedCycles := old(failedCycles) + 1)
    {
      failedCycles := failedCycles + 1;
    }

    method RunOnce(db: Session, wire: Wire, limit: nat, now: int, maxAttempts: nat, posts: seq<Post>, ending: Ending)
      requires db.Clean() && db.committed.trail.Keys == db.committed.deliveries.Keys
      modifies this, db, wire
      ensures db.Clean()
      ensures
        var c := RunHookCycle(old(db.committed), old(wire.net), old(Totals()), now, limit, maxAttempts, wire.shops,
                              posts, ending);
        db.committed == c.store && wire.net == c.net && Totals() == c.totals
    {
      hide DeliverFirst, DueBatch;
      var result := ProcessDueWebhookDeliveries(db, wire, limit, now, maxAttempts, posts, ending == CommitFails);
      if result == None {
        db.Rollback();
        MarkCycleFailed();
      } else if ending == Marked {
        MarkCycleSucceeded(result.value);
      }
    }
  }

  datatype ExpiryCycle = ExpiryCycle(store: Store, totals: ExpiryTotals, committed: bool)

  function RunExpiryCycle(s: Store, totals: ExpiryTotals, limit: nat, now: int, dbNow: int, ids: seq<DeliveryId>,
                          ending: Ending): ExpiryCycle
  {
    match ExpirePending(s, limit, now, dbNow, ids)
    case None => ExpiryCycle(s, totals.(failedCycles := totals.failedCycles + 1), false)
    case Some(e) =>
      if ending == CommitFails then ExpiryCycle(s, totals.(failedCycles := totals.failedCycles + 1), false)
      else
        ExpiryCycle(e.store,
                    if ending == Killed then totals
                    else ExpiryTotals(totals.succeeded + 1, totals.failedCycles, totals.expired + e.expired),
                    true)
  }

  class ExpiryWorker {
    var succeeded: nat
    var failedCycles: nat
    var expired: nat

    constructor (t: ExpiryTotals)
      ensures Totals() == t
    {
      succeeded, failedCycles, expired := t.succeeded, t.failedCycles, t.expired;
    }

    function Totals(): ExpiryTotals
      reads this
    {
      ExpiryTotals(succeeded, failedCycles, expired)
    }

    method RunOnce(db: Session, limit: nat, now: int, dbNow: int, ids: seq<DeliveryId>, ending: Ending)
      requires db.Clean()
      modifies this, db
      ensures db.Clean()
      ensures
        var c := RunExpiryCycle(old(db.committed), old(Totals()), limit, now, dbNow, ids, ending);
        db.committed == c.store && Totals() == c.totals
    {
      hide ExpireFirst, ExpiredPending;
      var result := ExpirePendingPaymentIntents(db, limit, now, dbNow, ids, ending == CommitFails);
      if result == None {
        db.Rollback();
        failedCycles := failedCycles + 1;
      } else if ending == Marked {
        succeeded := succeeded + 1;
        expired := expired + result.value;
      }
    }
  }
}
